/**
 * The filter and record-building block of `PostProducer.start`: which documents are
 * kept, and the normalised post record built from the values `find_keys` extracted.
 */
module Normalize {
  import opened Wrappers
  import opened Json
  import opened FieldExtractor

  /** The `target_keys` list handed to `find_keys`. */
  const TargetKeys: seq<string> :=
    ["did", "time_us", "kind", "cid", "operation", "created_at", "createdAt", "langs", "text"]

  /** `post_dict`. A field is `None` when nothing usable was found; `created_at` has no
      such case, because a document without any creation time raises instead. */
  datatype PostRecord = PostRecord(
    did: Option<Json>,
    timeUs: Option<Json>,
    kind: Option<Json>,
    cid: Option<Json>,
    operation: Option<Json>,
    createdAt: Json,
    langs: Option<Json>,
    text: Option<Json>)

  /** What the block does with one document: skip it, keep it with its record, or raise
      `IndexError` by indexing an empty match list. */
  datatype Admission = Rejected | Accepted(post: PostRecord) | IndexError

  /** `found[key][0] if found.get(key) and len(found[key]) > 0 and found[key][0] != "" else None`.
      Python's `!=` against `""` only fails for the empty string itself. */
  function FirstUsable(values: seq<Json>): (r: Option<Json>)
    ensures PicksFirstUsable(r, values)
  {
    if |values| > 0 && values[0] != JString("") then Some(values[0]) else None
  }

  /** `opt` is what `FirstUsable` would pick from `values`, stated without computing it. */
  predicate PicksFirstUsable(opt: Option<Json>, values: seq<Json>) {
    (opt.None? <==> values == [] || values[0] == JString("")) &&
    (opt.Some? ==> values != [] && opt.value == values[0])
  }

  /** Every target key has a match list, as `find_keys` guarantees. */
  predicate HasTargets(found: map<string, seq<Json>>) {
    (set k | k in TargetKeys) <= found.Keys
  }

  predicate FirstIs(values: seq<Json>, s: string) {
    |values| > 0 && values[0] == JString(s)
  }

  /** The filter and `post_dict` construction of `start`. The `kind` test indexes the
      list unguarded; `operation` is looked at only once `kind` passed (the `and`
      short-circuits, and the `is not None` test always holds); `created_at` falls back
      to `createdAt` only when its own list is empty, and raises when both are. */
  function Admit(found: map<string, seq<Json>>): (r: Admission)
    requires HasTargets(found)
    ensures r.IndexError? <==>
      found["kind"] == [] ||
      (found["kind"][0] == JString("commit") &&
        (found["operation"] == [] ||
          (found["operation"][0] == JString("create") && found["created_at"] == [] && found["createdAt"] == [])))
    ensures r.Accepted? <==>
      FirstIs(found["kind"], "commit") && FirstIs(found["operation"], "create") &&
      (found["created_at"] != [] || found["createdAt"] != [])
    ensures r.Accepted? ==>
      r.post.kind == Some(JString("commit")) && r.post.operation == Some(JString("create"))
    ensures r.Accepted? ==>
      r.post.createdAt == (if found["created_at"] != [] then found["created_at"][0] else found["createdAt"][0])
    ensures r.Accepted? ==>
      PicksFirstUsable(r.post.did, found["did"]) && PicksFirstUsable(r.post.timeUs, found["time_us"]) &&
      PicksFirstUsable(r.post.cid, found["cid"]) && PicksFirstUsable(r.post.langs, found["langs"]) &&
      PicksFirstUsable(r.post.text, found["text"])
  {
    assert "kind" in TargetKeys && "operation" in TargetKeys && "created_at" in TargetKeys;
    assert "createdAt" in TargetKeys && "did" in TargetKeys && "time_us" in TargetKeys;
    assert "cid" in TargetKeys && "langs" in TargetKeys && "text" in TargetKeys;
    if found["kind"] == [] then IndexError
    else if found["kind"][0] != JString("commit") then Rejected
    else if found["operation"] == [] then IndexError
    else if found["operation"][0] != JString("create") then Rejected
    else if found["created_at"] == [] && found["createdAt"] == [] then IndexError
    else
      var createdAt := if found["created_at"] == [] then found["createdAt"][0] else found["created_at"][0];
      Accepted(PostRecord(
        did := FirstUsable(found["did"]),
        timeUs := FirstUsable(found["time_us"]),
        kind := FirstUsable(found["kind"]),
        cid := FirstUsable(found["cid"]),
        operation := FirstUsable(found["operation"]),
        createdAt := createdAt,
        langs := FirstUsable(found["langs"]),
        text := FirstUsable(found["text"])))
  }

  /** One document through `find_keys` and the filter. */
  function Classify(doc: Json): (r: Admission)
    ensures r.IndexError? <==>
      Occurrences(doc, "kind") == [] ||
      (FirstIs(Occurrences(doc, "kind"), "commit") &&
        (Occurrences(doc, "operation") == [] ||
          (FirstIs(Occurrences(doc, "operation"), "create") &&
            Occurrences(doc, "created_at") == [] && Occurrences(doc, "createdAt") == [])))
    ensures r.Accepted? <==>
      FirstIs(Occurrences(doc, "kind"), "commit") && FirstIs(Occurrences(doc, "operation"), "create") &&
      (Occurrences(doc, "created_at") != [] || Occurrences(doc, "createdAt") != [])
  {
    var found := Extracted(doc, TargetKeys);
    assert "kind" in TargetKeys && "operation" in TargetKeys;
    assert "created_at" in TargetKeys && "createdAt" in TargetKeys;
    Admit(found)
  }

  /** The filter in terms of the document: it is kept exactly when the first value found
      under `kind` is "commit", the first under `operation` is "create", and some creation
      time is stored in it. */
  lemma ClassifyAccepts(doc: Json)
    ensures Classify(doc).Accepted? <==>
      FirstIs(Occurrences(doc, "kind"), "commit") && FirstIs(Occurrences(doc, "operation"), "create") &&
      exists v :: StoredUnder(doc, "created_at", v) || StoredUnder(doc, "createdAt", v)
  {
    var found := Extracted(doc, TargetKeys);
    assert found["created_at"] == Occurrences(doc, "created_at");
    assert found["createdAt"] == Occurrences(doc, "createdAt");
    AbsentKeyFindsNothing(doc, "created_at");
    AbsentKeyFindsNothing(doc, "createdAt");
  }

  /** A document in which no `created_at` is stored anywhere takes its creation time from
      the first `createdAt`. */
  lemma CreatedAtFallback(doc: Json)
    requires forall v :: !StoredUnder(doc, "created_at", v)
    requires Classify(doc).Accepted?
    ensures Occurrences(doc, "createdAt") != []
    ensures Classify(doc).post.createdAt == Occurrences(doc, "createdAt")[0]
  {
    AbsentKeyFindsNothing(doc, "created_at");
    var found := Extracted(doc, TargetKeys);
    assert found["created_at"] == [];
  }

  /** A document with no `kind` anywhere, in particular a scalar or `None`, raises
      `IndexError` rather than being skipped. */
  lemma NoKindRaises(doc: Json)
    requires forall v :: !StoredUnder(doc, "kind", v)
    ensures Classify(doc) == IndexError
  {
    AbsentKeyFindsNothing(doc, "kind");
    assert Extracted(doc, TargetKeys)["kind"] == [];
  }

  /** A commit whose first `operation` is anything but "create" (a "delete", an
      "update") is skipped: no record, no error. */
  lemma NonCreateRejected(doc: Json)
    requires FirstIs(Occurrences(doc, "kind"), "commit")
    requires Occurrences(doc, "operation") != [] && Occurrences(doc, "operation")[0] != JString("create")
    ensures Classify(doc) == Rejected
  {
    var found := Extracted(doc, TargetKeys);
    assert found["kind"] == Occurrences(doc, "kind") by { assert "kind" in TargetKeys; }
    assert found["operation"] == Occurrences(doc, "operation") by { assert "operation" in TargetKeys; }
  }
}
