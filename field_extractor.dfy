/**
 * `PostProducer.find_keys`: a recursive walk over a decoded document that collects,
 * for every target key, each value stored under that key at any depth.
 */
module FieldExtractor {
  import opened Json

  /** Every value stored under `key` in `j`, in the order the walk meets them:
      a member's own value first, then whatever lies inside that value, then the
      next member; arrays in index order. Scalars hold nothing. */
  function Occurrences(j: Json, key: string): seq<Json>
    decreases j
  {
    match j
    case JObject(members) => MemberOccurrences(members, key)
    case JArray(items) => ItemOccurrences(items, key)
    case _ => []
  }

  function MemberOccurrences(members: seq<Member>, key: string): seq<Json>
    decreases members
  {
    if members == [] then []
    else
      (if members[0].name == key then [members[0].value] else [])
      + Occurrences(members[0].value, key)
      + MemberOccurrences(members[1..], key)
  }

  function ItemOccurrences(items: seq<Json>, key: string): seq<Json>
    decreases items
  {
    if items == [] then [] else Occurrences(items[0], key) + ItemOccurrences(items[1..], key)
  }

  /** Reference definition, independent of any traversal order: `v` is stored under
      `key` somewhere inside `j`. */
  ghost predicate StoredUnder(j: Json, key: string, v: Json)
    decreases j
  {
    match j
    case JObject(members) =>
      exists i :: 0 <= i < |members| && MemberHolds(members[i], key, v)
    case JArray(items) =>
      exists i :: 0 <= i < |items| && StoredUnder(items[i], key, v)
    case _ => false
  }

  /** The walk finds exactly the values stored under `key`, at whatever depth;
      a match does not stop the walk from descending into the matched value. */
  lemma {:induction false} OccurrencesExact(j: Json, key: string, v: Json)
    ensures v in Occurrences(j, key) <==> StoredUnder(j, key, v)
    decreases j
  {
    match j
    case JObject(members) => MemberOccurrencesExact(members, key, v);
    case JArray(items) => ItemOccurrencesExact(items, key, v);
    case _ =>
  }

  /** `v` sits directly under `m` (when its name is `key`) or somewhere inside its value. */
  ghost predicate MemberHolds(m: Member, key: string, v: Json) {
    (m.name == key && m.value == v) || StoredUnder(m.value, key, v)
  }

  lemma {:induction false} MemberOccurrencesExact(members: seq<Member>, key: string, v: Json)
    ensures v in MemberOccurrences(members, key) <==>
      exists i :: 0 <= i < |members| && MemberHolds(members[i], key, v)
    decreases members
  {
    if members != [] {
      OccurrencesExact(members[0].value, key, v);
      MemberOccurrencesExact(members[1..], key, v);
      var rest := members[1..];
      if exists i :: 0 <= i < |members| && MemberHolds(members[i], key, v) {
        var i :| 0 <= i < |members| && MemberHolds(members[i], key, v);
        if i > 0 {
          assert rest[i - 1] == members[i];
        }
      }
      if exists i :: 0 <= i < |rest| && MemberHolds(rest[i], key, v) {
        var i :| 0 <= i < |rest| && MemberHolds(rest[i], key, v);
        assert members[i + 1] == rest[i];
      }
    }
  }

  lemma {:induction false} ItemOccurrencesExact(items: seq<Json>, key: string, v: Json)
    ensures v in ItemOccurrences(items, key) <==>
      exists i :: 0 <= i < |items| && StoredUnder(items[i], key, v)
    decreases items
  {
    if items != [] {
      OccurrencesExact(items[0], key, v);
      ItemOccurrencesExact(items[1..], key, v);
      var rest := items[1..];
      if exists i :: 0 <= i < |items| && StoredUnder(items[i], key, v) {
        var i :| 0 <= i < |items| && StoredUnder(items[i], key, v);
        if i > 0 {
          assert rest[i - 1] == items[i];
        }
      }
      if exists i :: 0 <= i < |rest| && StoredUnder(rest[i], key, v) {
        var i :| 0 <= i < |rest| && StoredUnder(rest[i], key, v);
        assert items[i + 1] == rest[i];
      }
    }
  }

  /** A key that is stored nowhere in the document yields an empty list, and only then. */
  lemma AbsentKeyFindsNothing(j: Json, key: string)
    ensures Occurrences(j, key) == [] <==> forall v :: !StoredUnder(j, key, v)
  {
    if Occurrences(j, key) != [] {
      OccurrencesExact(j, key, Occurrences(j, key)[0]);
    }
    forall v ensures !StoredUnder(j, key, v) || Occurrences(j, key) != [] {
      OccurrencesExact(j, key, v);
    }
  }

  /** A scalar, and the `None` of an undecodable message, holds nothing: every target
      key maps to the empty list. */
  lemma ScalarFindsNothing(j: Json, targets: seq<string>)
    requires IsScalar(j)
    ensures forall k :: k in Extracted(j, targets) ==> Extracted(j, targets)[k] == []
  {
  }

  /** Nested members with the same name are all collected: whatever `key` holds inside a
      value found under `key` is found too. */
  lemma NestedMatchesCollected(j: Json, key: string, v: Json, w: Json)
    requires v in Occurrences(j, key) && w in Occurrences(v, key)
    ensures w in Occurrences(j, key)
  {
    OccurrencesExact(j, key, v);
    OccurrencesExact(v, key, w);
    StoredUnderTransitive(j, key, v, w);
    OccurrencesExact(j, key, w);
  }

  lemma {:induction false} StoredUnderTransitive(j: Json, key: string, v: Json, w: Json)
    requires StoredUnder(j, key, v) && StoredUnder(v, key, w)
    ensures StoredUnder(j, key, w)
    decreases j
  {
    match j
    case JObject(members) =>
      var i :| 0 <= i < |members| && MemberHolds(members[i], key, v);
      if !(members[i].name == key && members[i].value == v) {
        StoredUnderTransitive(members[i].value, key, v, w);
      }
    case JArray(items) =>
      var i :| 0 <= i < |items| && StoredUnder(items[i], key, v);
      StoredUnderTransitive(items[i], key, v, w);
  }

  lemma MemberOccurrencesStep(members: seq<Member>, i: nat, key: string)
    requires i < |members|
    ensures MemberOccurrences(members[i..], key) ==
      (if members[i].name == key then [members[i].value] else [])
      + Occurrences(members[i].value, key) + MemberOccurrences(members[i + 1..], key)
  {
    assert members[i..][1..] == members[i + 1..];
  }

  lemma ItemOccurrencesStep(items: seq<Json>, i: nat, key: string)
    requires i < |items|
    ensures ItemOccurrences(items[i..], key) == Occurrences(items[i], key) + ItemOccurrences(items[i + 1..], key)
  {
    assert items[i..][1..] == items[i + 1..];
  }

  lemma Regroup<T>(a: seq<T>, b: seq<T>, c: seq<T>, d: seq<T>)
    ensures a + b + c + d == a + (b + c + d)
  {
  }

  /** What `find_keys` returns: one entry per target key, each the list of its occurrences. */
  function Extracted(data: Json, targets: seq<string>): (found: map<string, seq<Json>>)
    ensures forall k :: k in found <==> k in targets
  {
    map k | k in targets :: Occurrences(data, k)
  }

  /** The state the recursive closure of `find_keys` works on: the target keys it
      captures and the `found` dictionary it appends to. */
  class KeySearch {
    const targets: seq<string>
    var found: map<string, seq<Json>>

    ghost predicate Valid()
      reads this
    {
      found.Keys == set k | k in targets
    }

    /** `found = {key: [] for key in target_keys}` */
    constructor (targets: seq<string>)
      ensures Valid() && this.targets == targets
      ensures forall k :: k in found ==> found[k] == []
    {
      this.targets := targets;
      found := map k | k in targets :: [];
    }

    /** `recursive_search(current)`: appends to each target key's list the values the
        walk meets under that key, leaving the set of keys as it was. */
    method RecursiveSearch(current: Json)
      requires Valid()
      modifies this
      ensures Valid()
      ensures forall k :: k in found ==> found[k] == old(found[k]) + Occurrences(current, k)
      decreases current
    {
      match current
      case JObject(members) => SearchMembers(members);
      case JArray(items) => SearchItems(items);
      case _ =>
    }

    /** The `for k, v in current.items()` loop of `recursive_search`. */
    method SearchMembers(members: seq<Member>)
      requires Valid()
      modifies this
      ensures Valid()
      ensures forall k :: k in found ==> found[k] == old(found[k]) + MemberOccurrences(members, k)
      decreases members
    {
      for i := 0 to |members|
        invariant Valid()
        invariant forall k :: k in found ==>
          found[k] + MemberOccurrences(members[i..], k) == old(found[k]) + MemberOccurrences(members, k)
      {
        var m := members[i];
        ghost var before := found;
        if m.name in targets {
          found := found[m.name := found[m.name] + [m.value]];
        }
        ghost var appended := found;
        RecursiveSearch(m.value);
        forall k | k in found
          ensures found[k] + MemberOccurrences(members[i + 1..], k) == old(found[k]) + MemberOccurrences(members, k)
        {
          var own := if m.name == k then [m.value] else [];
          assert appended[k] == before[k] + own;
          MemberOccurrencesStep(members, i, k);
          Regroup(before[k], own, Occurrences(m.value, k), MemberOccurrences(members[i + 1..], k));
        }
      }
    }

    /** The `for item in current` loop of `recursive_search`. */
    method SearchItems(items: seq<Json>)
      requires Valid()
      modifies this
      ensures Valid()
      ensures forall k :: k in found ==> found[k] == old(found[k]) + ItemOccurrences(items, k)
      decreases items
    {
      for i := 0 to |items|
        invariant Valid()
        invariant forall k :: k in found ==>
          found[k] + ItemOccurrences(items[i..], k) == old(found[k]) + ItemOccurrences(items, k)
      {
        ghost var before := found;
        RecursiveSearch(items[i]);
        forall k | k in found
          ensures found[k] + ItemOccurrences(items[i + 1..], k) == old(found[k]) + ItemOccurrences(items, k)
        {
          ItemOccurrencesStep(items, i, k);
        }
      }
    }
  }

  /** `find_keys(data, target_keys)`: exactly the target keys, each mapped to every value
      stored under it in pre-order; a key found nowhere maps to the empty list. */
  method FindKeys(data: Json, targets: seq<string>) returns (found: map<string, seq<Json>>)
    ensures forall k :: k in found <==> k in targets
    ensures forall k :: k in found ==> found[k] == Occurrences(data, k)
    ensures found == Extracted(data, targets)
  {
    var search := new KeySearch(targets);
    search.RecursiveSearch(data);
    found := search.found;
    assert found.Keys == Extracted(data, targets).Keys;
  }
}
