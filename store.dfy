/**
 * The outbox both `HybridMessageLogger` copies keep: two SQLite databases, each with one
 * `events(key TEXT PRIMARY KEY, data BLOB)` table. A table is a map from key to payload;
 * a commit is the moment the map changes. The functions here say what each operation
 * does to the pair of tables, under every storage failure the code can meet; the two
 * logger classes are proved to follow them.
 */
module Store {

  type Payload = seq<bv8>

  /** The rows of one `events` table. */
  type Table = map<string, Payload>

  /** `transient.db` holds records not yet delivered, `failed.db` the ones whose delivery failed. */
  datatype Tables = Tables(transient: Table, failed: Table)

  /** Exceptions that leave a store operation. A storage error (`sqlite3.Error`) inside
      `add_event` or `remove_event` is re-raised as a plain `Exception`; calling through a
      handle that is `None` raises `AttributeError`. */
  datatype Exc = Wrapped | NoConnection

  datatype Outcome = Normal | Threw(exc: Exc)

  /** Where `add_event` meets a storage error: at the upsert or its commit, or at the
      debugging `COUNT(*)` query that runs after the commit. */
  datatype AddFault = AddOk | WriteFails | CountFails

  /** Where `move_to_failed` meets a storage error: reading the transient row, writing
      the failed row, or the transient delete done through `remove_event`. */
  datatype MoveFault = MoveOk | SelectFails | InsertFails | DeleteFails

  /** `key` has the same row, or the same absence of a row, in both tables. */
  predicate SameRow(a: Table, b: Table, key: string) {
    (key in a <==> key in b) && (key in a ==> a[key] == b[key])
  }

  /** `add_event` on open connections: an upsert of `key` into the transient table. A
      failure at the write leaves both tables as they were and is reported; a failure at
      the count after the commit is reported although the row is stored. */
  function AddEvent(t: Tables, key: string, data: Payload, fault: AddFault): (r: (Tables, Outcome))
    ensures fault == WriteFails ==> r.0 == t
    ensures fault != WriteFails ==> key in r.0.transient && r.0.transient[key] == data
    ensures forall k :: k != key ==> SameRow(r.0.transient, t.transient, k)
    ensures r.0.failed == t.failed
    ensures r.1 == Normal <==> fault.AddOk?
    ensures r.1 == Normal || r.1 == Threw(Wrapped)
  {
    if fault == WriteFails then (t, Threw(Wrapped))
    else
      var t' := t.(transient := t.transient[key := data]);
      if fault == CountFails then (t', Threw(Wrapped)) else (t', Normal)
  }

  /** `remove_event` on open connections: `key` is gone from the transient table, which
      is a no-op when it was absent. A storage failure changes nothing and is reported. */
  function RemoveEvent(t: Tables, key: string, fails: bool): (r: (Tables, Outcome))
    ensures fails ==> r == (t, Threw(Wrapped))
    ensures !fails ==> key !in r.0.transient && r.1 == Normal
    ensures !fails && key !in t.transient ==> r.0 == t
    ensures forall k :: k != key ==> SameRow(r.0.transient, t.transient, k)
    ensures r.0.failed == t.failed
  {
    if fails then (t, Threw(Wrapped))
    else (t.(transient := t.transient - {key}), Normal)
  }

  /** `move_to_failed` on open connections: read the transient row, upsert it into the
      failed table and commit, then delete it from the transient table. A storage error
      while reading or writing is swallowed; one in the delete escapes as the plain
      `Exception` `remove_event` raises. Because the failed row is committed before the
      transient row is deleted, the record is never absent from both tables: it may end
      up in both. */
  function MoveToFailed(t: Tables, key: string, fault: MoveFault): (r: (Tables, Outcome))
    ensures key !in t.transient ==> r == (t, Normal)
    ensures key in t.transient ==>
      (key in r.0.transient && r.0.transient[key] == t.transient[key]) ||
      (key in r.0.failed && r.0.failed[key] == t.transient[key])
    ensures key in t.transient && fault == MoveOk ==>
      key !in r.0.transient && key in r.0.failed && r.0.failed[key] == t.transient[key]
    ensures key in t.transient && fault == DeleteFails ==>
      r.0.transient == t.transient && key in r.0.failed && r.0.failed[key] == t.transient[key]
    ensures fault == SelectFails || fault == InsertFails ==> r.0 == t
    ensures forall k :: k != key ==> SameRow(r.0.transient, t.transient, k) && SameRow(r.0.failed, t.failed, k)
    ensures r.1 == Normal || r.1 == Threw(Wrapped)
    ensures r.1 == Threw(Wrapped) <==> fault == DeleteFails && key in t.transient
  {
    if fault == SelectFails || key !in t.transient then (t, Normal)
    else
      var data := t.transient[key];
      if fault == InsertFails then (t, Normal)
      else RemoveEvent(t.(failed := t.failed[key := data]), key, fault == DeleteFails)
  }

  /** An open database connection. The database it opens outlives it: the tables are the
      logger's, not the connection's. */
  class Connection {
    const path: string
    var isOpen: bool

    /** `sqlite3.connect(path)` */
    constructor (path: string)
      ensures this.path == path && isOpen
    {
      this.path := path;
      isOpen := true;
    }

    method Close()
      modifies this
      ensures !isOpen
    {
      isOpen := false;
    }
  }
}
