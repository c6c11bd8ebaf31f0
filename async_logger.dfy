/**
 * `HybridMessageLogger` as the producer script uses it (the aiosqlite copy): two
 * connection handles, each `None` or an open connection, over the two `events` tables.
 * Every operation is awaited to completion before the next starts, so it is modelled
 * as a sequential method.
 */
module AsyncLogger {
  import opened Store

  class HybridMessageLogger {
    const TransientDbPath: string := "state/transient.db"
    const FailedDbPath: string := "state/failed.db"

    var transientConn: Connection?
    var failedConn: Connection?

    /** The rows of the two database files. They persist across `close` and `initialize`. */
    var transient: Table
    var failed: Table

    function Contents(): Tables
      reads this
    {
      Tables(transient, failed)
    }

    predicate IsOpen()
      reads this
    {
      transientConn != null && failedConn != null
    }

    /** `__init__`: no connection yet; `onDisk` is what the database files already hold. */
    constructor (onDisk: Tables)
      ensures transientConn == null && failedConn == null
      ensures Contents() == onDisk
    {
      transientConn, failedConn := null, null;
      transient, failed := onDisk.transient, onDisk.failed;
    }

    /** `initialize`: closes whatever is open, then opens fresh connections to both files.
        Creating a table that already exists leaves its rows alone. */
    method Initialize()
      modifies this, transientConn, failedConn
      ensures IsOpen() && fresh(transientConn) && fresh(failedConn)
      ensures transientConn.isOpen && failedConn.isOpen
      ensures transientConn.path == TransientDbPath && failedConn.path == FailedDbPath
      ensures old(transientConn) != null ==> !old(transientConn).isOpen
      ensures old(failedConn) != null ==> !old(failedConn).isOpen
      ensures Contents() == old(Contents())
    {
      Close();
      transientConn := new Connection(TransientDbPath);
      failedConn := new Connection(FailedDbPath);
    }

    /** `close`: closes and drops each open handle; with both handles `None` it does nothing,
        so calling it again is safe. */
    method Close()
      modifies this`transientConn, this`failedConn, transientConn, failedConn
      ensures transientConn == null && failedConn == null
      ensures old(transientConn) != null ==> !old(transientConn).isOpen
      ensures old(failedConn) != null ==> !old(failedConn).isOpen
    {
      if transientConn != null {
        transientConn.Close();
        transientConn := null;
      }
      if failedConn != null {
        failedConn.Close();
        failedConn := null;
      }
    }

    /** `add_event`: upsert, commit, then the debugging row count. Any storage error is
        re-raised as a plain `Exception`, so the caller always learns the persist failed,
        even when only the count failed and the row is already committed. */
    method AddEvent(eventKey: string, eventData: Payload, fault: AddFault) returns (out: Outcome)
      modifies this`transient
      ensures transientConn == null ==> out == Threw(NoConnection) && Contents() == old(Contents())
      ensures transientConn != null ==> (Contents(), out) == Store.AddEvent(old(Contents()), eventKey, eventData, fault)
    {
      if transientConn == null {
        return Threw(NoConnection);
      }
      if fault == WriteFails {
        return Threw(Wrapped);
      }
      transient := transient[eventKey := eventData];
      if fault == CountFails {
        return Threw(Wrapped);
      }
      return Normal;
    }

    /** `remove_event`: delete and commit; a storage error is re-raised as a plain `Exception`. */
    method RemoveEvent(eventKey: string, fails: bool) returns (out: Outcome)
      modifies this`transient
      ensures transientConn == null ==> out == Threw(NoConnection) && Contents() == old(Contents())
      ensures transientConn != null ==> (Contents(), out) == Store.RemoveEvent(old(Contents()), eventKey, fails)
    {
      if transientConn == null {
        return Threw(NoConnection);
      }
      if fails {
        return Threw(Wrapped);
      }
      transient := transient - {eventKey};
      return Normal;
    }

    /** `move_to_failed`: read the transient row; when there is one, upsert it into the
        failed table and commit, then remove it through `remove_event`. Only
        `sqlite3.Error` is caught, so the `Exception` `remove_event` raises escapes, and
        so does the `AttributeError` of a `None` handle. */
    method MoveToFailed(eventKey: string, fault: MoveFault) returns (out: Outcome)
      modifies this`transient, this`failed
      ensures transientConn == null ==> out == Threw(NoConnection) && Contents() == old(Contents())
      ensures transientConn != null && failedConn == null ==>
        Contents() == old(Contents()) &&
        out == (if fault != SelectFails && eventKey in old(transient) then Threw(NoConnection) else Normal)
      ensures IsOpen() ==> (Contents(), out) == Store.MoveToFailed(old(Contents()), eventKey, fault)
    {
      if transientConn == null {
        return Threw(NoConnection);
      }
      if fault == SelectFails {
        return Normal;
      }
      if eventKey !in transient {
        return Normal;
      }
      var eventData := transient[eventKey];
      if failedConn == null {
        return Threw(NoConnection);
      }
      if fault == InsertFails {
        return Normal;
      }
      failed := failed[eventKey := eventData];
      out := RemoveEvent(eventKey, fault == DeleteFails);
    }
  }
}
