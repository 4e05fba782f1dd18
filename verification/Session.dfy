/** The reference-counted session: one transaction shared by every scope nested in it. */
module Session {
  import opened Wrappers
  import opened Domain
  import opened Cascade

  /** How leaving the outermost scope may go wrong: its commit raises, or closing the session after
      it does. */
  datatype ExitFault = NoExitFault | CommitRaises | CloseRaises

  function ExitResult(fault: ExitFault): (r: Result<(), Exn>)
    ensures r == if fault.CommitRaises? then Failure(CommitError) else if fault.CloseRaises? then Failure(CloseError) else Success(())
  {
    match fault
    case NoExitFault => Success(())
    case CommitRaises => Failure(CommitError)
    case CloseRaises => Failure(CloseError)
  }

  class SessionProvider {
    var committed: DB
    var session: Option<DB> // the open session, with the database as its transaction sees it
    var sessionCount: int

    constructor (db: DB)
      ensures committed == db && session == None && sessionCount == 0
    {
      committed, session, sessionCount := db, None, 0;
    }

    /** Only the outermost scope opens a session; it sees what is committed. */
    method Enter()
      modifies this`session, this`sessionCount
      ensures sessionCount == old(sessionCount) + 1
      ensures session == if old(sessionCount) == 0 then Some(committed) else old(session)
    {
      if sessionCount == 0 {
        session := Some(committed);
      }
      sessionCount := sessionCount + 1;
    }

    /** Only the outermost scope commits, and it does so whatever exception its body ended with. A
        commit that raises is rolled back. A close that raises after it does so with the data
        committed. Either way the session is closed. */
    method Exit(fault: ExitFault) returns (r: Result<(), Exn>)
      requires session.Some?
      modifies this
      ensures old(sessionCount) > 1 ==>
                r == Success(()) && sessionCount == old(sessionCount) - 1 && session == old(session) && committed == old(committed)
      ensures old(sessionCount) <= 1 ==>
                && sessionCount == 0 && session == None
                && r == (if fault.CommitRaises? then Failure(CommitError) else if fault.CloseRaises? then Failure(CloseError) else Success(()))
                && committed == (if fault.CommitRaises? then old(committed) else old(session).value)
    {
      sessionCount := sessionCount - 1;
      r := Success(());
      if sessionCount <= 0 {
        sessionCount := 0;
        if fault.CommitRaises? {
          Rollback();
          r := Failure(CommitError);
        } else {
          committed := session.value;
          if fault.CloseRaises? {
            Rollback();
            r := Failure(CloseError);
          }
        }
        session := None;
      }
    }

    method Rollback()
      requires session.Some?
      modifies this`session
      ensures session == Some(committed)
    {
      session := Some(committed);
    }
  }
}
