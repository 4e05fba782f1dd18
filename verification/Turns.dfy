/** The service between calls: what one call may leave behind, as a transition. */
module Turns {
  import opened Wrappers
  import opened Domain
  import opened Cascade
  import opened Consistency
  import opened Tracing
  import opened Messages
  import opened Notifications

  /** Committed data, the message buffer of the current request context, everything the broker
      was handed, and the number of the next call. */
  datatype Sys = Sys(db: DB, buffer: Buffer<Uuid>, wire: seq<Pushed<Uuid>>, request: nat)

  /** How a call ends: committed, with one fault or none in the drain that follows; its body
      raised, and everything was rolled back; its body went well and the commit raised, or the
      close of the session after the commit; or its body was cancelled, when it had reached `at`
      with these ids pushed, which is kept unless the commit raises. */
  datatype Ending =
    | Committed(drain: DrainFault)
    | BodyRaised
    | CommitRaised
    | CloseRaised
    | Cut(at: DB, pushed: seq<Uuid>, kept: bool)

  datatype Turn =
    | FreshContext // an HTTP request begins: it gets a publisher of its own
    | Call(r: Request, traceContext: string, ending: Ending)

  const UNUSED := Slot(None, None)

  /** The end of a call whose body went well. */
  function Settled(s: Sys, v: View, traceContext: string, ending: Ending): (s': Sys)
    requires NotesOnly(s.buffer) && !ending.BodyRaised? && !ending.Cut?
    ensures NotesOnly(s'.buffer)
  {
    var b := PushNotes(s.buffer, traceContext, v.pushed);
    if ending.CommitRaised? then s.(buffer := b, request := s.request + 1)
    else if ending.CloseRaised? then s.(db := v.db, buffer := b, request := s.request + 1)
    else
      var n := |Flat(b)|;
      DropKeepsNotes(b, PoppedUnder(ending.drain, n));
      Sys(v.db,
          if Completes(ending.drain, n) then [] else Drop(b, PoppedUnder(ending.drain, n)),
          s.wire + Flat(b)[..SentUnder(ending.drain, n)],
          s.request + 1)
  }

  /** A cancelled call stopped at a state that the reference run of its batch passes through. */
  ghost predicate MayStopAt(bus: Bus, s: Sys, r: Request, at: DB, pushed: seq<Uuid>)
    requires WellFormed(bus)
  {
    Passes(bus, Begin(s.request, s.db, r.trace, UNUSED), Dos(Caller, r.actions), at, pushed)
  }

  /** What a turn makes of the system; None for a turn that cannot happen, because the batch
      it claims went well fails by itself, or never comes to where it claims to have been cancelled. */
  ghost function After(bus: Bus, s: Sys, t: Turn): (o: Option<Sys>)
    requires WellFormed(bus) && NotesOnly(s.buffer)
    ensures o.Some? ==> NotesOnly(o.value.buffer)
  {
    if t.FreshContext? then Some(s.(buffer := []))
    else if t.ending.BodyRaised? then Some(s.(buffer := [], request := s.request + 1))
    else if t.ending.Cut? then
      if MayStopAt(bus, s, t.r, t.ending.at, t.ending.pushed) then
        Some(Sys(if t.ending.kept then t.ending.at else s.db,
                 PushNotes(s.buffer, t.traceContext, t.ending.pushed), s.wire, s.request + 1))
      else None
    else
      match Serve(bus, s.request, s.db, t.r, UNUSED)
      case Failure(_) => None
      case Success(v) => Some(Settled(s, v, t.traceContext, t.ending))
  }

  ghost function AfterAll(bus: Bus, s: Sys, turns: seq<Turn>): (o: Option<Sys>)
    requires WellFormed(bus) && NotesOnly(s.buffer)
    ensures o.Some? ==> NotesOnly(o.value.buffer)
  {
    if turns == [] then Some(s)
    else
      match AfterAll(bus, s, turns[..|turns| - 1])
      case None => None
      case Some(s') => After(bus, s', turns[|turns| - 1])
  }

  lemma TurnKeepsConsistent(bus: Bus, s: Sys, t: Turn, s': Sys)
    requires WellFormed(bus) && NotesOnly(s.buffer) && Consistent(s.db, s.request, 0)
    requires After(bus, s, t) == Some(s')
    ensures Consistent(s'.db, s'.request, 0)
  {
    LaterConsistent(s.db, s.request, 0, s.request + 1, 0);
    if t.Call? {
      match t.ending
      case Cut(at, pushed, kept) =>
        var v := Begin(s.request, s.db, t.r.trace, UNUSED);
        LaterConsistent(s.db, s.request, 0, s.request, v.next);
        PassesConsistent(bus, v, Dos(Caller, t.r.actions), at, pushed);
      case BodyRaised =>
      case _ =>
        ServeKeepsConsistent(bus, s.request, s.db, t.r, UNUSED, Serve(bus, s.request, s.db, t.r, UNUSED).value);
    }
  }

  /** Whatever calls are made, whatever the handlers do and however the calls end, every committed
      state that is reached from the empty database is consistent. */
  lemma {:induction false} RunsKeepConsistent(bus: Bus, turns: seq<Turn>, s': Sys)
    requires WellFormed(bus) && AfterAll(bus, Sys(EMPTY_DB, [], [], 0), turns) == Some(s')
    ensures Consistent(s'.db, s'.request, 0)
    decreases |turns|
  {
    if turns == [] {
      EmptyConsistent();
    } else {
      var s1 := AfterAll(bus, Sys(EMPTY_DB, [], [], 0), turns[..|turns| - 1]).value;
      RunsKeepConsistent(bus, turns[..|turns| - 1], s1);
      TurnKeepsConsistent(bus, s1, turns[|turns| - 1], s');
    }
  }

  lemma ServeLogs(bus: Bus, request: nat, db: DB, r: Request, v: View)
    requires WellFormed(bus) && (forall a :: a in r.actions ==> !a.Notify?)
    requires Serve(bus, request, db, r, UNUSED) == Success(v)
    ensures if r.actions == [] then v.db == db else |db.log| < |v.db.log|
  {
    var v0, tasks := Begin(request, db, r.trace, UNUSED), Dos(Caller, r.actions);
    if r.actions != [] {
      assert r.actions[0] in r.actions;
      StepLogs(bus, v0, tasks[0]);
      var (v1, children) := Step(bus, v0, tasks[0]).value;
      LogGrows(bus, v1, children, Run(bus, v1, children).value);
      LogGrows(bus, Run(bus, v1, children).value, tasks[1..], v);
    }
  }

  /** A call that fails leaves the data as it was, exactly unless it made commands and its session
      failed to close after its commit, or it was cancelled after its first save was written and its
      commit did not raise. */
  lemma FailedCallUnchangedIff(bus: Bus, s: Sys, t: Turn, s': Sys)
    requires WellFormed(bus) && NotesOnly(s.buffer) && After(bus, s, t) == Some(s')
    requires t.Call? && !t.ending.Committed? && forall a :: a in t.r.actions ==> !a.Notify?
    ensures s'.db == s.db <==> !(ClosedBadly(t) && t.r.actions != []) && !(CutAndKept(t) && |t.ending.at.log| > |s.db.log|)
  {
    if ClosedBadly(t) {
      ServeLogs(bus, s.request, s.db, t.r, Serve(bus, s.request, s.db, t.r, UNUSED).value);
    } else if CutAndKept(t) && |t.ending.at.log| <= |s.db.log| {
      PassesUnchanged(bus, Begin(s.request, s.db, t.r.trace, UNUSED), Dos(Caller, t.r.actions), t.ending.at, t.ending.pushed);
    }
  }

  /** A call that went well, under the number it ran with. */
  datatype Served = Served(request: nat, r: Request)

  /** Running the given calls one after the other, with nothing in between; None if one fails. */
  function ServeEach(bus: Bus, db: DB, calls: seq<Served>): Option<DB>
    requires WellFormed(bus)
  {
    if calls == [] then Some(db)
    else
      match ServeEach(bus, db, calls[..|calls| - 1])
      case None => None
      case Some(before) => ServeOne(bus, before, calls[|calls| - 1])
  }

  function ServeOne(bus: Bus, db: DB, call: Served): Option<DB>
    requires WellFormed(bus)
  {
    match Serve(bus, call.request, db, call.r, UNUSED)
    case Failure(_) => None
    case Success(v) => Some(v.db)
  }

  lemma AfterAllAppend(bus: Bus, s: Sys, turns: seq<Turn>, t: Turn)
    requires WellFormed(bus) && NotesOnly(s.buffer)
    ensures AfterAll(bus, s, turns + [t]) == match AfterAll(bus, s, turns)
                                             case None => None
                                             case Some(s') => After(bus, s', t)
  {
    assert (turns + [t])[..|turns|] == turns;
  }

  lemma ServeEachAppend(bus: Bus, db: DB, calls: seq<Served>, last: Served)
    requires WellFormed(bus)
    ensures ServeEach(bus, db, calls + [last]) == match ServeEach(bus, db, calls)
                                                  case None => None
                                                  case Some(before) => ServeOne(bus, before, last)
  {
    assert (calls + [last])[..|calls|] == calls;
  }

  /** Two ascending lists that share the numbers below n between them. */
  ghost predicate Partitions(a: seq<nat>, b: seq<nat>, n: nat) {
    && Ascending(a) && Ascending(b)
    && (forall k :: k in a ==> k < n && k !in b)
    && (forall k :: k in b ==> k < n)
    && (forall k: nat :: k < n ==> k in a || k in b)
  }

  ghost predicate Ascending(a: seq<nat>) {
    forall i, j :: 0 <= i < j < |a| ==> a[i] < a[j]
  }

  lemma PartitionsSuccess(a: seq<nat>, b: seq<nat>, n: nat)
    requires Partitions(a, b, n)
    ensures Partitions(a + [n], b, n + 1)
  {
    forall i, j | 0 <= i < j < |a + [n]| ensures (a + [n])[i] < (a + [n])[j] {
      assert a[i] in a;
    }
  }

  lemma PartitionsFailure(a: seq<nat>, b: seq<nat>, n: nat)
    requires Partitions(a, b, n)
    ensures Partitions(a, b + [n], n + 1)
  {
    forall i, j | 0 <= i < j < |b + [n]| ensures (b + [n])[i] < (b + [n])[j] {
      assert b[i] in b;
    }
  }

  /** `served` are the requests of the payloads in `stored`, in order. */
  ghost predicate RequestsOf(payloads: seq<Option<Request>>, stored: seq<nat>, served: seq<Served>) {
    |served| == |stored| &&
    forall k :: 0 <= k < |stored| ==> stored[k] < |payloads| && payloads[stored[k]] == Some(served[k].r)
  }

  predicate ClosedBadly(t: Turn) {
    t.Call? && t.ending.CloseRaised?
  }

  predicate CutAndKept(t: Turn) {
    t.Call? && t.ending.Cut? && t.ending.kept
  }

  predicate Stores(t: Turn) {
    t.Call? && (t.ending.Committed? || t.ending.CloseRaised?)
  }

  /** The payloads stored are the successes exactly if every session closed well. */
  ghost predicate ListsKept(turns: seq<Turn>, success: seq<nat>, stored: seq<nat>) {
    && (forall k :: k in success ==> k in stored)
    && (stored == success <==> forall t :: t in turns ==> !ClosedBadly(t))
    && |success| <= |stored| && (stored != success ==> |success| < |stored|)
  }

  /** What a command has made of the database so far, unless a call was cancelled and kept. */
  ghost predicate DataKept(bus: Bus, payloads: seq<Option<Request>>, turns: seq<Turn>, stored: seq<nat>, served: seq<Served>, db: DB, committed: DB)
    requires WellFormed(bus)
  {
    (forall t :: t in turns ==> !CutAndKept(t)) ==>
      RequestsOf(payloads, stored, served) && ServeEach(bus, db, served) == Some(committed)
  }

  function Plus(s: seq<nat>, b: bool, i: nat): seq<nat> {
    if b then s + [i] else s
  }

  lemma ListsOneMore(turns: seq<Turn>, success: seq<nat>, stored: seq<nat>, i: nat, t: Turn)
    requires ListsKept(turns, success, stored) && t.Call?
    ensures ListsKept(turns + [t], Plus(success, t.ending.Committed?, i), Plus(stored, Stores(t), i))
  {
    KeptLists(success, stored, i);
    var more := turns + [t];
    assert more[|turns|] == t && forall u :: u in more <==> u in turns || u == t;
    assert (forall u :: u in more ==> !ClosedBadly(u)) <==> (forall u :: u in turns ==> !ClosedBadly(u)) && !ClosedBadly(t);
  }

  lemma DataOneMore(bus: Bus, payloads: seq<Option<Request>>, turns: seq<Turn>, stored: seq<nat>, served: seq<Served>,
                    db: DB, i: nat, t: Turn, s: Sys, s': Sys)
    requires WellFormed(bus) && NotesOnly(s.buffer) && DataKept(bus, payloads, turns, stored, served, db, s.db)
    requires t.Call? && After(bus, s, t) == Some(s') && i < |payloads| && payloads[i] == Some(t.r)
    ensures DataKept(bus, payloads, turns + [t], Plus(stored, Stores(t), i),
                     if Stores(t) then served + [Served(s.request, t.r)] else served, db, s'.db)
  {
    ServeEachAppend(bus, db, served, Served(s.request, t.r));
    AfterStores(bus, s, t, s');
    if forall u :: u in turns + [t] ==> !CutAndKept(u) {
      assert t in turns + [t] && forall u :: u in turns ==> u in turns + [t];
    }
  }

  lemma AfterStores(bus: Bus, s: Sys, t: Turn, s': Sys)
    requires WellFormed(bus) && NotesOnly(s.buffer) && t.Call? && After(bus, s, t) == Some(s')
    ensures Stores(t) ==> ServeOne(bus, s.db, Served(s.request, t.r)) == Some(s'.db)
    ensures !Stores(t) && !CutAndKept(t) ==> s'.db == s.db
  {
  }

  lemma KeptLists(success: seq<nat>, stored: seq<nat>, i: nat)
    requires |success| <= |stored| && (stored != success ==> |success| < |stored|)
    ensures stored + [i] == success + [i] <==> stored == success
    ensures stored + [i] != success
  {
    if stored + [i] == success + [i] { assert |stored| == |success|; }
  }
}
