/** What the broker is told, over whole runs of the service. */
module Outbox {
  import opened Wrappers
  import opened Domain
  import opened Cascade
  import opened Consistency
  import opened Handlers
  import opened Messages
  import opened Notifications
  import opened Tracing
  import opened Turns
  import opened Pushes

  // ---------- safety over runs ----------

  function Elements(ids: seq<Uuid>): set<Uuid> {
    set id | id in ids
  }

  /** Everything sent or waiting to be sent concerns an aggregate that the log voids, or one of
      these. */
  ghost predicate Sendable(s: Sys, lost: set<Uuid>) {
    forall id :: id in IdsSent(s.wire) || Waits(s.buffer, id) ==> id in VoidedIds(s.db.log) || id in lost
  }

  /** What a call pushes that does not commit although its body did not raise. */
  ghost function LostIn(bus: Bus, s: Sys, t: Turn): set<Uuid>
    requires WellFormed(bus)
  {
    if t.FreshContext? then {}
    else
      match t.ending
      case Cut(_, pushed, kept) => if kept then {} else Elements(pushed)
      case CommitRaised =>
        var served := Serve(bus, s.request, s.db, t.r, UNUSED);
        if served.Success? then Elements(served.value.pushed) else {}
      case _ => {}
  }

  /** The pushes of all the calls whose commit raised: their messages stay in the buffer although
      their data was rolled back. */
  ghost function LostPushes(bus: Bus, s: Sys, turns: seq<Turn>): set<Uuid>
    requires WellFormed(bus) && NotesOnly(s.buffer)
  {
    if turns == [] then {}
    else
      var front, last := turns[..|turns| - 1], turns[|turns| - 1];
      LostPushes(bus, s, front) + match AfterAll(bus, s, front) case None => {} case Some(s') => LostIn(bus, s', last)
  }

  predicate CommitFails(t: Turn) {
    t.Call? && (t.ending.CommitRaised? || (t.ending.Cut? && !t.ending.kept))
  }

  /** What a call pushes by the end of its body, or by when it is cut short. */
  ghost predicate PushesIn(bus: Bus, s: Sys, t: Turn, at: DB, pushed: seq<Uuid>)
    requires WellFormed(bus)
  {
    && t.Call? && !t.ending.BodyRaised?
    && if t.ending.Cut? then at == t.ending.at && pushed == t.ending.pushed && MayStopAt(bus, s, t.r, at, pushed)
       else var served := Serve(bus, s.request, s.db, t.r, UNUSED);
            served.Success? && at == served.value.db && pushed == served.value.pushed
  }

  /** The end of the body is a place to stop at, too. */
  lemma PushesInStops(bus: Bus, s: Sys, t: Turn, at: DB, pushed: seq<Uuid>)
    requires WellFormed(bus) && PushesIn(bus, s, t, at, pushed)
    ensures MayStopAt(bus, s, t.r, at, pushed)
  {
    if !t.ending.Cut? {
      PassesEnd(bus, Begin(s.request, s.db, t.r.trace, UNUSED), Dos(Caller, t.r.actions), Serve(bus, s.request, s.db, t.r, UNUSED).value);
    }
  }

  lemma StopsVoided(bus: Bus, s: Sys, r: Request, at: DB, pushed: seq<Uuid>)
    requires WellFormed(bus) && Consistent(s.db, s.request, 0) && MayStopAt(bus, s, r, at, pushed)
    ensures PushedVoided(at, pushed) && s.db.log <= at.log
  {
    var v, tasks := Begin(s.request, s.db, r.trace, UNUSED), Dos(Caller, r.actions);
    LaterConsistent(s.db, s.request, 0, s.request, v.next);
    PassesPushesVoided(bus, v, tasks, at, pushed);
    PassesGrows(bus, v, tasks, at, pushed);
  }

  /** The message buffer and the wire after a turn in which these ids are pushed. */
  ghost predicate Sends(s: Sys, t: Turn, at: DB, pushed: seq<Uuid>, s': Sys)
    requires NotesOnly(s.buffer) && t.Call?
  {
    var b := PushNotes(s.buffer, t.traceContext, pushed);
    && s'.db == (if CommitFails(t) then s.db else at)
    && match t.ending
       case Committed(drain) =>
         && s'.buffer == (if Completes(drain, |Flat(b)|) then [] else Drop(b, PoppedUnder(drain, |Flat(b)|)))
         && s'.wire == s.wire + Flat(b)[..SentUnder(drain, |Flat(b)|)]
       case _ => s'.buffer == b && s'.wire == s.wire
  }

  /** What each turn does, told apart from what its call computes. */
  lemma TurnSends(bus: Bus, s: Sys, t: Turn, s': Sys) returns (at: DB, pushed: seq<Uuid>)
    requires WellFormed(bus) && NotesOnly(s.buffer) && After(bus, s, t) == Some(s')
    requires t.Call? && !t.ending.BodyRaised?
    ensures PushesIn(bus, s, t, at, pushed) && Sends(s, t, at, pushed, s')
  {
    if t.ending.Cut? {
      at, pushed := t.ending.at, t.ending.pushed;
    } else {
      var v := Serve(bus, s.request, s.db, t.r, UNUSED).value;
      at, pushed := v.db, v.pushed;
    }
  }

  lemma TurnSafe(bus: Bus, s: Sys, t: Turn, lost: set<Uuid>, s': Sys)
    requires WellFormed(bus) && NotesOnly(s.buffer) && Consistent(s.db, s.request, 0) && Sendable(s, lost)
    requires After(bus, s, t) == Some(s')
    ensures Sendable(s', lost + LostIn(bus, s, t))
  {
    if t.FreshContext? || t.ending.BodyRaised? {
      assert forall id :: !Waits([], id);
    } else {
      var at, pushed := TurnSends(bus, s, t, s');
      PushesInStops(bus, s, t, at, pushed);
      StopsVoided(bus, s, t.r, at, pushed);
      VoidedStays(s.db.log, at.log);
      assert forall id :: CommitFails(t) && id in pushed ==> id in LostIn(bus, s, t);
      forall id | id in IdsSent(s'.wire) || Waits(s'.buffer, id) ensures id in VoidedIds(s'.db.log) || id in lost + LostIn(bus, s, t) {
        SentOrWaited(s, t, at, pushed, s', id);
      }
    }
  }

  /** Whatever a turn sends or leaves to be sent was sent or waiting before, or is pushed. */
  lemma SentOrWaited(s: Sys, t: Turn, at: DB, pushed: seq<Uuid>, s': Sys, id: Uuid)
    requires NotesOnly(s.buffer) && t.Call? && Sends(s, t, at, pushed, s')
    ensures id in IdsSent(s'.wire) || Waits(s'.buffer, id) ==> id in IdsSent(s.wire) || Waits(s.buffer, id) || id in pushed
  {
    var b := PushNotes(s.buffer, t.traceContext, pushed);
    PushNotesWait(s.buffer, t.traceContext, pushed, id);
    if t.ending.Committed? {
      DrainSplits(b, t.ending.drain, id);
      IdsSentConcat(s.wire, Flat(b)[..SentUnder(t.ending.drain, |Flat(b)|)]);
      assert !Waits([], id);
    }
  }

  /** Outbox safety over whole runs, for every bus: everything ever sent, or still waiting, concerns
      an aggregate that a committed transaction voided, or one that a call pushed whose commit then
      raised. Without commit failures the second kind does not exist, as NothingLost says. */
  lemma {:induction false} OutboxSafe(bus: Bus, s: Sys, turns: seq<Turn>, s': Sys)
    requires WellFormed(bus) && NotesOnly(s.buffer) && Consistent(s.db, s.request, 0) && Sendable(s, {})
    requires AfterAll(bus, s, turns) == Some(s')
    ensures Consistent(s'.db, s'.request, 0) && Sendable(s', LostPushes(bus, s, turns))
    decreases |turns|
  {
    if turns != [] {
      var front, last := turns[..|turns| - 1], turns[|turns| - 1];
      var s1 := AfterAll(bus, s, front).value;
      OutboxSafe(bus, s, front, s1);
      TurnSafe(bus, s1, last, LostPushes(bus, s, front), s');
      TurnKeepsConsistent(bus, s1, last, s');
    }
  }

  /** Without commit failures nothing is lost: all that is ever sent or waiting is voided. */
  lemma {:induction false} NothingLost(bus: Bus, s: Sys, turns: seq<Turn>)
    requires WellFormed(bus) && NotesOnly(s.buffer) && forall t :: t in turns ==> !CommitFails(t)
    ensures LostPushes(bus, s, turns) == {}
    decreases |turns|
  {
    if turns != [] {
      NothingLost(bus, s, turns[..|turns| - 1]);
      assert turns[|turns| - 1] in turns;
    }
  }

  // ---------- exactly once, when nothing fails after the commit ----------

  function Announcement(traceId: string, ids: seq<Uuid>): Message<Uuid> {
    Message(traceId, VOIDED_FUNCTION, ListData(ids), None, 3, 3)
  }

  function Announcing(traceId: string, ids: seq<Uuid>): Buffer<Uuid> {
    [Bucket(ROUTING_KEY, [Entry(Key(Announcement(traceId, ids)), Announcement(traceId, ids))])]
  }

  lemma AnnounceOneMore(traceId: string, ids: seq<Uuid>, id: Uuid)
    ensures Push(Announcing(traceId, ids), Note(traceId, id)) == Success(Announcing(traceId, ids + [id]))
  {
    var m, n := Announcement(traceId, ids), Announcement(traceId, [id]);
    assert Key(m) == Key(n) && EntryAt([Entry(Key(m), m)], Key(n)) == 0;
    var after := Entry(Key(m), Announcement(traceId, ids + [id]));
    assert [Entry(Key(m), m)][0 := after] == [after];
    assert Merge(m, n) == Success(after.message);
    assert PushEntries([Entry(Key(m), m)], n) == Success([after]);
    assert Announcing(traceId, ids)[0 := Bucket(ROUTING_KEY, [after])] == Announcing(traceId, ids + [id]);
  }

  lemma PushNotesAppend(b: Buffer<Uuid>, traceId: string, front: seq<Uuid>, last: Uuid)
    requires NotesOnly(b)
    ensures Success(PushNotes(b, traceId, front + [last])) == Push(PushNotes(b, traceId, front), Note(traceId, last))
  {
    NotePushes(PushNotes(b, traceId, front), traceId, last);
    assert (front + [last])[..|front|] == front;
  }

  /** One call's notifications merge into one message. */
  lemma {:induction false} NotesMerge(traceId: string, ids: seq<Uuid>)
    ensures PushNotes([], traceId, ids) == if ids == [] then [] else Announcing(traceId, ids)
    ensures Announcing(traceId, ids) ==
            [Bucket("your-aggregate-service",
                    [Entry(traceId + "_" + "your_aggregate_voided",
                           Message(traceId, Member("your_aggregate_voided"), ListData(ids), None, 3, 3))])]
    decreases |ids|
  {
    if ids != [] {
      var front, last := ids[..|ids| - 1], ids[|ids| - 1];
      assert front + [last] == ids;
      PushNotesAppend([], traceId, front, last);
      NotesMerge(traceId, front);
      MergeOneMore(traceId, front, last);
    }
  }

  lemma MergeOneMore(traceId: string, front: seq<Uuid>, last: Uuid)
    ensures Push(if front == [] then [] else Announcing(traceId, front), Note(traceId, last)) == Success(Announcing(traceId, front + [last]))
  {
    if front == [] {
      assert [] + [last] == [last];
      AnnounceFirst(traceId, last);
    } else {
      AnnounceOneMore(traceId, front, last);
    }
  }

  lemma AnnounceFirst(traceId: string, id: Uuid)
    ensures Push([], Note(traceId, id)) == Success(Announcing(traceId, [id]))
  {
    assert [] + Announcing(traceId, [id]) == Announcing(traceId, [id]);
  }

  lemma NotesCarryIds(traceId: string, ids: seq<Uuid>)
    ensures IdsSent(Flat(PushNotes([], traceId, ids))) == ids
  {
    NotesFlat(traceId, ids);
    var p := Pushed(ROUTING_KEY, Announcement(traceId, ids));
    assert [p][..0] == [] && IdsSent([]) == [];
  }

  /** A drain that sends and pops everything, whatever the size of the buffer. */
  predicate AlwaysCompletes(f: DrainFault) {
    f.NoFault? || f.AtClose?
  }

  /** If no commit raises and every drain completes, the aggregates announced on the wire are
      exactly the aggregates voided, each once, in the order of the event log. */
  lemma {:induction false} OutboxExact(bus: Bus, s: Sys, turns: seq<Turn>, s': Sys)
    requires Registered(bus)
    requires s.buffer == [] && IdsSent(s.wire) == VoidedIds(s.db.log)
    requires forall t :: t in turns && t.Call? ==> Commands(t.r)
    requires forall t :: t in turns && t.Call? ==> t.ending.BodyRaised? || (t.ending.Committed? && AlwaysCompletes(t.ending.drain))
    requires AfterAll(bus, s, turns) == Some(s')
    ensures s'.buffer == [] && IdsSent(s'.wire) == VoidedIds(s'.db.log)
    decreases |turns|
  {
    if turns != [] {
      var s1 := AfterAll(bus, s, turns[..|turns| - 1]).value;
      OutboxExact(bus, s, turns[..|turns| - 1], s1);
      TurnExact(bus, s1, turns[|turns| - 1], s');
    }
  }

  lemma TurnExact(bus: Bus, s: Sys, t: Turn, s': Sys)
    requires Registered(bus)
    requires s.buffer == [] && IdsSent(s.wire) == VoidedIds(s.db.log)
    requires t.Call? ==> Commands(t.r) && (t.ending.BodyRaised? || (t.ending.Committed? && AlwaysCompletes(t.ending.drain)))
    requires After(bus, s, t) == Some(s')
    ensures s'.buffer == [] && IdsSent(s'.wire) == VoidedIds(s'.db.log)
  {
    if t.Call? && t.ending.Committed? {
      var v := Serve(bus, s.request, s.db, t.r, UNUSED).value;
      ServePushesWhatItVoids(bus, s.request, s.db, t.r, UNUSED, v);
      SettledExact(s, v, t.traceContext, t.ending);
    }
  }

  /** A call that goes well tells the broker, in one message with the trace of its request, of all the
      aggregates that it voids, in the order in which it was asked to; and one that voids nothing tells
      it nothing. */
  lemma CallSendsOneMessage(bus: Bus, s: Sys, t: Turn, s': Sys)
    requires Registered(bus) && s.buffer == [] && After(bus, s, t) == Some(s')
    requires t.Call? && Commands(t.r) && t.ending.Committed? && AlwaysCompletes(t.ending.drain)
    ensures var ids := VoidsOf(t.r.actions);
            s'.wire == s.wire + if ids == [] then []
                                else [Pushed("your-aggregate-service",
                                             Message(t.traceContext, Member("your_aggregate_voided"), ListData(ids), None, 3, 3))]
  {
    var v := Serve(bus, s.request, s.db, t.r, UNUSED).value;
    ServePushesWhatItVoids(bus, s.request, s.db, t.r, UNUSED, v);
    SettledSends(s, v, t.traceContext, t.ending);
    NotesFlat(t.traceContext, v.pushed);
  }

  lemma SettledSends(s: Sys, v: View, traceContext: string, ending: Ending)
    requires s.buffer == [] && ending.Committed? && AlwaysCompletes(ending.drain)
    ensures Settled(s, v, traceContext, ending).wire == s.wire + Flat(PushNotes([], traceContext, v.pushed))
  {
    var flat := Flat(PushNotes([], traceContext, v.pushed));
    assert flat[..|flat|] == flat;
  }

  lemma NotesFlat(traceId: string, ids: seq<Uuid>)
    ensures Flat(PushNotes([], traceId, ids)) == if ids == [] then [] else [Pushed(ROUTING_KEY, Announcement(traceId, ids))]
  {
    NotesMerge(traceId, ids);
    if ids != [] {
      var b := PushNotes([], traceId, ids);
      FlatOne(b[0]);
      assert Flat(b) == [FlatBucket(b[0], 0)[0]];
    }
  }

  lemma SettledExact(s: Sys, v: View, traceContext: string, ending: Ending)
    requires s.buffer == [] && ending.Committed? && AlwaysCompletes(ending.drain)
    ensures var s' := Settled(s, v, traceContext, ending);
            s'.buffer == [] && s'.db == v.db && IdsSent(s'.wire) == IdsSent(s.wire) + v.pushed
  {
    NotesCarryIds(traceContext, v.pushed);
    var flat := Flat(PushNotes([], traceContext, v.pushed));
    IdsSentConcat(s.wire, flat);
    assert flat[..|flat|] == flat;
  }
}
