/** When the broker is told what it should not be told, and when it is never told what it should:
    exactly, and with runs in which it happens. */
module Announcing {
  import opened Wrappers
  import opened Domain
  import opened Cascade
  import opened Consistency
  import opened Handlers
  import opened Messages
  import opened Notifications
  import opened Turns
  import opened Pushes
  import opened Outbox

  // ---------- announcing what is not voided ----------

  /** For every bus, a drain that completes announces voided aggregates only, exactly if every id that
      was waiting before the call is voided after it. */
  lemma AnnouncesVoidedIff(bus: Bus, s: Sys, t: Turn, s': Sys)
    requires WellFormed(bus) && NotesOnly(s.buffer) && Consistent(s.db, s.request, 0)
    requires After(bus, s, t) == Some(s') && t.Call? && t.ending.Committed? && AlwaysCompletes(t.ending.drain)
    ensures s.wire <= s'.wire
    ensures (forall id :: id in IdsSent(s'.wire[|s.wire|..]) ==> id in VoidedIds(s'.db.log))
       <==> (forall id :: Waits(s.buffer, id) ==> id in VoidedIds(s'.db.log))
  {
    var at, pushed := TurnSends(bus, s, t, s');
    PushesInStops(bus, s, t, at, pushed);
    StopsVoided(bus, s, t.r, at, pushed);
    forall id ensures id in IdsSent(s'.wire[|s.wire|..]) <==> Waits(s.buffer, id) || id in pushed {
      AnnouncedByAll(s, t, at, pushed, s', id);
    }
  }

  /** With the registered handlers, it does exactly if before the call every id that was waiting is of
      an aggregate that is voided already, or that the call is asked to void. */
  lemma AnnouncesOnlyVoidedIff(bus: Bus, s: Sys, t: Turn, s': Sys)
    requires Registered(bus) && NotesOnly(s.buffer) && Consistent(s.db, s.request, 0)
    requires After(bus, s, t) == Some(s') && t.Call? && t.ending.Committed? && AlwaysCompletes(t.ending.drain)
    requires Commands(t.r)
    ensures s.wire <= s'.wire
    ensures (forall id :: id in IdsSent(s'.wire[|s.wire|..]) ==> id in VoidedIds(s'.db.log))
       <==> (forall id :: Waits(s.buffer, id) ==> id in VoidedIds(s.db.log) || id in VoidsOf(t.r.actions))
  {
    AnnouncesVoidedIff(bus, s, t, s');
    ServePushesWhatItVoids(bus, s.request, s.db, t.r, UNUSED, Serve(bus, s.request, s.db, t.r, UNUSED).value);
  }

  lemma AnnouncedByAll(s: Sys, t: Turn, at: DB, pushed: seq<Uuid>, s': Sys, id: Uuid)
    requires NotesOnly(s.buffer) && t.Call? && t.ending.Committed? && AlwaysCompletes(t.ending.drain)
    requires Sends(s, t, at, pushed, s')
    ensures s.wire <= s'.wire && (id in IdsSent(s'.wire[|s.wire|..]) <==> Waits(s.buffer, id) || id in pushed)
  {
    var b := PushNotes(s.buffer, t.traceContext, pushed);
    assert Flat(b)[..|Flat(b)|] == Flat(b) && s'.wire[|s.wire|..] == Flat(b);
    FlatHas(b, id);
    PushNotesWait(s.buffer, t.traceContext, pushed, id);
  }

  // ---------- what becomes of an id that waits ----------

  /** A turn after which nothing waits that was not sent. */
  predicate Clears(t: Turn) {
    t.FreshContext? || t.ending.BodyRaised?
  }

  /** A turn whose drain gets as far as this id. */
  ghost predicate SendsNow(bus: Bus, s: Sys, t: Turn, id: Uuid)
    requires WellFormed(bus) && NotesOnly(s.buffer)
  {
    && t.Call? && t.ending.Committed?
    && var served := Serve(bus, s.request, s.db, t.r, UNUSED);
    && served.Success?
    && var flat := Flat(PushNotes(s.buffer, t.traceContext, served.value.pushed));
    && id in IdsSent(flat[..SentUnder(t.ending.drain, |flat|)])
  }

  /** An id that a turn does not push itself is sent, cleared, or goes on waiting. */
  lemma TurnFate(bus: Bus, s: Sys, t: Turn, id: Uuid, s': Sys)
    requires WellFormed(bus) && NotesOnly(s.buffer) && After(bus, s, t) == Some(s')
    requires forall at, pushed :: PushesIn(bus, s, t, at, pushed) ==> id !in pushed
    ensures id in IdsSent(s'.wire) <==> id in IdsSent(s.wire) || SendsNow(bus, s, t, id)
    ensures SendsNow(bus, s, t, id) ==> Waits(s.buffer, id)
    ensures Waits(s'.buffer, id) ==> Waits(s.buffer, id) && !Clears(t)
    ensures Waits(s.buffer, id) && !Clears(t) ==> SendsNow(bus, s, t, id) || Waits(s'.buffer, id)
    ensures Waits(s.buffer, id) && t.Call? && t.ending.Committed? && AlwaysCompletes(t.ending.drain) ==> SendsNow(bus, s, t, id)
  {
    if Clears(t) {
      assert !Waits([], id);
    } else {
      var at, pushed := TurnSends(bus, s, t, s');
      SendsFate(s, t, at, pushed, s', id);
    }
  }

  lemma SendsFate(s: Sys, t: Turn, at: DB, pushed: seq<Uuid>, s': Sys, id: Uuid)
    requires NotesOnly(s.buffer) && t.Call? && !t.ending.BodyRaised? && Sends(s, t, at, pushed, s') && id !in pushed
    ensures if t.ending.Committed? then
              var flat := Flat(PushNotes(s.buffer, t.traceContext, pushed));
              var now := id in IdsSent(flat[..SentUnder(t.ending.drain, |flat|)]);
              && (id in IdsSent(s'.wire) <==> id in IdsSent(s.wire) || now)
              && (now ==> Waits(s.buffer, id)) && (Waits(s'.buffer, id) ==> Waits(s.buffer, id))
              && (Waits(s.buffer, id) ==> now || Waits(s'.buffer, id))
              && (Waits(s.buffer, id) && AlwaysCompletes(t.ending.drain) ==> now)
            else s'.wire == s.wire && (Waits(s'.buffer, id) <==> Waits(s.buffer, id))
  {
    var b := PushNotes(s.buffer, t.traceContext, pushed);
    PushNotesWait(s.buffer, t.traceContext, pushed, id);
    if t.ending.Committed? {
      DrainSplits(b, t.ending.drain, id);
      IdsSentConcat(s.wire, Flat(b)[..SentUnder(t.ending.drain, |Flat(b)|)]);
      assert !Waits([], id);
    }
  }

  // ---------- over runs ----------

  /** No call pushes an aggregate that is voided already. */
  lemma NeverPushedAgain(bus: Bus, s: Sys, t: Turn, id: Uuid, at: DB, pushed: seq<Uuid>)
    requires Registered(bus) && Consistent(s.db, s.request, 0) && id in VoidedIds(s.db.log)
    requires t.Call? ==> Commands(t.r)
    requires PushesIn(bus, s, t, at, pushed)
    ensures id !in pushed
  {
    var v, tasks := Begin(s.request, s.db, t.r.trace, UNUSED), Dos(Caller, t.r.actions);
    PushesInStops(bus, s, t, at, pushed);
    assert s.db.log[|s.db.log|..] == [];
    forall x | x in tasks ensures SetOffSince(v.db.log, |v.db.log|, x) {
      assert x.action in t.r.actions;
    }
    PassesPushesNew(bus, v, tasks, |s.db.log|, at, pushed);
    LaterConsistent(s.db, s.request, 0, s.request, v.next);
    PassesConsistent(bus, v, tasks, at, pushed);
    OldIsNotNew(s.db.log, at.log, id);
  }

  lemma OldIsNotNew(log: seq<Event>, log': seq<Event>, id: Uuid)
    requires log <= log' && (forall x :: Replay(x, log') != Stuck) && id in VoidedIds(log)
    ensures id !in VoidedIds(log'[|log|..])
  {
    var old_, new_ := VoidedIds(log), VoidedIds(log'[|log|..]);
    VoidedIdsDistinct(log');
    VoidedIdsConcat(log, log'[|log|..]);
    assert log' == log + log'[|log|..];
    forall i, j | 0 <= i < |old_| && 0 <= j < |new_| ensures old_[i] != new_[j] {
      assert (old_ + new_)[i] == old_[i] && (old_ + new_)[|old_| + j] == new_[j];
    }
  }

  /** A turn of the run gets as far as sending the id, and none before it clears the buffer. */
  ghost predicate SentBy(bus: Bus, s: Sys, turns: seq<Turn>, id: Uuid)
    requires WellFormed(bus) && NotesOnly(s.buffer)
  {
    exists i :: 0 <= i < |turns| && SentAt(bus, s, turns, i, id)
  }

  ghost predicate SentAt(bus: Bus, s: Sys, turns: seq<Turn>, i: nat, id: Uuid)
    requires WellFormed(bus) && NotesOnly(s.buffer) && i < |turns|
  {
    && (forall j :: 0 <= j < i ==> !Clears(turns[j]))
    && AfterAll(bus, s, turns[..i]).Some? && SendsNow(bus, AfterAll(bus, s, turns[..i]).value, turns[i], id)
  }

  lemma SentByLast(bus: Bus, s: Sys, turns: seq<Turn>, id: Uuid)
    requires WellFormed(bus) && NotesOnly(s.buffer) && turns != []
    ensures var n := |turns| - 1;
            SentBy(bus, s, turns, id) <==> SentBy(bus, s, turns[..n], id) || SentAt(bus, s, turns, n, id)
  {
    var n := |turns| - 1;
    forall i | 0 <= i < n ensures SentAt(bus, s, turns, i, id) <==> SentAt(bus, s, turns[..n], i, id) {
      assert turns[..n][..i] == turns[..i];
      assert forall j :: 0 <= j <= i ==> turns[..n][j] == turns[j];
    }
  }

  /** What a run has made of the announcement of a voided aggregate. */
  ghost predicate Fate(bus: Bus, s: Sys, turns: seq<Turn>, id: Uuid, s': Sys)
    requires WellFormed(bus) && NotesOnly(s.buffer)
  {
    && (id in IdsSent(s'.wire) <==> SentBy(bus, s, turns, id))
    && (SentBy(bus, s, turns, id) ==> Waits(s.buffer, id))
    && (Waits(s'.buffer, id) ==> Waits(s.buffer, id) && forall t :: t in turns ==> !Clears(t))
    && (Waits(s.buffer, id) && (forall t :: t in turns ==> !Clears(t)) ==> SentBy(bus, s, turns, id) || Waits(s'.buffer, id))
  }

  lemma FateNext(bus: Bus, s: Sys, turns: seq<Turn>, t: Turn, id: Uuid, s1: Sys, s': Sys)
    requires WellFormed(bus) && NotesOnly(s.buffer) && AfterAll(bus, s, turns) == Some(s1) && After(bus, s1, t) == Some(s')
    requires Fate(bus, s, turns, id, s1) && forall at, pushed :: PushesIn(bus, s1, t, at, pushed) ==> id !in pushed
    ensures Fate(bus, s, turns + [t], id, s')
  {
    var all, n := turns + [t], |turns|;
    assert all[..n] == turns && all[n] == t;
    TurnFate(bus, s1, t, id, s');
    SentByLast(bus, s, all, id);
    assert forall u :: u in all <==> u in turns || u == t;
    assert (forall j :: 0 <= j < n ==> !Clears(all[j])) <==> forall u :: u in turns ==> !Clears(u);
    assert SentAt(bus, s, all, n, id) <==> (forall u :: u in turns ==> !Clears(u)) && SendsNow(bus, s1, t, id);
  }

  /** One more turn, for an aggregate that is voided already. */
  lemma VoidedNext(bus: Bus, s: Sys, turns: seq<Turn>, t: Turn, id: Uuid, s1: Sys, s': Sys)
    requires Registered(bus) && NotesOnly(s.buffer) && AfterAll(bus, s, turns) == Some(s1) && After(bus, s1, t) == Some(s')
    requires Fate(bus, s, turns, id, s1) && Consistent(s1.db, s1.request, 0) && id in VoidedIds(s1.db.log)
    requires t.Call? ==> Commands(t.r)
    ensures Fate(bus, s, turns + [t], id, s') && Consistent(s'.db, s'.request, 0) && id in VoidedIds(s'.db.log)
  {
    forall at, pushed | PushesIn(bus, s1, t, at, pushed) ensures id !in pushed {
      NeverPushedAgain(bus, s1, t, id, at, pushed);
    }
    FateNext(bus, s, turns, t, id, s1, s');
    TurnKeepsConsistent(bus, s1, t, s');
    VoidedStaysAfter(bus, s1, t, id, s');
  }

  /** A committed voiding that has not been announced is announced in the course of a run exactly
      if a drain of the run gets as far as its message before a call raises or a fresh context
      begins. */
  lemma {:induction false} VoidAnnouncedIff(bus: Bus, s: Sys, turns: seq<Turn>, id: Uuid, s': Sys)
    requires Registered(bus) && NotesOnly(s.buffer) && Consistent(s.db, s.request, 0)
    requires id in VoidedIds(s.db.log) && id !in IdsSent(s.wire)
    requires forall t :: t in turns && t.Call? ==> Commands(t.r)
    requires AfterAll(bus, s, turns) == Some(s')
    ensures id in IdsSent(s'.wire) <==> SentBy(bus, s, turns, id)
    ensures Fate(bus, s, turns, id, s') && Consistent(s'.db, s'.request, 0) && id in VoidedIds(s'.db.log)
    decreases |turns|
  {
    if turns == [] {
      FateNone(bus, s, id);
    } else {
      var front, last := turns[..|turns| - 1], turns[|turns| - 1];
      LastTurn(turns);
      AfterAllAppend(bus, s, front, last);
      var s1 := AfterAll(bus, s, front).value;
      VoidAnnouncedIff(bus, s, front, id, s1);
      VoidedNext(bus, s, front, last, id, s1, s');
    }
  }

  lemma FateNone(bus: Bus, s: Sys, id: Uuid)
    requires WellFormed(bus) && NotesOnly(s.buffer) && id !in IdsSent(s.wire)
    ensures Fate(bus, s, [], id, s)
  {
  }

  lemma VoidedStaysAfter(bus: Bus, s: Sys, t: Turn, id: Uuid, s': Sys)
    requires WellFormed(bus) && NotesOnly(s.buffer) && Consistent(s.db, s.request, 0) && After(bus, s, t) == Some(s')
    requires id in VoidedIds(s.db.log)
    ensures id in VoidedIds(s'.db.log)
  {
    if !Clears(t) {
      var at, pushed := TurnSends(bus, s, t, s');
      PushesInStops(bus, s, t, at, pushed);
      StopsVoided(bus, s, t.r, at, pushed);
      VoidedStays(s.db.log, at.log);
    }
  }

  // ---------- when drains send everything or nothing ----------

  predicate SendsAll(t: Turn) {
    t.Call? && t.ending.Committed? && AlwaysCompletes(t.ending.drain)
  }

  /** A drain that does not send everything did not even connect. */
  predicate AllOrNothing(t: Turn) {
    t.Call? && t.ending.Committed? ==> AlwaysCompletes(t.ending.drain) || t.ending.drain.AtConnect?
  }

  /** A turn that sends comes before any that clears. */
  predicate SendsBeforeClearing(turns: seq<Turn>) {
    exists i :: 0 <= i < |turns| && SendsAll(turns[i]) && forall j :: 0 <= j < i ==> !Clears(turns[j])
  }

  /** When drains send everything or nothing: a committed voiding whose message is waiting stays
      unannounced exactly if no sending turn comes before the next raising call or fresh context. */
  lemma VoidUnannouncedIff(bus: Bus, s: Sys, turns: seq<Turn>, id: Uuid, s': Sys)
    requires Registered(bus) && NotesOnly(s.buffer) && Consistent(s.db, s.request, 0)
    requires id in VoidedIds(s.db.log) && id !in IdsSent(s.wire) && Waits(s.buffer, id)
    requires forall t :: t in turns ==> AllOrNothing(t) && (t.Call? ==> Commands(t.r))
    requires AfterAll(bus, s, turns) == Some(s')
    ensures id !in IdsSent(s'.wire) <==> !SendsBeforeClearing(turns)
  {
    VoidAnnouncedIff(bus, s, turns, id, s');
    if i :| 0 <= i < |turns| && SentAt(bus, s, turns, i, id) {
      assert turns[i] in turns;
      SendsNowIsAll(bus, AfterAll(bus, s, turns[..i]).value, turns[i], id);
    }
    if i :| 0 <= i < |turns| && SendsAll(turns[i]) && forall j :: 0 <= j < i ==> !Clears(turns[j]) {
      SentUpTo(bus, s, turns, i, id);
    }
  }

  lemma SendsNowIsAll(bus: Bus, s: Sys, t: Turn, id: Uuid)
    requires WellFormed(bus) && NotesOnly(s.buffer) && SendsNow(bus, s, t, id) && AllOrNothing(t)
    ensures SendsAll(t)
  {
    var flat := Flat(PushNotes(s.buffer, t.traceContext, Serve(bus, s.request, s.db, t.r, UNUSED).value.pushed));
    assert flat[..0] == [] && IdsSent([]) == [];
  }

  /** By a turn that sends everything, with none before it that clears, the id is sent. */
  lemma {:induction false} SentUpTo(bus: Bus, s: Sys, turns: seq<Turn>, i: nat, id: Uuid)
    requires Registered(bus) && NotesOnly(s.buffer) && Consistent(s.db, s.request, 0)
    requires id in VoidedIds(s.db.log) && id !in IdsSent(s.wire) && Waits(s.buffer, id)
    requires forall t :: t in turns && t.Call? ==> Commands(t.r)
    requires AfterAll(bus, s, turns).Some?
    requires i < |turns| && SendsAll(turns[i]) && forall j :: 0 <= j < i ==> !Clears(turns[j])
    ensures SentBy(bus, s, turns, id)
    decreases |turns|
  {
    var n := |turns| - 1;
    FrontTurns(turns);
    if i < n {
      SentUpTo(bus, s, turns[..n], i, id);
      SentEarlier(bus, s, turns, n, id);
    } else {
      LastTurn(turns);
      SentHere(bus, s, turns[..n], turns[n], id, AfterAll(bus, s, turns[..n]).value);
    }
  }

  lemma FrontTurns(turns: seq<Turn>)
    requires turns != []
    ensures forall j :: 0 <= j < |turns| - 1 ==> turns[..|turns| - 1][j] == turns[j]
    ensures forall t :: t in turns[..|turns| - 1] ==> t in turns
  {
  }

  lemma LastTurn(turns: seq<Turn>)
    requires turns != []
    ensures turns[..|turns| - 1] + [turns[|turns| - 1]] == turns
  {
  }

  lemma SentHere(bus: Bus, s: Sys, front: seq<Turn>, t: Turn, id: Uuid, s1: Sys)
    requires Registered(bus) && NotesOnly(s.buffer) && Consistent(s.db, s.request, 0)
    requires id in VoidedIds(s.db.log) && id !in IdsSent(s.wire) && Waits(s.buffer, id)
    requires forall u :: u in front ==> !Clears(u) && (u.Call? ==> Commands(u.r))
    requires AfterAll(bus, s, front) == Some(s1) && After(bus, s1, t).Some? && SendsAll(t)
    ensures SentBy(bus, s, front + [t], id)
  {
    VoidAnnouncedIff(bus, s, front, id, s1);
    if SentBy(bus, s, front, id) {
      assert (front + [t])[..|front|] == front;
      SentEarlier(bus, s, front + [t], |front|, id);
    } else {
      SendsAllNow(bus, s1, t, id);
      SentLast(bus, s, front, t, id, s1);
    }
  }

  lemma SentLast(bus: Bus, s: Sys, front: seq<Turn>, t: Turn, id: Uuid, s1: Sys)
    requires WellFormed(bus) && NotesOnly(s.buffer) && AfterAll(bus, s, front) == Some(s1)
    requires SendsNow(bus, s1, t, id) && forall u :: u in front ==> !Clears(u)
    ensures SentBy(bus, s, front + [t], id)
  {
    var all := front + [t];
    assert all[..|front|] == front && all[|front|] == t;
    assert SentAt(bus, s, all, |front|, id);
  }

  lemma SentEarlier(bus: Bus, s: Sys, turns: seq<Turn>, i: nat, id: Uuid)
    requires WellFormed(bus) && NotesOnly(s.buffer) && i <= |turns| && SentBy(bus, s, turns[..i], id)
    ensures SentBy(bus, s, turns, id)
  {
    var k :| 0 <= k < i && SentAt(bus, s, turns[..i], k, id);
    PrefixOfPrefix(turns, i, k);
    assert SentAt(bus, s, turns, k, id);
  }

  lemma PrefixOfPrefix(turns: seq<Turn>, i: nat, k: nat)
    requires k < i <= |turns|
    ensures turns[..i][..k] == turns[..k] && forall j :: 0 <= j <= k ==> turns[..i][j] == turns[j]
  {
  }

  lemma SendsAllNow(bus: Bus, s: Sys, t: Turn, id: Uuid)
    requires WellFormed(bus) && NotesOnly(s.buffer) && After(bus, s, t).Some? && SendsAll(t) && Waits(s.buffer, id)
    ensures SendsNow(bus, s, t, id)
  {
    var v := Serve(bus, s.request, s.db, t.r, UNUSED).value;
    var b := PushNotes(s.buffer, t.traceContext, v.pushed);
    PushNotesWait(s.buffer, t.traceContext, v.pushed, id);
    FlatHas(b, id);
    assert Flat(b)[..|Flat(b)|] == Flat(b);
  }

  // ---------- runs in which it goes wrong ----------

  function OneVoid(id: Uuid, doer: User): Request {
    Request([Void(id, doer)], None, None)
  }

  lemma ServeVoid(bus: Bus, request: nat, db: DB, id: Uuid, doer: User) returns (v': View)
    requires Registered(bus) && id in db.rows && db.rows[id].status == StatusCreated
    ensures Serve(bus, request, db, OneVoid(id, doer), UNUSED) == Success(v')
    ensures v'.pushed == [id] && id in VoidedIds(v'.db.log)
  {
    var v := Begin(request, db, None, UNUSED);
    assert Dos(Caller, [Void(id, doer)]) == [Do(Caller, Void(id, doer))];
    VoidOutcome(bus, v, id, doer);
    v' := Run(bus, v, [Do(Caller, Void(id, doer))]).value;
    VoidedIdsMention(v'.db.log, id);
    assert v'.db.log[|db.log|].body == Voided(id, doer);
  }

  lemma ServeUpdate(bus: Bus, request: nat, db: DB, id: Uuid, vo: ValueObject, doer: User) returns (v': View)
    requires Registered(bus) && id in db.rows && db.rows[id].status == StatusCreated
    ensures Serve(bus, request, db, Request([Update(id, vo, doer)], None, None), UNUSED) == Success(v')
    ensures v'.pushed == [] && id in v'.db.rows && v'.db.rows[id].status == StatusCreated
  {
    var v := Begin(request, db, None, UNUSED);
    assert Dos(Caller, [Update(id, vo, doer)]) == [Do(Caller, Update(id, vo, doer))];
    QuietOutcome(bus, v, Caller, Update(id, vo, doer));
    v' := Run(bus, v, [Do(Caller, Update(id, vo, doer))]).value;
  }

  lemma AfterTwo(bus: Bus, s: Sys, t: Turn, u: Turn, s1: Sys, s2: Sys)
    requires WellFormed(bus) && NotesOnly(s.buffer)
    requires After(bus, s, t) == Some(s1) && After(bus, s1, u) == Some(s2)
    ensures AfterAll(bus, s, [t, u]) == Some(s2)
  {
    AfterAllAppend(bus, s, [], t);
    assert [] + [t] == [t];
    assert AfterAll(bus, s, [t]) == Some(s1);
    AfterAllAppend(bus, s, [t], u);
    assert [t] + [u] == [t, u];
  }

  /** A failed commit leaks: the void is rolled back, its message is not, and the next call that
      commits announces an aggregate that is not voided. */
  lemma FailedCommitLeaks(bus: Bus, s: Sys, id: Uuid, doer: User, vo: ValueObject, context: string) returns (s': Sys)
    requires Registered(bus) && s.buffer == [] && s.wire == []
    requires id in s.db.rows && s.db.rows[id].status == StatusCreated
    ensures AfterAll(bus, s, [Call(OneVoid(id, doer), context, CommitRaised),
                              Call(Request([Update(id, vo, doer)], None, None), context, Committed(NoFault))]) == Some(s')
    ensures IdsSent(s'.wire) == [id] && id in s'.db.rows && s'.db.rows[id].status == StatusCreated
  {
    var void, update := Call(OneVoid(id, doer), context, CommitRaised), Call(Request([Update(id, vo, doer)], None, None), context, Committed(NoFault));
    var s1 := s.(buffer := PushNotes([], context, [id]), request := s.request + 1);
    FailedVoid(bus, s, id, doer, context);
    s' := UpdateSendsLeftover(bus, s1, id, doer, vo, context);
    AfterTwo(bus, s, void, update, s1, s');
  }

  lemma FailedVoid(bus: Bus, s: Sys, id: Uuid, doer: User, context: string)
    requires Registered(bus) && s.buffer == [] && id in s.db.rows && s.db.rows[id].status == StatusCreated
    ensures After(bus, s, Call(OneVoid(id, doer), context, CommitRaised)) == Some(s.(buffer := PushNotes([], context, [id]), request := s.request + 1))
  {
    var v := ServeVoid(bus, s.request, s.db, id, doer);
    TurnSettles(bus, s, Call(OneVoid(id, doer), context, CommitRaised), v);
  }

  lemma UpdateSendsLeftover(bus: Bus, s: Sys, id: Uuid, doer: User, vo: ValueObject, context: string) returns (s': Sys)
    requires Registered(bus) && s.buffer == PushNotes([], context, [id]) && s.wire == []
    requires id in s.db.rows && s.db.rows[id].status == StatusCreated
    ensures After(bus, s, Call(Request([Update(id, vo, doer)], None, None), context, Committed(NoFault))) == Some(s')
    ensures IdsSent(s'.wire) == [id] && id in s'.db.rows && s'.db.rows[id].status == StatusCreated
  {
    var w := ServeUpdate(bus, s.request, s.db, id, vo, doer);
    TurnSettles(bus, s, Call(Request([Update(id, vo, doer)], None, None), context, Committed(NoFault)), w);
    s' := Settled(s, w, context, Committed(NoFault));
    LeftoverSent(s, w, context, id);
  }

  lemma LeftoverSent(s: Sys, w: View, context: string, id: Uuid)
    requires s.buffer == PushNotes([], context, [id]) && s.wire == [] && w.pushed == []
    ensures IdsSent(Settled(s, w, context, Committed(NoFault)).wire) == [id]
  {
    NotesCarryIds(context, [id]);
    assert Flat(s.buffer)[..|Flat(s.buffer)|] == Flat(s.buffer);
    assert Settled(s, w, context, Committed(NoFault)).wire == Flat(s.buffer);
  }

  lemma TurnSettles(bus: Bus, s: Sys, t: Turn, v: View)
    requires WellFormed(bus) && NotesOnly(s.buffer) && t.Call? && !t.ending.BodyRaised? && !t.ending.Cut?
    requires Serve(bus, s.request, s.db, t.r, UNUSED) == Success(v)
    ensures After(bus, s, t) == Some(Settled(s, v, t.traceContext, t.ending))
  {
  }

  /** A later failure forgets, and so does a new request context: a void whose drain failed is
      committed but never announced. */
  lemma LaterTurnForgets(bus: Bus, s: Sys, id: Uuid, doer: User, context: string, clearing: Turn) returns (s': Sys)
    requires Registered(bus) && s.buffer == [] && s.wire == [] && Clears(clearing)
    requires id in s.db.rows && s.db.rows[id].status == StatusCreated
    ensures AfterAll(bus, s, [Call(OneVoid(id, doer), context, Committed(AtConnect)), clearing]) == Some(s')
    ensures s'.wire == [] && s'.buffer == [] && id in VoidedIds(s'.db.log)
  {
    var void := Call(OneVoid(id, doer), context, Committed(AtConnect));
    var v := ServeVoid(bus, s.request, s.db, id, doer);
    var s1 := After(bus, s, void).value;
    s' := After(bus, s1, clearing).value;
    AfterTwo(bus, s, void, clearing, s1, s');
  }

  function OneCreate(vo: ValueObject, doer: User): Request {
    Request([Create(vo, doer)], None, None)
  }

  /** A cancelled call may commit half of its work: a creation without the update that its handler
      makes in the same transaction. */
  lemma CancelledCreateKeepsHalf(bus: Bus, s: Sys, vo: ValueObject, doer: User, context: string) returns (at: DB, s': Sys)
    requires Registered(bus) && NotesOnly(s.buffer) && Consistent(s.db, s.request, 0)
    ensures After(bus, s, Call(OneCreate(vo, doer), context, Cut(at, [], true))) == Some(s') && s'.db == at
    ensures |at.log| == |s.db.log| + 1
    ensures at.rows == s.db.rows[Uuid(s.request, 1) := Row(vo, StatusCreated, [History(HistoryCreated, [], doer)], doer)]
    ensures var served := Serve(bus, s.request, s.db, OneCreate(vo, doer), UNUSED);
            served.Success? && |served.value.db.log| == |s.db.log| + 2
  {
    var v, create := Begin(s.request, s.db, None, UNUSED), Create(vo, doer);
    assert Dos(Caller, [create]) == [Do(Caller, create)];
    NotYetDrawn(s.db, s.request, v.Fresh());
    CreateOutcome(bus, v, vo, doer);
    var (v1, e) := Execute(v, Caller, create).value;
    at := v1.db;
    assert Passes(bus, v1, Deliveries(bus, e), at, []);
    PassesChildren(bus, v, Do(Caller, create), at, []);
    s' := After(bus, s, Call(OneCreate(vo, doer), context, Cut(at, [], true))).value;
  }

  lemma NotYetDrawn(db: DB, request: nat, id: Uuid)
    requires Consistent(db, request, 0) && id.request == request
    ensures id !in db.rows
  {
    if id in db.rows { RowsAreOlder(db, request, 0, id); }
  }

}
