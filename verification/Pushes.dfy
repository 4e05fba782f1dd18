/** The ids of aggregates that a call voids, and those that it pushes for the broker to be told. */
module Pushes {
  import opened Wrappers
  import opened Domain
  import opened Cascade
  import opened Consistency
  import opened Handlers
  import opened Tracing

  /** The ids of the aggregates that a log voids, in order. */
  function VoidedIds(log: seq<Event>): seq<Uuid> {
    if log == [] then []
    else VoidedIds(log[..|log| - 1]) + if log[|log| - 1].body.Voided? then [log[|log| - 1].body.id] else []
  }

  lemma VoidedIdsAppend(log: seq<Event>, e: Event)
    ensures VoidedIds(log + [e]) == VoidedIds(log) + if e.body.Voided? then [e.body.id] else []
  {
    assert (log + [e])[..|log|] == log;
  }

  lemma {:induction false} VoidedIdsConcat(a: seq<Event>, b: seq<Event>)
    ensures VoidedIds(a + b) == VoidedIds(a) + VoidedIds(b)
  {
    if b == [] {
      assert a + b == a;
    } else {
      assert (a + b)[..|a + b| - 1] == a + b[..|b| - 1];
      VoidedIdsConcat(a, b[..|b| - 1]);
    }
  }

  lemma {:induction false} VoidedIdsMention(log: seq<Event>, id: Uuid)
    ensures id in VoidedIds(log) <==> exists i :: 0 <= i < |log| && log[i].body.id == id && log[i].body.Voided?
  {
    if log != [] {
      var front := log[..|log| - 1];
      VoidedIdsMention(front, id);
      assert forall i :: 0 <= i < |log| ==> log[i] == if i < |front| then front[i] else log[|log| - 1];
    }
  }

  /** A log whose every aggregate lives a proper life notifies each at most once: so no two
      transactions ever void, and announce, the same aggregate. */
  lemma {:induction false} VoidedIdsDistinct(log: seq<Event>)
    requires forall id :: Replay(id, log) != Stuck
    ensures forall i, j :: 0 <= i < j < |VoidedIds(log)| ==> VoidedIds(log)[i] != VoidedIds(log)[j]
  {
    if log != [] {
      var front, last := log[..|log| - 1], log[|log| - 1];
      forall id ensures Replay(id, front) != Stuck {
        assert Replay(id, log) != Stuck;
      }
      VoidedIdsDistinct(front);
      if last.body.Voided? {
        VoidedOnce(last.body.id, front);
        VoidedIdsMention(front, last.body.id);
        assert Replay(last.body.id, log) != Stuck;
        assert last.body.id !in VoidedIds(front);
      }
    }
  }

  // ---------- one call pushes what it voids ----------

  /** What a log gained since `before`. */
  function Gained(before: seq<Event>, after: seq<Event>): seq<Event>
    requires before <= after
  {
    after[|before|..]
  }

  lemma CommandPushes(bus: Bus, v: View, a: Action, v': View)
    requires Registered(bus) && !a.Notify?
    requires Run(bus, v, [Do(Caller, a)]) == Success(v')
    ensures PushesGain(v, v') && v'.pushed == v.pushed + VoidsOf([a])
  {
    assert [a][1..] == [] && VoidsOf([a]) == if a.Void? then [a.id] else [];
    match a
    case Create(vo, doer) => CreatePushes(bus, v, vo, doer, v');
    case Void(id, doer) => VoidPushes(bus, v, id, doer, v');
    case _ => QuietPushes(bus, v, Caller, a, v');
  }

  /** The aggregates that a batch asks to void, in order. */
  function VoidsOf(actions: seq<Action>): (ids: seq<Uuid>)
    ensures forall id :: id in ids <==> exists i :: 0 <= i < |actions| && actions[i].Void? && actions[i].id == id
  {
    if actions == [] then []
    else
      assert forall i :: 1 <= i < |actions| ==> actions[i] == actions[1..][i - 1];
      (if actions[0].Void? then [actions[0].id] else []) + VoidsOf(actions[1..])
  }

  lemma VoidPushes(bus: Bus, v: View, id: Uuid, doer: User, v': View)
    requires Registered(bus) && Run(bus, v, [Do(Caller, Void(id, doer))]) == Success(v')
    ensures PushesGain(v, v') && v'.pushed == v.pushed + [id]
  {
    VoidOutcome(bus, v, id, doer);
    ExecutePushesNothing(v, Caller, Void(id, doer));
    GainOfOne(v.db.log, Execute(v, Caller, Void(id, doer)).value.1);
  }

  lemma QuietPushes(bus: Bus, v: View, who: Who, a: Action, v': View)
    requires Registered(bus) && (a.Update? || a.Delete?) && Run(bus, v, [Do(who, a)]) == Success(v')
    ensures PushesGain(v, v') && v'.pushed == v.pushed
  {
    QuietOutcome(bus, v, who, a);
    ExecutePushesNothing(v, who, a);
    GainOfOne(v.db.log, Execute(v, who, a).value.1);
  }

  lemma GainOfOne(log: seq<Event>, e: Event)
    ensures VoidedIds(Gained(log, log + [e])) == if e.body.Voided? then [e.body.id] else []
  {
    assert Gained(log, log + [e]) == [] + [e];
    VoidedIdsAppend([], e);
  }

  lemma CreatePushes(bus: Bus, v: View, vo: ValueObject, doer: User, v': View)
    requires Registered(bus) && Run(bus, v, [Do(Caller, Create(vo, doer))]) == Success(v')
    ensures PushesGain(v, v') && v'.pushed == v.pushed
  {
    RunCommand(bus, v, Caller, Create(vo, doer));
    var (v1, e) := Execute(v, Caller, Create(vo, doer)).value;
    ServiceDeliveries(bus, e);
    RunOne(bus, v1, Handle(e, CREATED_HANDLER));
    ExecutePushesNothing(v, Caller, Create(vo, doer));
    GainOfOne(v.db.log, e);
    var update := Update(v.Fresh(), Suffixed(vo), doer);
    var (v2, tasks) := Step(bus, v1, Handle(e, CREATED_HANDLER)).value;
    assert tasks == [Do(Handler, update)];
    QuietPushes(bus, v2, Handler, update, v');
    assert PushesGain(v, v2);
    PushedTwice(v, v2, v');
  }

  lemma ExecutePushesNothing(v: View, who: Who, a: Action)
    requires !a.Notify? && Execute(v, who, a).Success?
    ensures var (v1, e) := Execute(v, who, a).value;
            v1.pushed == v.pushed && v1.db.log == v.db.log + [e] && e.body.Kind() == EmittedKind(a)
            && (a.Create? ==> e.body == Created(v.Fresh(), a.vo, a.doer)) && (a.Void? ==> e.body.id == a.id)
  {
  }

  ghost predicate Commands(r: Request) {
    forall a :: a in r.actions ==> !a.Notify?
  }

  lemma {:induction false} BatchPushes(bus: Bus, v: View, actions: seq<Action>, v': View)
    requires Registered(bus) && forall a :: a in actions ==> !a.Notify?
    requires Run(bus, v, Dos(Caller, actions)) == Success(v')
    ensures PushesGain(v, v') && v'.pushed == v.pushed + VoidsOf(actions)
    decreases |actions|
  {
    if actions != [] {
      var tasks := Dos(Caller, actions);
      assert tasks[1..] == Dos(Caller, actions[1..]);
      var v1 := FirstOfBatch(bus, v, tasks, v');
      CommandPushes(bus, v, actions[0], v1);
      BatchPushes(bus, v1, actions[1..], v');
      BatchPushesOn(v, v1, v', actions);
    }
  }

  lemma BatchPushesOn(v: View, v1: View, v': View, actions: seq<Action>)
    requires actions != [] && PushesGain(v, v1) && PushesGain(v1, v')
    requires v1.pushed == v.pushed + VoidsOf([actions[0]]) && v'.pushed == v1.pushed + VoidsOf(actions[1..])
    ensures PushesGain(v, v') && v'.pushed == v.pushed + VoidsOf(actions)
  {
    PushedTwice(v, v1, v');
    VoidsOfFirst(actions);
    InOrder(v.pushed, VoidsOf([actions[0]]), VoidsOf(actions[1..]));
  }

  lemma VoidsOfFirst(actions: seq<Action>)
    requires actions != []
    ensures VoidsOf(actions) == VoidsOf([actions[0]]) + VoidsOf(actions[1..])
  {
    assert [actions[0]][1..] == [];
  }

  lemma InOrder(a: seq<Uuid>, b: seq<Uuid>, c: seq<Uuid>)
    ensures a + b + c == a + (b + c)
  {
  }

  lemma FirstOfBatch(bus: Bus, v: View, tasks: seq<Task>, v': View) returns (v1: View)
    requires WellFormed(bus) && tasks != [] && Run(bus, v, tasks) == Success(v')
    ensures Run(bus, v, [tasks[0]]) == Success(v1) && Run(bus, v1, tasks[1..]) == Success(v')
  {
    RunFirst(bus, v, tasks);
    v1 := Run(bus, v, [tasks[0]]).value;
  }

  lemma GainedTwice(log: seq<Event>, log1: seq<Event>, log2: seq<Event>)
    requires log <= log1 <= log2
    ensures VoidedIds(Gained(log, log2)) == VoidedIds(Gained(log, log1)) + VoidedIds(Gained(log1, log2))
  {
    VoidedIdsConcat(Gained(log, log1), Gained(log1, log2));
    assert Gained(log, log2) == Gained(log, log1) + Gained(log1, log2);
  }

  ghost predicate PushesGain(v: View, v': View) {
    v.db.log <= v'.db.log && v'.pushed == v.pushed + VoidedIds(Gained(v.db.log, v'.db.log))
  }

  lemma PushedTwice(v: View, v1: View, v2: View)
    requires PushesGain(v, v1) && PushesGain(v1, v2)
    ensures PushesGain(v, v2)
  {
    GainedTwice(v.db.log, v1.db.log, v2.db.log);
  }

  /** A call pushes exactly the aggregates that it voids, in order, which are those it is asked to void. */
  lemma ServePushesWhatItVoids(bus: Bus, request: nat, db: DB, r: Request, stale: Slot, v': View)
    requires Registered(bus) && Commands(r)
    requires Serve(bus, request, db, r, stale) == Success(v')
    ensures db.log <= v'.db.log
    ensures VoidedIds(v'.db.log) == VoidedIds(db.log) + v'.pushed && v'.pushed == VoidsOf(r.actions)
  {
    var v := Begin(request, db, r.trace, stale);
    BatchPushes(bus, v, r.actions, v');
    PushedIsGained(v, v');
  }

  lemma PushedIsGained(v: View, v': View)
    requires PushesGain(v, v') && v.pushed == []
    ensures VoidedIds(v'.db.log) == VoidedIds(v.db.log) + v'.pushed
  {
    VoidedIdsConcat(v.db.log, Gained(v.db.log, v'.db.log));
    assert v'.db.log == v.db.log + Gained(v.db.log, v'.db.log);
  }

  // ---------- on the way, whatever the handlers ----------

  ghost predicate PushedVoided(db: DB, pushed: seq<Uuid>) {
    forall id :: id in pushed ==> id in VoidedIds(db.log)
  }

  lemma VoidedStays(log: seq<Event>, log': seq<Event>)
    requires log <= log'
    ensures forall id :: id in VoidedIds(log) ==> id in VoidedIds(log')
  {
    VoidedIdsConcat(log, log'[|log|..]);
    assert log' == log + log'[|log|..];
  }

  lemma VoidedIsLogged(db: DB, request: nat, next: nat, id: Uuid)
    requires Consistent(db, request, next) && id in db.rows && db.rows[id].status == StatusVoided
    ensures id in VoidedIds(db.log)
  {
    assert Replay(id, db.log) == Live(db.rows[id]);
    ReplayMeaning(id, db.log);
    VoidedIdsMention(db.log, id);
  }

  lemma StepPushesVoided(bus: Bus, v: View, t: Task)
    requires Consistent(v.db, v.request, v.next) && PushedVoided(v.db, v.pushed) && Step(bus, v, t).Success?
    ensures var v1 := Step(bus, v, t).value.0;
            PushedVoided(v1.db, v1.pushed)
  {
    var v1 := Step(bus, v, t).value.0;
    StepLogs(bus, v, t);
    VoidedStays(v.db.log, v1.db.log);
    if t.Do? && t.action.Notify? && t.action.id in v.db.rows && v.db.rows[t.action.id].status == StatusVoided {
      VoidedIsLogged(v.db, v.request, v.next, t.action.id);
    }
  }

  /** For every bus: whatever a run passes through, each id pushed by then is of an aggregate that
      its log voids. */
  lemma {:induction false} PassesPushesVoided(bus: Bus, v: View, tasks: seq<Task>, db: DB, pushed: seq<Uuid>)
    requires WellFormed(bus) && Consistent(v.db, v.request, v.next) && PushedVoided(v.db, v.pushed)
    requires Passes(bus, v, tasks, db, pushed)
    ensures PushedVoided(db, pushed)
    decreases MaxRank(bus, tasks), |tasks|
  {
    if !(db == v.db && pushed == v.pushed) {
      FirstKeepsConsistent(bus, v, tasks);
      StepPushesVoided(bus, v, tasks[0]);
      RunDescends(bus, v, tasks);
      var (v1, children) := Step(bus, v, tasks[0]).value;
      if Passes(bus, v1, children, db, pushed) {
        PassesPushesVoided(bus, v1, children, db, pushed);
      } else {
        var v2 := Run(bus, v1, children).value;
        PassesEnd(bus, v1, children, v2);
        PassesPushesVoided(bus, v1, children, v2.db, v2.pushed);
        PassesPushesVoided(bus, v2, tasks[1..], db, pushed);
      }
    }
  }

  // ---------- on the way, with the registered handlers ----------

  ghost predicate PushedSince(log: seq<Event>, m: nat, pushed: seq<Uuid>) {
    m <= |log| && forall id :: id in pushed ==> id in VoidedIds(log[m..])
  }

  /** A task set off by events logged since position m. */
  ghost predicate SetOffSince(log: seq<Event>, m: nat, t: Task) {
    && m <= |log|
    && match t
       case Handle(e, _) => e in log[m..]
       case Do(_, Notify(id)) => id in VoidedIds(log[m..])
       case _ => true
  }

  lemma SetOffLater(log: seq<Event>, log': seq<Event>, m: nat, t: Task)
    requires SetOffSince(log, m, t) && log <= log'
    ensures SetOffSince(log', m, t)
  {
    VoidedStays(log[m..], log'[m..]);
    assert log[m..] <= log'[m..];
    assert forall e :: e in log[m..] ==> e in log'[m..];
  }

  lemma StepSetsOffSince(bus: Bus, v: View, t: Task, m: nat)
    requires Registered(bus) && SetOffSince(v.db.log, m, t) && PushedSince(v.db.log, m, v.pushed) && Step(bus, v, t).Success?
    ensures var (v1, children) := Step(bus, v, t).value;
            && v.db.log <= v1.db.log && PushedSince(v1.db.log, m, v1.pushed)
            && forall c :: c in children ==> SetOffSince(v1.db.log, m, c)
  {
    match t
    case Handle(e, h) =>
      forall c | c in Step(bus, v, t).value.1 ensures SetOffSince(v.db.log, m, c) {
        ReactionSetsOff(v.db.log, m, e, h, c.action);
      }
    case Do(who, a) =>
      if !a.Notify? { SaveSetsOffSince(bus, v, t, m); }
  }

  lemma SaveSetsOffSince(bus: Bus, v: View, t: Task, m: nat)
    requires t.Do? && !t.action.Notify? && PushedSince(v.db.log, m, v.pushed) && Step(bus, v, t).Success?
    ensures var (v1, children) := Step(bus, v, t).value;
            && v.db.log <= v1.db.log && PushedSince(v1.db.log, m, v1.pushed)
            && forall c :: c in children ==> SetOffSince(v1.db.log, m, c)
  {
    var (v1, children) := Step(bus, v, t).value;
    StepLogs(bus, v, t);
    VoidedStays(v.db.log[m..], v1.db.log[m..]);
    assert v1.pushed == v.pushed;
    var e := v1.db.log[|v.db.log|];
    assert v1.db.log[m..][|v.db.log| - m] == e;
    assert forall c :: c in children ==> c.Handle? && c.event == e;
  }

  lemma ReactionSetsOff(log: seq<Event>, m: nat, e: Event, h: HandlerId, a: Action)
    requires m <= |log| && e in log[m..] && a in Reaction(h, e)
    ensures SetOffSince(log, m, Do(Handler, a))
  {
    if e.body.Voided? {
      var i :| 0 <= i < |log[m..]| && log[m..][i] == e;
      VoidedIdsMention(log[m..], e.body.id);
    }
  }

  /** With the registered handlers: what a call has pushed, wherever it is cut short, is of
      aggregates that it has itself voided. */
  lemma {:induction false} PassesPushesNew(bus: Bus, v: View, tasks: seq<Task>, m: nat, db: DB, pushed: seq<Uuid>)
    requires Registered(bus) && PushedSince(v.db.log, m, v.pushed) && forall t :: t in tasks ==> SetOffSince(v.db.log, m, t)
    requires Passes(bus, v, tasks, db, pushed)
    ensures v.db.log <= db.log && PushedSince(db.log, m, pushed)
    decreases MaxRank(bus, tasks), |tasks|
  {
    if !(db == v.db && pushed == v.pushed) {
      assert tasks[0] in tasks;
      StepSetsOffSince(bus, v, tasks[0], m);
      RunDescends(bus, v, tasks);
      var (v1, children) := Step(bus, v, tasks[0]).value;
      if Passes(bus, v1, children, db, pushed) {
        PassesPushesNew(bus, v1, children, m, db, pushed);
      } else {
        var v2 := Run(bus, v1, children).value;
        PassesEnd(bus, v1, children, v2);
        PassesPushesNew(bus, v1, children, m, v2.db, v2.pushed);
        forall t | t in tasks[1..] ensures SetOffSince(v2.db.log, m, t) { SetOffLater(v.db.log, v2.db.log, m, t); }
        PassesPushesNew(bus, v2, tasks[1..], m, db, pushed);
      }
    }
  }
}
