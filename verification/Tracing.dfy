/** How tracing slots travel through a cascade: which parent and which trace the logged events get. */
module Tracing {
  import opened Wrappers
  import opened Domain
  import opened Cascade
  import opened Consistency

  /** Events are only ever appended to the log, and handlers leave the caller's slot alone. */
  lemma {:induction false} LogGrows(bus: Bus, v: View, tasks: seq<Task>, v': View)
    requires WellFormed(bus) && Run(bus, v, tasks) == Success(v')
    ensures v.db.log <= v'.db.log
    decreases MaxRank(bus, tasks), |tasks|
  {
    if tasks != [] {
      StepGrows(bus, v, tasks[0]);
      RunDescends(bus, v, tasks);
      var (v1, children) := Step(bus, v, tasks[0]).value;
      var v2 := Run(bus, v1, children).value;
      LogGrows(bus, v1, children, v2);
      LogGrows(bus, v2, tasks[1..], v');
    }
  }

  lemma StepGrows(bus: Bus, v: View, t: Task)
    requires Step(bus, v, t).Success?
    ensures v.db.log <= Step(bus, v, t).value.0.db.log
  {
  }

  /** What a run passes through has grown from where it began. */
  lemma {:induction false} PassesGrows(bus: Bus, v: View, tasks: seq<Task>, db: DB, pushed: seq<Uuid>)
    requires WellFormed(bus) && Passes(bus, v, tasks, db, pushed)
    ensures v.db.log <= db.log
    decreases MaxRank(bus, tasks), |tasks|
  {
    if !(db == v.db && pushed == v.pushed) {
      StepGrows(bus, v, tasks[0]);
      RunDescends(bus, v, tasks);
      var (v1, children) := Step(bus, v, tasks[0]).value;
      if Passes(bus, v1, children, db, pushed) {
        PassesGrows(bus, v1, children, db, pushed);
      } else {
        LogGrows(bus, v1, children, Run(bus, v1, children).value);
        PassesGrows(bus, Run(bus, v1, children).value, tasks[1..], db, pushed);
      }
    }
  }

  ghost predicate Saves(t: Task) {
    t.Do? && !t.action.Notify?
  }

  /** What one step does to the log and to the slots. */
  lemma StepLogs(bus: Bus, v: View, t: Task)
    requires Step(bus, v, t).Success?
    ensures var (v1, children) := Step(bus, v, t).value;
            if Saves(t) then
              && v1.db.log[..|v1.db.log| - 1] == v.db.log
              && v1.db.log[|v.db.log|].tracer == Stamp(v.SlotOf(t.who), v1.db.log[|v.db.log|].tracer.span)
              && children == Deliveries(bus, v1.db.log[|v.db.log|])
              && (t.who.Handler? ==> v1.caller == v.caller)
              && (t.who.Caller? ==> v1.handler == v.handler && v1.caller == Consume(v.caller))
            else
              && v1.db == v.db && v1.caller == v.caller
              && (t.Handle? ==> v1.handler == Slot(Some(t.event), None) && children == Dos(Handler, bus.react(t.handler, t.event)))
              && (t.Do? ==> v1.handler == v.handler && children == [])
  {
  }

  /** Data changes with the log only: where nothing is logged yet, nothing is changed. */
  lemma {:induction false} PassesUnchanged(bus: Bus, v: View, tasks: seq<Task>, db: DB, pushed: seq<Uuid>)
    requires WellFormed(bus) && Passes(bus, v, tasks, db, pushed) && |db.log| <= |v.db.log|
    ensures db == v.db
    decreases MaxRank(bus, tasks), |tasks|
  {
    if !(db == v.db && pushed == v.pushed) {
      StepUnchanged(bus, v, tasks[0]);
      RunDescends(bus, v, tasks);
      var (v1, children) := Step(bus, v, tasks[0]).value;
      if Passes(bus, v1, children, db, pushed) {
        PassesGrows(bus, v1, children, db, pushed);
        PassesUnchanged(bus, v1, children, db, pushed);
      } else {
        var v2 := Run(bus, v1, children).value;
        PassesEnd(bus, v1, children, v2);
        LogGrows(bus, v1, children, v2);
        PassesGrows(bus, v2, tasks[1..], db, pushed);
        PassesUnchanged(bus, v1, children, v2.db, v2.pushed);
        PassesUnchanged(bus, v2, tasks[1..], db, pushed);
      }
    }
  }

  lemma StepUnchanged(bus: Bus, v: View, t: Task)
    requires Step(bus, v, t).Success?
    ensures var v1 := Step(bus, v, t).value.0;
            v.db.log <= v1.db.log && (|v1.db.log| == |v.db.log| ==> v1.db == v.db)
  {
    StepLogs(bus, v, t);
  }

  /** For every bus: the first event that a handler saves has the event it reacts to as parent,
      and shares its trace. */
  lemma {:induction false} FirstSaveTraced(bus: Bus, v: View, e: Event, actions: seq<Action>, v': View)
    requires WellFormed(bus) && v.handler == Slot(Some(e), None)
    requires exists a :: a in actions && !a.Notify?
    requires Run(bus, v, Dos(Handler, actions)) == Success(v')
    ensures && |v.db.log| < |v'.db.log|
            && v'.db.log[|v.db.log|].tracer.parent == Some(e.tracer.span)
            && v'.db.log[|v.db.log|].tracer.trace == e.tracer.trace
    decreases |actions|
  {
    var tasks := Dos(Handler, actions);
    assert tasks[1..] == Dos(Handler, actions[1..]);
    StepLogs(bus, v, tasks[0]);
    var (v1, children) := Step(bus, v, tasks[0]).value;
    var v2 := Run(bus, v1, children).value;
    if actions[0].Notify? {
      FirstSaveTraced(bus, v2, e, actions[1..], v');
    } else {
      LogGrows(bus, v1, children, v2);
      LogGrows(bus, v2, tasks[1..], v');
    }
  }

  // ---------- the tree of a cascade ----------

  /** Every event from position m on shares the trace of event k and has a parent logged
      earlier, at or after k. */
  ghost predicate Descends(log: seq<Event>, k: nat, m: nat) {
    k < |log| &&
    forall i :: m <= i < |log| ==>
      log[i].tracer.trace == log[k].tracer.trace && HasParent(log, k, i)
  }

  ghost predicate HasParent(log: seq<Event>, k: nat, i: nat)
    requires i < |log|
  {
    exists j :: k <= j < i && log[i].tracer.parent == Some(log[j].tracer.span)
  }

  /** A handler saves at most once per event. */
  ghost predicate SavesOnce(actions: seq<Action>) {
    forall i, j :: 0 <= i < j < |actions| ==> actions[i].Notify? || actions[j].Notify?
  }

  ghost predicate HandlersSaveOnce(bus: Bus) {
    forall h, e :: SavesOnce(bus.react(h, e))
  }

  /** Tasks that event k set off: its deliveries, or what is left of one handler's reaction. */
  ghost predicate SetOffBy(v: View, tasks: seq<Task>, k: nat) {
    && k < |v.db.log|
    && ((forall t :: t in tasks ==> t.Handle? && t.event == v.db.log[k])
        || (&& (forall t :: t in tasks ==> t.Do? && t.who.Handler?)
            && (forall i, j :: 0 <= i < j < |tasks| ==> tasks[i].action.Notify? || tasks[j].action.Notify?)
            && ((exists t :: t in tasks && !t.action.Notify?) ==> v.handler == Slot(Some(v.db.log[k]), None))))
  }

  lemma {:induction false} CascadeDescends(bus: Bus, v: View, tasks: seq<Task>, k: nat, v': View)
    requires WellFormed(bus) && HandlersSaveOnce(bus)
    requires SetOffBy(v, tasks, k)
    requires Run(bus, v, tasks) == Success(v')
    ensures v.db.log <= v'.db.log && v'.caller == v.caller && Descends(v'.db.log, k, |v.db.log|)
    decreases MaxRank(bus, tasks), |tasks|
  {
    if tasks != [] {
      var t, m := tasks[0], |v.db.log|;
      StepSetsOff(bus, v, tasks, k);
      RunDescends(bus, v, tasks);
      var (v1, children) := Step(bus, v, t).value;
      var v2 := Run(bus, v1, children).value;
      CascadeDescends(bus, v1, children, if Saves(t) then m else k, v2);
      RestSetOff(bus, v, tasks, k, v2);
      CascadeDescends(bus, v2, tasks[1..], k, v');
      ComposeDescends(v.db.log, v2.db.log, v'.db.log, k, m, Saves(t));
    }
  }

  lemma StepSetsOff(bus: Bus, v: View, tasks: seq<Task>, k: nat)
    requires HandlersSaveOnce(bus)
    requires tasks != [] && SetOffBy(v, tasks, k) && Step(bus, v, tasks[0]).Success?
    ensures var (v1, children) := Step(bus, v, tasks[0]).value;
            && SetOffBy(v1, children, if Saves(tasks[0]) then |v.db.log| else k)
            && v.db.log <= v1.db.log && v1.caller == v.caller
            && (Saves(tasks[0]) ==>
                  && |v1.db.log| == |v.db.log| + 1
                  && v1.db.log[|v.db.log|].tracer.trace == v.db.log[k].tracer.trace
                  && v1.db.log[|v.db.log|].tracer.parent == Some(v.db.log[k].tracer.span))
            && (!Saves(tasks[0]) ==> v1.db == v.db)
  {
    StepLogs(bus, v, tasks[0]);
    assert tasks[0] in tasks;
    if tasks[0].Handle? {
      assert SavesOnce(bus.react(tasks[0].handler, tasks[0].event));
    }
  }

  lemma RestSetOff(bus: Bus, v: View, tasks: seq<Task>, k: nat, v2: View)
    requires WellFormed(bus)
    requires tasks != [] && SetOffBy(v, tasks, k)
    requires v.db.log <= v2.db.log && Run(bus, v, [tasks[0]]) == Success(v2)
    ensures SetOffBy(v2, tasks[1..], k)
  {
    assert tasks[0] in tasks;
    if t :| t in tasks[1..] && t.Do? && !t.action.Notify? {
      var j :| 1 <= j < |tasks| && tasks[j] == t;
      assert t in tasks && !t.Handle?;
      assert tasks[0].Do? && tasks[0].action.Notify?;
      RunOne(bus, v, tasks[0]);
    }
  }

  /** What one task logged (below k directly, or below its own new event at m) and what the rest
      logged, put together. */
  lemma ComposeDescends(log: seq<Event>, log2: seq<Event>, log3: seq<Event>, k: nat, m: nat, saved: bool)
    requires log <= log2 <= log3 && m == |log| && k < m
    requires Descends(log3, k, |log2|)
    requires if saved then
               && m < |log2| && Descends(log2, m, m + 1)
               && log2[m].tracer.trace == log[k].tracer.trace && log2[m].tracer.parent == Some(log[k].tracer.span)
             else Descends(log2, k, m)
    ensures Descends(log3, k, m)
  {
    forall i | m <= i < |log3|
      ensures log3[i].tracer.trace == log3[k].tracer.trace && HasParent(log3, k, i) {
      if i < |log2| {
        assert log3[i] == log2[i];
        if saved && i == m {
          assert log3[k] == log[k];
        } else {
          assert HasParent(log2, if saved then m else k, i);
          var j :| (if saved then m else k) <= j < i && log2[i].tracer.parent == Some(log2[j].tracer.span);
          assert log3[j] == log2[j];
        }
      }
    }
  }

  // ---------- a whole call ----------

  /** One tree per action: the log from `from` on is cut at `roots`, and everything between two
      roots descends from the first. */
  ghost predicate Forest(log: seq<Event>, from: nat, roots: seq<nat>) {
    && (roots == [] ==> |log| == from)
    && (roots != [] ==> roots[0] == from)
    && (forall j :: 0 <= j < |roots| ==> roots[j] < Bound(log, roots, j) <= |log|)
    && (forall j :: 0 <= j < |roots| ==> Tree(log, roots, j))
  }

  ghost predicate Tree(log: seq<Event>, roots: seq<nat>, j: nat)
    requires j < |roots| && Bound(log, roots, j) <= |log|
  {
    Descends(log[..Bound(log, roots, j)], roots[j], roots[j] + 1)
  }

  function Bound(log: seq<Event>, roots: seq<nat>, j: nat): nat
    requires j < |roots|
  {
    if j + 1 < |roots| then roots[j + 1] else |log|
  }

  ghost predicate RootTracer(log: seq<Event>, root: nat, trace: Option<TraceId>)
    requires root < |log|
  {
    && log[root].tracer.parent == None
    && log[root].tracer.trace == if trace.Some? then trace.value else Generated(log[root].tracer.span)
  }

  /** One command of the controller's use case: its event is the root of a tree. It gets the trace in
      the slot, which it uses up, or starts its own. */
  lemma CommandTraces(bus: Bus, v: View, a: Action, v': View)
    requires WellFormed(bus) && HandlersSaveOnce(bus) && !a.Notify?
    requires Run(bus, v, [Do(Caller, a)]) == Success(v')
    requires v.caller.parent == None
    ensures v.db.log <= v'.db.log && v'.caller == Slot(None, None)
    ensures Descends(v'.db.log, |v.db.log|, |v.db.log| + 1)
    ensures RootTracer(v'.db.log, |v.db.log|, v.caller.trace)
  {
    var t := Do(Caller, a);
    RunOne(bus, v, t);
    StepLogs(bus, v, t);
    var (v1, children) := Step(bus, v, t).value;
    CascadeDescends(bus, v1, children, |v.db.log|, v');
    assert v'.db.log[|v.db.log|] == v1.db.log[|v.db.log|];
  }

  /** The commands of a batch, run by the controller's use case: one tree each. The first root
      gets the trace of the request; every later root finds the slot used up and starts a trace
      of its own. */
  lemma {:induction false} BatchTraces(bus: Bus, v: View, actions: seq<Action>, v': View) returns (roots: seq<nat>)
    requires WellFormed(bus) && HandlersSaveOnce(bus)
    requires forall a :: a in actions ==> !a.Notify?
    requires v.caller.parent == None
    requires Run(bus, v, Dos(Caller, actions)) == Success(v')
    ensures v.db.log <= v'.db.log && |roots| == |actions| && Forest(v'.db.log, |v.db.log|, roots)
    ensures forall j :: 0 <= j < |roots| ==> RootTracer(v'.db.log, roots[j], if j == 0 then v.caller.trace else None)
    decreases |actions|
  {
    if actions == [] { return []; }
    var tasks := Dos(Caller, actions);
    assert tasks[1..] == Dos(Caller, actions[1..]);
    RunFirst(bus, v, tasks);
    var v2 := Run(bus, v, [tasks[0]]).value;
    CommandTraces(bus, v, actions[0], v2);
    var rest := BatchTraces(bus, v2, actions[1..], v');
    roots := [|v.db.log|] + rest;
    assert v'.db.log[|v.db.log|] == v2.db.log[|v.db.log|];
    JoinForest(v2.db.log, v'.db.log, |v.db.log|, rest);
  }

  lemma JoinForest(log2: seq<Event>, log': seq<Event>, m: nat, rest: seq<nat>)
    requires log2 <= log' && m < |log2| && Descends(log2, m, m + 1)
    requires Forest(log', |log2|, rest)
    ensures Forest(log', m, [m] + rest)
  {
    var roots := [m] + rest;
    forall j | 0 <= j < |roots|
      ensures roots[j] < Bound(log', roots, j) <= |log'| && Tree(log', roots, j) {
      if j == 0 {
        assert log'[..|log2|] == log2;
        assert Bound(log', roots, 0) == |log2|;
      } else {
        assert roots[j] == rest[j - 1] && Bound(log', roots, j) == Bound(log', rest, j - 1);
        assert Tree(log', rest, j - 1);
      }
    }
  }

  /** A call logs one tree for each of its commands. The first has the trace that the request gives or,
      if it gives none or an empty one, the first identifier that the call draws; every later one
      starts its own. */
  lemma ServeTraces(bus: Bus, request: nat, db: DB, r: Request, stale: Slot, v': View) returns (roots: seq<nat>)
    requires WellFormed(bus) && HandlersSaveOnce(bus) && forall a :: a in r.actions ==> !a.Notify?
    requires Serve(bus, request, db, r, stale) == Success(v')
    ensures |roots| == |r.actions| && Forest(v'.db.log, |db.log|, roots)
    ensures forall j :: 0 <= j < |roots| ==>
              && v'.db.log[roots[j]].tracer.parent == None
              && v'.db.log[roots[j]].tracer.trace == (if j > 0 then Generated(v'.db.log[roots[j]].tracer.span)
                                                      else if r.trace.Some? && r.trace.value != "" then Given(r.trace.value)
                                                      else Generated(Uuid(request, 0)))
  {
    roots := BatchTraces(bus, Begin(request, db, r.trace, stale), r.actions, v');
    assert forall j :: 0 <= j < |roots| ==> roots[j] < Bound(v'.db.log, roots, j);
  }

  /** A batch of commands shares the trace its request carries if and only if it holds one command,
      or none. */
  lemma OneTraceIffOneCommand(bus: Bus, request: nat, db: DB, r: Request, stale: Slot, v': View)
    requires WellFormed(bus) && HandlersSaveOnce(bus)
    requires forall a :: a in r.actions ==> !a.Notify?
    requires r.trace.Some? && r.trace.value != ""
    requires Serve(bus, request, db, r, stale) == Success(v')
    ensures (forall i :: |db.log| <= i < |v'.db.log| ==> v'.db.log[i].tracer.trace == Given(r.trace.value)) <==> |r.actions| <= 1
  {
    var v := Begin(request, db, r.trace, stale);
    var log' := v'.db.log;
    var roots := BatchTraces(bus, v, r.actions, v');
    if |roots| == 1 {
      assert log'[..|log'|] == log';
      assert Tree(log', roots, 0);
    } else if |roots| > 1 {
      assert RootTracer(log', roots[1], None);
      assert roots[0] < Bound(log', roots, 0) && roots[1] < Bound(log', roots, 1);
      assert log'[roots[1]].tracer.trace != Given(r.trace.value);
    }
  }

  // ---------- exactly which saves have the triggering event as parent ----------

  /** The handlers' slot is empty, or holds an event logged at position m or after. */
  ghost predicate NewSlot(v: View, m: nat) {
    || v.handler == Slot(None, None)
    || exists k :: m <= k < |v.db.log| && v.handler == Slot(Some(v.db.log[k]), None)
  }

  /** A handler's action, or the delivery of an event logged at position m or after. */
  ghost predicate Below(log: seq<Event>, m: nat, t: Task) {
    match t
    case Do(who, _) => who.Handler?
    case Handle(e, _) => exists k :: m <= k < |log| && log[k] == e
  }

  lemma BelowLater(log: seq<Event>, log': seq<Event>, m: nat, t: Task)
    requires Below(log, m, t) && log <= log'
    ensures Below(log', m, t)
  {
    if t.Handle? {
      var k :| m <= k < |log| && log[k] == t.event;
      assert log'[k] == t.event;
    }
  }

  lemma StepNewSlot(bus: Bus, v: View, t: Task, m: nat)
    requires Step(bus, v, t).Success? && m <= |v.db.log| && Below(v.db.log, m, t)
    requires NewSlot(v, m) || Saves(t)
    ensures var (v1, children) := Step(bus, v, t).value;
            && v.db.log <= v1.db.log && (v.handler.trace == None ==> NewSlot(v1, m))
            && forall c :: c in children ==> Below(v1.db.log, m, c)
  {
    StepLogs(bus, v, t);
    if Saves(t) {
      SaveNewSlot(bus, v, t, m);
    } else if t.Handle? {
      var k :| m <= k < |v.db.log| && v.db.log[k] == t.event;
    }
  }

  lemma SaveNewSlot(bus: Bus, v: View, t: Task, m: nat)
    requires Step(bus, v, t).Success? && Saves(t) && t.who.Handler? && m <= |v.db.log|
    ensures var (v1, children) := Step(bus, v, t).value;
            && v.db.log <= v1.db.log && (v.handler.trace == None ==> v1.handler == Slot(None, None))
            && forall c :: c in children ==> Below(v1.db.log, m, c)
  {
    var (v1, children) := Step(bus, v, t).value;
    StepLogs(bus, v, t);
    var k := |v.db.log|;
    assert m <= k < |v1.db.log|;
    assert forall c :: c in children ==> c.Handle? && c.event == v1.db.log[k];
  }

  /** Once a handler has saved, its slot never again holds an event logged before. */
  lemma {:induction false} RunNewSlot(bus: Bus, v: View, tasks: seq<Task>, m: nat, v': View)
    requires WellFormed(bus) && Run(bus, v, tasks) == Success(v')
    requires m <= |v.db.log| && NewSlot(v, m) && forall t :: t in tasks ==> Below(v.db.log, m, t)
    ensures v.db.log <= v'.db.log && NewSlot(v', m)
    decreases MaxRank(bus, tasks), |tasks|
  {
    if tasks != [] {
      assert tasks[0] in tasks;
      StepNewSlot(bus, v, tasks[0], m);
      RunDescends(bus, v, tasks);
      var (v1, children) := Step(bus, v, tasks[0]).value;
      var v2 := Run(bus, v1, children).value;
      RunNewSlot(bus, v1, children, m, v2);
      forall t | t in tasks[1..] ensures Below(v2.db.log, m, t) { BelowLater(v.db.log, v2.db.log, m, t); }
      RunNewSlot(bus, v2, tasks[1..], m, v');
    }
  }

  /** The slot when some actions of a reaction to e are done. */
  lemma {:induction false} SlotAfter(bus: Bus, v: View, e: Event, done: seq<Action>, v1: View)
    requires WellFormed(bus) && v.handler == Slot(Some(e), None) && Run(bus, v, Dos(Handler, done)) == Success(v1)
    ensures v.db.log <= v1.db.log
    ensures if forall y :: y in done ==> y.Notify? then v1.handler == v.handler else NewSlot(v1, |v.db.log|)
    decreases |done|
  {
    var tasks, m := Dos(Handler, done), |v.db.log|;
    if done != [] {
      assert tasks[1..] == Dos(Handler, done[1..]);
      StepLogs(bus, v, tasks[0]);
      var (w, children) := Step(bus, v, tasks[0]).value;
      var w1 := Run(bus, w, children).value;
      if done[0].Notify? {
        SlotAfter(bus, w1, e, done[1..], v1);
        assert (forall y :: y in done ==> y.Notify?) <==> (forall y :: y in done[1..] ==> y.Notify?);
      } else {
        StepNewSlot(bus, v, tasks[0], m);
        RunNewSlot(bus, w, children, m, w1);
        RunNewSlot(bus, w1, tasks[1..], m, v1);
        assert done[0] in done;
      }
    }
  }

  /** For every bus: an event that a reaction to e saves has e as its parent if and only if it is
      the first that the reaction saves. A later one has no parent and starts a trace of its own, or
      it has one logged since, left in the slot by a handler that did not save, and shares its
      trace. */
  lemma FirstSaveIff(bus: Bus, v: View, e: Event, done: seq<Action>, v1: View, a: Action)
    requires WellFormed(bus) && Consistent(v.db, v.request, v.next) && e in v.db.log && v.handler == Slot(Some(e), None)
    requires Run(bus, v, Dos(Handler, done)) == Success(v1)
    requires !a.Notify? && Execute(v1, Handler, a).Success?
    ensures var saved := Execute(v1, Handler, a).value.1;
            && (saved.tracer.parent == Some(e.tracer.span) <==> forall y :: y in done ==> y.Notify?)
            && ((exists y :: y in done && !y.Notify?) ==>
                  || (saved.tracer.parent == None && saved.tracer.trace == Generated(saved.tracer.span))
                  || (exists k :: |v.db.log| <= k < |v1.db.log| && v1.handler == Slot(Some(v1.db.log[k]), None)
                                  && saved.tracer.parent == Some(v1.db.log[k].tracer.span) && saved.tracer.trace == v1.db.log[k].tracer.trace))
  {
    SlotAfter(bus, v, e, done, v1);
    RunKeepsConsistent(bus, v, Dos(Handler, done), v1);
    var j :| 0 <= j < |v.db.log| && v.db.log[j] == e;
    assert v1.db.log[j] == e;
    ExecuteStamps(v1, a);
  }

  lemma ExecuteStamps(v: View, a: Action)
    requires !a.Notify? && Execute(v, Handler, a).Success?
    ensures var saved := Execute(v, Handler, a).value.1;
            saved.tracer == Stamp(v.handler, saved.tracer.span)
  {
  }

  // ---------- a second save, in a call ----------

  /** A handler of creations that saves twice, and, if `nested`, one of updates that only reads. */
  ghost predicate SavesTwice(bus: Bus, nested: bool) {
    && WellFormed(bus) && bus.forAll == {}
    && bus.forEvents == (if nested then map[CreatedKind := {0}, UpdatedKind := {1}] else map[CreatedKind := {0}])
    && forall h, e :: bus.react(h, e) == TwiceReaction(h, e)
  }

  function TwiceReaction(h: HandlerId, e: Event): seq<Action> {
    if h == 0 && e.body.Created? then
      [Update(e.body.id, e.body.vo, e.body.doer), Update(e.body.id, e.body.vo, e.body.doer)]
    else if h == 1 && e.body.Updated? then [Notify(e.body.id)]
    else []
  }

  lemma TwiceBus(order: (Event, set<HandlerId>) -> seq<HandlerId>, nested: bool) returns (bus: Bus)
    requires forall e, s :: Enumerates(order(e, s), s)
    ensures SavesTwice(bus, nested)
  {
    bus := Bus(if nested then map[CreatedKind := {0}, UpdatedKind := {1}] else map[CreatedKind := {0}], {},
               (h: HandlerId, e: Event) => TwiceReaction(h, e), order, (kind: Kind) => if kind == CreatedKind then 1 else 0);
  }

  lemma TwiceDeliveries(bus: Bus, nested: bool, e: Event)
    requires SavesTwice(bus, nested)
    ensures Deliveries(bus, e) == if e.body.Created? then [Handle(e, 0)] else if e.body.Updated? && nested then [Handle(e, 1)] else []
  {
    var s := Subscribers(bus, e.body.Kind());
    var hs := bus.order(e, s);
    assert Enumerates(hs, s);
    if e.body.Created? {
      assert s == {0};
      EnumeratesOne(hs, 0);
    } else if e.body.Updated? && nested {
      assert s == {1};
      EnumeratesOne(hs, 1);
    } else {
      assert s == {};
      EnumeratesNone(hs);
    }
  }

  /** One of the two updates: the slot it leaves is empty, or holds its own event. */
  lemma UpdateOnce(bus: Bus, nested: bool, v: View, a: Action) returns (w: View, u: Event)
    requires SavesTwice(bus, nested) && a.Update? && a.id in v.db.rows && v.db.rows[a.id].status == StatusCreated
    ensures Run(bus, v, [Do(Handler, a)]) == Success(w) && w.db.log == v.db.log + [u] && w.request == v.request
    ensures u.tracer == Stamp(v.handler, Uuid(v.request, v.next)) && u.body.Updated?
    ensures a.id in w.db.rows && w.db.rows[a.id].status == StatusCreated
    ensures v.handler.trace == None ==> w.handler == Slot(if nested then Some(u) else None, None)
  {
    var (v1, e) := Execute(v, Handler, a).value;
    u := e;
    RunCommand(bus, v, Handler, a);
    TwiceDeliveries(bus, nested, u);
    if nested {
      RunOne(bus, v1, Handle(u, 1));
      var (v2, tasks) := Step(bus, v1, Handle(u, 1)).value;
      assert tasks == [Do(Handler, Notify(a.id))];
      RunNotify(bus, v2, Handler, a.id);
      w := v2;
    } else {
      w := v1;
    }
  }

  /** Creating an aggregate where its creation is handled by saving twice: the first update has the
      creation as parent; the second has no parent and a trace of its own or, if the first update
      is itself handed to a handler that only reads, the first update as parent. */
  lemma SecondSaveLeavesTheTree(bus: Bus, nested: bool, request: nat, db: DB, vo: ValueObject, doer: User, trace: Option<string>) returns (v': View)
    requires SavesTwice(bus, nested) && Consistent(db, request, 0)
    ensures Serve(bus, request, db, Request([Create(vo, doer)], trace, None), Slot(None, None)) == Success(v')
    ensures db.log <= v'.db.log && |v'.db.log| == |db.log| + 3
    ensures var n := |db.log|;
            var created, first, second := v'.db.log[n].tracer, v'.db.log[n + 1].tracer, v'.db.log[n + 2].tracer;
            && first.parent == Some(created.span) && first.trace == created.trace
            && (if nested then second.parent == Some(first.span) && second.trace == created.trace
                else second.parent == None && second.trace == Generated(second.span))
  {
    var v := Begin(request, db, trace, Slot(None, None));
    assert Dos(Caller, [Create(vo, doer)]) == [Do(Caller, Create(vo, doer))];
    var e, first, second;
    v', e, first, second := CreateThenTwice(bus, nested, v, vo, doer);
    assert v'.db.log == db.log + [e] + [first] + [second];
  }

  lemma CreateThenTwice(bus: Bus, nested: bool, v: View, vo: ValueObject, doer: User) returns (x: View, e: Event, first: Event, second: Event)
    requires SavesTwice(bus, nested)
    ensures Run(bus, v, [Do(Caller, Create(vo, doer))]) == Success(x) && x.db.log == v.db.log + [e] + [first] + [second]
    ensures first.tracer == Stamp(Slot(Some(e), None), first.tracer.span)
    ensures second.tracer == Stamp(Slot(if nested then Some(first) else None, None), second.tracer.span)
  {
    RunCommand(bus, v, Caller, Create(vo, doer));
    var v1 := Execute(v, Caller, Create(vo, doer)).value.0;
    e := Execute(v, Caller, Create(vo, doer)).value.1;
    TwiceDeliveries(bus, nested, e);
    RunOne(bus, v1, Handle(e, 0));
    var update := Update(v.Fresh(), vo, doer);
    assert Step(bus, v1, Handle(e, 0)).value.1 == [Do(Handler, update), Do(Handler, update)];
    x, first, second := UpdateTwice(bus, nested, Step(bus, v1, Handle(e, 0)).value.0, update);
  }

  lemma UpdateTwice(bus: Bus, nested: bool, v: View, a: Action) returns (x: View, first: Event, second: Event)
    requires SavesTwice(bus, nested) && a.Update? && a.id in v.db.rows && v.db.rows[a.id].status == StatusCreated
    requires v.handler.trace == None
    ensures Run(bus, v, [Do(Handler, a), Do(Handler, a)]) == Success(x) && x.db.log == v.db.log + [first] + [second]
    ensures first.tracer == Stamp(v.handler, first.tracer.span)
    ensures second.tracer == Stamp(Slot(if nested then Some(first) else None, None), second.tracer.span)
  {
    var tasks := [Do(Handler, a), Do(Handler, a)];
    assert tasks[1..] == [Do(Handler, a)];
    RunFirst(bus, v, tasks);
    var w;
    w, first := UpdateOnce(bus, nested, v, a);
    x, second := UpdateOnce(bus, nested, w, a);
  }

  // ---------- stale slots ----------

  ghost predicate SameButHandlerSlot(v: View, w: View) {
    w == v.(handler := w.handler)
  }

  ghost predicate SameResult(rv: Result<View, Exn>, rw: Result<View, Exn>) {
    match rv
    case Failure(x) => rw == Failure(x)
    case Success(v) => rw.Success? && SameButHandlerSlot(v, rw.value)
  }

  /** The handlers' slot may hold anything left behind by an earlier call: it is overwritten
      before any handler saves, so no event, row, push or delivery depends on it. */
  lemma {:induction false} StaleSlotUnread(bus: Bus, v: View, w: View, actions: seq<Action>)
    requires WellFormed(bus) && SameButHandlerSlot(v, w)
    ensures SameResult(Run(bus, v, Dos(Caller, actions)), Run(bus, w, Dos(Caller, actions)))
    decreases |actions|
  {
    var tasks := Dos(Caller, actions);
    if actions != [] {
      assert tasks[1..] == Dos(Caller, actions[1..]);
      StepUnread(bus, v, w, tasks[0]);
      var sv, sw := Step(bus, v, tasks[0]), Step(bus, w, tasks[0]);
      if sv.Success? {
        ChildrenUnread(bus, sv.value.0, sw.value.0, sv.value.1);
        var rv, rw := Run(bus, sv.value.0, sv.value.1), Run(bus, sw.value.0, sv.value.1);
        if rv.Success? { StaleSlotUnread(bus, rv.value, rw.value, actions[1..]); }
      }
    }
  }

  lemma StepUnread(bus: Bus, v: View, w: View, t: Task)
    requires SameButHandlerSlot(v, w) && t.Do? && t.who.Caller?
    ensures var sv, sw := Step(bus, v, t), Step(bus, w, t);
            match sv case Failure(x) => sw == Failure(x)
                     case Success((v1, children)) =>
                       && sw.Success? && SameButHandlerSlot(v1, sw.value.0) && sw.value.1 == children
                       && forall c :: c in children ==> c.Handle?
  {
  }

  lemma ChildrenUnread(bus: Bus, v: View, w: View, children: seq<Task>)
    requires WellFormed(bus) && SameButHandlerSlot(v, w) && forall c :: c in children ==> c.Handle?
    ensures SameResult(Run(bus, v, children), Run(bus, w, children))
  {
    if children != [] {
      assert children[0] in children;
      assert Step(bus, v, children[0]) == Step(bus, w, children[0]);
    }
  }

  /** What a call does to the data, the pushes and the deliveries never depends on slots that
      earlier calls left behind. */
  lemma StaleSlotNeverReachesACall(bus: Bus, request: nat, db: DB, r: Request, stale: Slot, stale': Slot)
    requires WellFormed(bus)
    ensures SameResult(Serve(bus, request, db, r, stale), Serve(bus, request, db, r, stale'))
  {
    StaleSlotUnread(bus, Begin(request, db, r.trace, stale), Begin(request, db, r.trace, stale'), r.actions);
  }

  /** Nor does what a call that is cut short has reached. */
  lemma {:induction false} StaleSlotUnreached(bus: Bus, v: View, w: View, actions: seq<Action>, db: DB, pushed: seq<Uuid>)
    requires WellFormed(bus) && SameButHandlerSlot(v, w)
    requires Passes(bus, v, Dos(Caller, actions), db, pushed)
    ensures Passes(bus, w, Dos(Caller, actions), db, pushed)
    decreases |actions|
  {
    var tasks := Dos(Caller, actions);
    if !(db == v.db && pushed == v.pushed) {
      assert tasks[1..] == Dos(Caller, actions[1..]);
      StepUnread(bus, v, w, tasks[0]);
      var (v1, children) := Step(bus, v, tasks[0]).value;
      var w1 := Step(bus, w, tasks[0]).value.0;
      if Passes(bus, v1, children, db, pushed) {
        ChildrenUnreached(bus, v1, w1, children, db, pushed);
      } else {
        ChildrenUnread(bus, v1, w1, children);
        StaleSlotUnreached(bus, Run(bus, v1, children).value, Run(bus, w1, children).value, actions[1..], db, pushed);
      }
      assert PassesStep(bus, w, tasks, db, pushed);
    }
  }

  lemma ChildrenUnreached(bus: Bus, v: View, w: View, children: seq<Task>, db: DB, pushed: seq<Uuid>)
    requires WellFormed(bus) && SameButHandlerSlot(v, w) && forall c :: c in children ==> c.Handle?
    requires Passes(bus, v, children, db, pushed)
    ensures Passes(bus, w, children, db, pushed)
  {
    if children != [] {
      assert children[0] in children;
      assert Step(bus, v, children[0]) == Step(bus, w, children[0]);
    }
  }
}
