/** Every event a call logs is handed to each of its subscribers exactly once. */
module Delivering {
  import opened Wrappers
  import opened Domain
  import opened Cascade
  import opened Consistency
  import opened Tracing

  function One(b: bool): nat { if b then 1 else 0 }

  function Times(delivered: seq<Delivery>, d: Delivery): nat {
    if delivered == [] then 0
    else Times(delivered[..|delivered| - 1], d) + One(delivered[|delivered| - 1] == d)
  }

  /** The deliveries of d that the tasks themselves stand for. */
  function Asked(tasks: seq<Task>, d: Delivery): nat {
    if tasks == [] then 0
    else One(tasks[0].Handle? && d == Delivery(tasks[0].event.tracer.span, tasks[0].handler)) + Asked(tasks[1..], d)
  }

  /** The deliveries of d that the given events call for. */
  function Due(bus: Bus, events: seq<Event>, d: Delivery): nat {
    if events == [] then 0
    else One(events[0].tracer.span == d.span && d.handler in Subscribers(bus, events[0].body.Kind())) + Due(bus, events[1..], d)
  }

  lemma {:induction false} DueConcat(bus: Bus, a: seq<Event>, b: seq<Event>, d: Delivery)
    ensures Due(bus, a + b, d) == Due(bus, a, d) + Due(bus, b, d)
  {
    if a == [] { assert a + b == b; }
    else { assert (a + b)[1..] == a[1..] + b; DueConcat(bus, a[1..], b, d); }
  }

  lemma {:induction false} AskedHandles(e: Event, hs: seq<HandlerId>, d: Delivery)
    requires forall i, j :: 0 <= i < j < |hs| ==> hs[i] != hs[j]
    ensures Asked(Handles(e, hs), d) == One(d.span == e.tracer.span && d.handler in hs)
  {
    if hs != [] {
      assert Handles(e, hs)[1..] == Handles(e, hs[1..]);
      AskedHandles(e, hs[1..], d);
    }
  }

  lemma {:induction false} AskedDos(who: Who, actions: seq<Action>, d: Delivery)
    ensures Asked(Dos(who, actions), d) == 0
  {
    if actions != [] {
      assert Dos(who, actions)[1..] == Dos(who, actions[1..]);
      AskedDos(who, actions[1..], d);
    }
  }

  lemma TimesAppend(delivered: seq<Delivery>, x: Delivery, d: Delivery)
    ensures Times(delivered + [x], d) == Times(delivered, d) + One(x == d)
  {
    assert (delivered + [x])[..|delivered|] == delivered;
  }

  /** The deliveries of a run are those its tasks ask for and those its new events call for. */
  lemma {:induction false} RunDelivers(bus: Bus, v: View, tasks: seq<Task>, d: Delivery, v': View)
    requires WellFormed(bus) && Run(bus, v, tasks) == Success(v')
    ensures v.db.log <= v'.db.log
    ensures Times(v'.delivered, d) == Times(v.delivered, d) + Asked(tasks, d) + Due(bus, v'.db.log[|v.db.log|..], d)
    decreases MaxRank(bus, tasks), |tasks|
  {
    if tasks != [] {
      StepDelivers(bus, v, tasks[0], d);
      RunDescends(bus, v, tasks);
      var (v1, children) := Step(bus, v, tasks[0]).value;
      var v2 := Run(bus, v1, children).value;
      RunDelivers(bus, v1, children, d, v2);
      RunDelivers(bus, v2, tasks[1..], d, v');
      JoinDue(bus, v.db.log, v1.db.log, v2.db.log, v'.db.log, d);
    }
  }

  lemma JoinDue(bus: Bus, log: seq<Event>, log1: seq<Event>, log2: seq<Event>, log3: seq<Event>, d: Delivery)
    requires log <= log1 <= log2 <= log3
    ensures Due(bus, log3[|log|..], d) == Due(bus, log1[|log|..], d) + Due(bus, log2[|log1|..], d) + Due(bus, log3[|log2|..], d)
  {
    var a, b, c := log1[|log|..], log2[|log1|..], log3[|log2|..];
    assert log3[|log|..] == a + b + c;
    DueConcat(bus, a + b, c, d);
    DueConcat(bus, a, b, d);
  }

  /** One step, with the deliveries that its children ask for. */
  lemma StepDelivers(bus: Bus, v: View, t: Task, d: Delivery)
    requires WellFormed(bus) && Step(bus, v, t).Success?
    ensures var (v1, children) := Step(bus, v, t).value;
            && v.db.log <= v1.db.log
            && Times(v1.delivered, d) + Asked(children, d)
               == Times(v.delivered, d) + One(t.Handle? && d == Delivery(t.event.tracer.span, t.handler)) + Due(bus, v1.db.log[|v.db.log|..], d)
  {
    StepLogs(bus, v, t);
    match t
    case Handle(e, h) =>
      TimesAppend(v.delivered, Delivery(e.tracer.span, h), d);
      AskedDos(Handler, bus.react(h, e), d);
    case Do(who, a) =>
      if !a.Notify? {
        var v1 := Step(bus, v, t).value.0;
        var e := v1.db.log[|v.db.log|];
        var s := Subscribers(bus, e.body.Kind());
        assert Enumerates(bus.order(e, s), s);
        AskedHandles(e, bus.order(e, s), d);
        assert v1.db.log[|v.db.log|..] == [e] && [e][1..] == [];
      }
  }

  lemma {:induction false} DueDistinct(bus: Bus, events: seq<Event>, d: Delivery)
    requires forall i, j :: 0 <= i < j < |events| ==> events[i].tracer.span != events[j].tracer.span
    ensures Due(bus, events, d) ==
            One(exists i :: 0 <= i < |events| && events[i].tracer.span == d.span && d.handler in Subscribers(bus, events[i].body.Kind()))
  {
    if events != [] {
      DueDistinct(bus, events[1..], d);
      if i :| 0 <= i < |events[1..]| && events[1..][i].tracer.span == d.span && d.handler in Subscribers(bus, events[1..][i].body.Kind()) {
        assert events[i + 1].tracer.span == d.span;
      }
      if i :| 0 <= i < |events| && events[i].tracer.span == d.span && d.handler in Subscribers(bus, events[i].body.Kind()) {
        if i > 0 { assert events[1..][i - 1] == events[i]; }
      }
    }
  }

  /** In a call that ends well, each event it logged reached each of its subscribers exactly
      once, whether subscribed to its kind, to all events or to both, and reached nobody else. */
  lemma EachSubscriberOnce(bus: Bus, request: nat, db: DB, r: Request, stale: Slot, v': View, i: nat, h: HandlerId)
    requires WellFormed(bus) && Consistent(db, request, 0)
    requires Serve(bus, request, db, r, stale) == Success(v')
    requires |db.log| <= i < |v'.db.log|
    ensures Times(v'.delivered, Delivery(v'.db.log[i].tracer.span, h)) == One(h in Subscribers(bus, v'.db.log[i].body.Kind()))
  {
    var v := Begin(request, db, r.trace, stale);
    var d := Delivery(v'.db.log[i].tracer.span, h);
    ServeKeepsConsistent(bus, request, db, r, stale, v');
    RunDelivers(bus, v, Dos(Caller, r.actions), d, v');
    AskedDos(Caller, r.actions, d);
    var new_ := v'.db.log[|db.log|..];
    DueDistinct(bus, new_, d);
    assert new_[i - |db.log|] == v'.db.log[i];
  }
}
