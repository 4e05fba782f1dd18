/** The two handlers this service registers, and what each command comes to with them. */
module Handlers {
  import opened Wrappers
  import opened Domain
  import opened Cascade
  import opened Consistency
  import opened Tracing

  const CREATED_HANDLER: HandlerId := 0
  const VOIDED_HANDLER: HandlerId := 1

  function Suffixed(vo: ValueObject): ValueObject {
    ValueObject(vo.propertyA + "_test_event_handler", vo.propertyB)
  }

  function Reaction(h: HandlerId, e: Event): seq<Action> {
    if h == CREATED_HANDLER && e.body.Created? then [Update(e.body.id, Suffixed(e.body.vo), e.body.doer)]
    else if h == VOIDED_HANDLER && e.body.Voided? then [Notify(e.body.id)]
    else []
  }

  /** The bus with the registered handlers, whatever the order in which sets are iterated. */
  ghost predicate Registered(bus: Bus) {
    && WellFormed(bus)
    && bus.forEvents == map[CreatedKind := {CREATED_HANDLER}, VoidedKind := {VOIDED_HANDLER}] && bus.forAll == {}
    && forall h, e :: bus.react(h, e) == Reaction(h, e)
  }

  /** There is such a bus for every order: creation ranks above the update that it leads to. */
  lemma RegisteredInAnyOrder(order: (Event, set<HandlerId>) -> seq<HandlerId>) returns (bus: Bus)
    requires forall e, s :: Enumerates(order(e, s), s)
    ensures Registered(bus) && bus.order == order
  {
    bus := Bus(map[CreatedKind := {CREATED_HANDLER}, VoidedKind := {VOIDED_HANDLER}], {},
               (h: HandlerId, e: Event) => Reaction(h, e), order, (kind: Kind) => if kind == CreatedKind then 1 else 0);
  }

  /** One handler for a creation, one for a voiding, none for the rest. */
  lemma ServiceDeliveries(bus: Bus, e: Event)
    requires Registered(bus)
    ensures Deliveries(bus, e) == if e.body.Created? then [Handle(e, CREATED_HANDLER)]
                                                else if e.body.Voided? then [Handle(e, VOIDED_HANDLER)] else []
  {
    var s := Subscribers(bus, e.body.Kind());
    var hs := bus.order(e, s);
    assert Enumerates(hs, s);
    if e.body.Created? {
      assert s == {CREATED_HANDLER};
      EnumeratesOne(hs, CREATED_HANDLER);
    } else if e.body.Voided? {
      assert s == {VOIDED_HANDLER};
      EnumeratesOne(hs, VOIDED_HANDLER);
    } else {
      assert s == {};
      EnumeratesNone(hs);
    }
  }

  // ---------- what each command comes to ----------

  /** One more event is logged, with this body. */
  ghost predicate Logged(log: seq<Event>, log': seq<Event>, body: Body) {
    |log'| == |log| + 1 && log <= log' && log'[|log|].body == body
  }

  /** Creating an aggregate ends with the value object that the created handler wrote over the
      given one, two history entries and two events, under every handler order. */
  lemma CreateOutcome(bus: Bus, v: View, vo: ValueObject, doer: User)
    requires Registered(bus)
    requires v.Fresh() !in v.db.rows
    ensures var r := Run(bus, v, [Do(Caller, Create(vo, doer))]);
            var suffixed := ValueObject(vo.propertyA + "_test_event_handler", vo.propertyB);
            && r.Success? && r.value.pushed == v.pushed
            && |r.value.db.log| == |v.db.log| + 2 && v.db.log <= r.value.db.log
            && r.value.db.log[|v.db.log|].body == Created(v.Fresh(), vo, doer)
            && r.value.db.log[|v.db.log| + 1].body == Updated(v.Fresh(), suffixed, doer)
            && r.value.db.rows == v.db.rows[v.Fresh() := Row(suffixed, StatusCreated, CreatedHistories(vo, suffixed, doer), doer)]
  {
    var id := v.Fresh();
    RunCommand(bus, v, Caller, Create(vo, doer));
    var (v1, e) := Execute(v, Caller, Create(vo, doer)).value;
    ServiceDeliveries(bus, e);
    RunOne(bus, v1, Handle(e, CREATED_HANDLER));
    var update := Update(id, Suffixed(vo), doer);
    var (v2, tasks) := Step(bus, v1, Handle(e, CREATED_HANDLER)).value;
    assert tasks == [Do(Handler, update)];
    QuietOutcome(bus, v2, Handler, update);
    var v3 := Execute(v2, Handler, update).value.0;
    SuffixChanges(vo);
    assert v3.db.rows[id].histories == CreatedHistories(vo, Suffixed(vo), doer);
    assert v3.db.rows == v.db.rows[id := v3.db.rows[id]];
  }

  lemma SuffixChanges(vo: ValueObject)
    ensures Suffixed(vo) != vo
  {
    assert |Suffixed(vo).propertyA| > |vo.propertyA|;
  }

  function CreatedHistories(before: ValueObject, after: ValueObject, doer: User): seq<History> {
    [History(HistoryCreated, [], doer),
     History(HistoryUpdated, [Change("your_value_object", ValueDatum(before), ValueDatum(after))], doer)]
  }

  /** Updates and deletions set nothing off. */
  lemma QuietOutcome(bus: Bus, v: View, who: Who, a: Action)
    requires Registered(bus)
    requires a.Update? || a.Delete?
    ensures var r := Execute(v, who, a);
            Run(bus, v, [Do(who, a)]) == if r.Failure? then Failure(r.error) else Success(r.value.0)
  {
    RunCommand(bus, v, who, a);
    var r := Execute(v, who, a);
    if r.Success? { ServiceDeliveries(bus, r.value.1); }
  }

  /** An update is refused if there is no such aggregate, or it is voided. Otherwise it replaces the
      value object, adds a history entry with the value before and after, unless they are equal, and
      logs one event. */
  lemma UpdateOutcome(bus: Bus, v: View, id: Uuid, vo: ValueObject, doer: User)
    requires Registered(bus)
    ensures var r := Run(bus, v, [Do(Caller, Update(id, vo, doer))]);
            if id !in v.db.rows then r == Failure(NotFound)
            else if v.db.rows[id].status == StatusVoided then r == Failure(StatusNotMatched)
            else
              var row := v.db.rows[id];
              var data := if row.vo == vo then [] else [Change("your_value_object", ValueDatum(row.vo), ValueDatum(vo))];
              && r.Success? && r.value.pushed == v.pushed && Logged(v.db.log, r.value.db.log, Updated(id, vo, doer))
              && r.value.db.rows == v.db.rows[id := Row(vo, StatusCreated, row.histories + [History(HistoryUpdated, data, doer)], row.creator)]
  {
    QuietOutcome(bus, v, Caller, Update(id, vo, doer));
  }

  /** A deletion is refused only if there is no such aggregate. Otherwise the row goes, and one event
      names who deleted it. */
  lemma DeleteOutcome(bus: Bus, v: View, id: Uuid, doer: User)
    requires Registered(bus)
    ensures var r := Run(bus, v, [Do(Caller, Delete(id, doer))]);
            if id !in v.db.rows then r == Failure(NotFound)
            else && r.Success? && r.value.pushed == v.pushed && Logged(v.db.log, r.value.db.log, Deleted(id, doer))
                 && r.value.db.rows == v.db.rows - {id}
  {
    QuietOutcome(bus, v, Caller, Delete(id, doer));
  }

  /** Voiding is refused as an update is. Otherwise it pushes exactly one notification, for the
      aggregate it voids, changes the status, adds a history entry and logs one event. */
  lemma VoidOutcome(bus: Bus, v: View, id: Uuid, doer: User)
    requires Registered(bus)
    ensures var r := Run(bus, v, [Do(Caller, Void(id, doer))]);
            if id !in v.db.rows then r == Failure(NotFound)
            else if v.db.rows[id].status == StatusVoided then r == Failure(StatusNotMatched)
            else
              var row := v.db.rows[id];
              var entry := History(HistoryVoided, [Change("status", StatusDatum(StatusCreated), StatusDatum(StatusVoided))], doer);
              && r.Success? && r.value.pushed == v.pushed + [id] && Logged(v.db.log, r.value.db.log, Voided(id, doer))
              && r.value.db.rows == v.db.rows[id := Row(row.vo, StatusVoided, row.histories + [entry], row.creator)]
  {
    RunVoid(bus, v, id, doer);
  }

  lemma RunVoid(bus: Bus, v: View, id: Uuid, doer: User)
    requires Registered(bus)
    ensures var r, x := Run(bus, v, [Do(Caller, Void(id, doer))]), Execute(v, Caller, Void(id, doer));
            if x.Failure? then r == Failure(x.error)
            else r.Success? && r.value.pushed == v.pushed + [id] && r.value.db == x.value.0.db
  {
    RunCommand(bus, v, Caller, Void(id, doer));
    var x := Execute(v, Caller, Void(id, doer));
    if x.Success? {
      var (v1, e) := x.value;
      ServiceDeliveries(bus, e);
      RunOne(bus, v1, Handle(e, VOIDED_HANDLER));
      var (v2, tasks) := Step(bus, v1, Handle(e, VOIDED_HANDLER)).value;
      assert tasks == [Do(Handler, Notify(id))];
      RunOne(bus, v2, tasks[0]);
    }
  }

  // ---------- what a call logs, and when it fails ----------

  /** What the commands of a batch log, in order: a creation its event and the update to the suffixed
      value, every other command its own event, by whoever asked for it. */
  ghost predicate Records(request: nat, actions: seq<Action>, events: seq<Event>)
    decreases |actions|
  {
    if actions == [] then events == []
    else
      match actions[0]
      case Create(vo, doer) =>
        && |events| >= 2 && events[0].body.id.request == request
        && events[0].body == Created(events[0].body.id, vo, doer)
        && events[1].body == Updated(events[0].body.id, ValueObject(vo.propertyA + "_test_event_handler", vo.propertyB), doer)
        && Records(request, actions[1..], events[2..])
      case Update(id, vo, doer) => events != [] && events[0].body == Updated(id, vo, doer) && Records(request, actions[1..], events[1..])
      case Void(id, doer) => events != [] && events[0].body == Voided(id, doer) && Records(request, actions[1..], events[1..])
      case Delete(id, doer) => events != [] && events[0].body == Deleted(id, doer) && Records(request, actions[1..], events[1..])
      case Notify(_) => Records(request, actions[1..], events)
  }

  /** The events that one command logs, of which the first has its body. */
  lemma CommandRecords(bus: Bus, v: View, a: Action, v': View)
    requires Registered(bus) && !a.Notify? && Consistent(v.db, v.request, v.next)
    requires Run(bus, v, [Do(Caller, a)]) == Success(v')
    ensures v'.request == v.request && Consistent(v'.db, v'.request, v'.next)
    ensures v.db.log <= v'.db.log && |v'.db.log| - |v.db.log| == (if a.Create? then 2 else 1)
    ensures Records(v.request, [a], v'.db.log[|v.db.log|..])
  {
    RunKeepsConsistent(bus, v, [Do(Caller, a)], v');
    assert [a][1..] == [];
    match a
    case Create(vo, doer) =>
      if v.Fresh() in v.db.rows { RowsAreOlder(v.db, v.request, v.next, v.Fresh()); }
      CreateOutcome(bus, v, vo, doer);
    case Update(id, vo, doer) => UpdateOutcome(bus, v, id, vo, doer);
    case Void(id, doer) => VoidOutcome(bus, v, id, doer);
    case Delete(id, doer) => DeleteOutcome(bus, v, id, doer);
  }

  lemma RecordsMore(request: nat, actions: seq<Action>, first: seq<Event>, rest: seq<Event>)
    requires actions != [] && !actions[0].Notify? && |first| == (if actions[0].Create? then 2 else 1)
    requires Records(request, [actions[0]], first) && Records(request, actions[1..], rest)
    ensures Records(request, actions, first + rest)
  {
    assert (first + rest)[|first|..] == rest;
  }

  lemma TailSplits(a: seq<Event>, b: seq<Event>, c: seq<Event>)
    requires a <= b <= c
    ensures c[|a|..] == b[|a|..] + c[|b|..]
  {
  }

  lemma {:induction false} BatchRecords(bus: Bus, v: View, actions: seq<Action>, v': View)
    requires Registered(bus) && (forall a :: a in actions ==> !a.Notify?) && Consistent(v.db, v.request, v.next)
    requires Run(bus, v, Dos(Caller, actions)) == Success(v')
    ensures v.db.log <= v'.db.log && Records(v.request, actions, v'.db.log[|v.db.log|..])
    decreases |actions|
  {
    if actions != [] {
      var tasks := Dos(Caller, actions);
      assert tasks[1..] == Dos(Caller, actions[1..]);
      RunFirst(bus, v, tasks);
      var v1 := Run(bus, v, [tasks[0]]).value;
      CommandRecords(bus, v, actions[0], v1);
      BatchRecords(bus, v1, actions[1..], v');
      var first, rest := v1.db.log[|v.db.log|..], v'.db.log[|v1.db.log|..];
      RecordsMore(v.request, actions, first, rest);
      TailSplits(v.db.log, v1.db.log, v'.db.log);
    }
  }

  /** What a call that goes well logs, told by its request alone. */
  lemma ServeRecords(bus: Bus, request: nat, db: DB, r: Request, stale: Slot, v': View)
    requires Registered(bus) && (forall a :: a in r.actions ==> !a.Notify?) && Consistent(db, request, 0)
    requires Serve(bus, request, db, r, stale) == Success(v')
    ensures db.log <= v'.db.log && Records(request, r.actions, v'.db.log[|db.log|..])
  {
    var v := Begin(request, db, r.trace, stale);
    LaterConsistent(db, request, 0, request, v.next);
    BatchRecords(bus, v, r.actions, v');
  }

  /** A call of one command fails exactly if its aggregate is missing, or is voided and not to be
      deleted. */
  lemma ServeFailsIff(bus: Bus, request: nat, db: DB, trace: Option<string>, stale: Slot, a: Action)
    requires Registered(bus) && !a.Notify? && Consistent(db, request, 0)
    ensures var r := Serve(bus, request, db, Request([a], trace, None), stale);
            if !a.Create? && a.id !in db.rows then r == Failure(NotFound)
            else if (a.Update? || a.Void?) && db.rows[a.id].status == StatusVoided then r == Failure(StatusNotMatched)
            else r.Success?
  {
    var v := Begin(request, db, trace, stale);
    assert Dos(Caller, [a]) == [Do(Caller, a)];
    match a
    case Create(vo, doer) =>
      if v.Fresh() in db.rows { RowsAreOlder(db, request, 0, v.Fresh()); }
      CreateOutcome(bus, v, vo, doer);
    case Update(id, vo, doer) => UpdateOutcome(bus, v, id, vo, doer);
    case Void(id, doer) => VoidOutcome(bus, v, id, doer);
    case Delete(id, doer) => DeleteOutcome(bus, v, id, doer);
  }

  /** A call that only reads fails exactly if what it asks for is missing, and changes nothing; one
      that neither reads nor makes a command fails. */
  lemma ReadOutcome(bus: Bus, request: nat, db: DB, trace: Option<string>, stale: Slot, read: Reading)
    requires WellFormed(bus)
    ensures var r := Serve(bus, request, db, Request([], trace, Some(read)), stale);
            if read.GetOne? && read.id !in db.rows then r == Failure(NotFound)
            else r.Success? && r.value.db == db && r.value.pushed == [] && r.value.delivered == []
    ensures Serve(bus, request, db, Request([], trace, None), stale) == Failure(EmptyBatch)
  {
    assert Dos(Caller, []) == [];
  }

  // ---------- traces ----------

  lemma RegisteredSaveOnce(bus: Bus)
    requires Registered(bus)
    ensures HandlersSaveOnce(bus)
  {
  }

  /** With the registered handlers, all events of a call share the trace of its request exactly if it
      makes one command, or none. */
  lemma CallsShareTheTrace(bus: Bus, request: nat, db: DB, r: Request, stale: Slot, v': View)
    requires Registered(bus) && forall a :: a in r.actions ==> !a.Notify?
    requires r.trace.Some? && r.trace.value != "" && Serve(bus, request, db, r, stale) == Success(v')
    ensures (forall i :: |db.log| <= i < |v'.db.log| ==> v'.db.log[i].tracer.trace == Given(r.trace.value)) <==> |r.actions| <= 1
  {
    RegisteredSaveOnce(bus);
    OneTraceIffOneCommand(bus, request, db, r, stale, v');
  }
}
