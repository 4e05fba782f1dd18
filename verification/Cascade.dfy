/** The reference meaning of a use case call: what it does to the data when nothing fails
    underneath it. No session, no transaction, no nesting of scopes, no fault: only the guards
    of the aggregate, the rows written, and the cascade of subscribed handlers. */
module Cascade {
  import opened Wrappers
  import opened Domain

  datatype Exn = NotFound | StatusNotMatched | EmptyBatch | Integrity | Sql | CommitError | CloseError | Cancelled

  datatype Action =
    | Create(vo: ValueObject, doer: User)
    | Update(id: Uuid, vo: ValueObject, doer: User)
    | Void(id: Uuid, doer: User)
    | Delete(id: Uuid, doer: User)
    | Notify(id: Uuid)  // load, and push a message if the aggregate is voided

  /** The two use case objects: the controller's and the event handlers'. */
  datatype Who = Caller | Handler

  /** The one-shot tracing slots of a use case object. */
  datatype Slot = Slot(parent: Option<Event>, trace: Option<TraceId>)

  type HandlerId = nat

  /** The event bus, the reaction of every handler, and the order in which a set of handlers
      is iterated, which the language leaves open. */
  datatype Bus = Bus(forEvents: map<Kind, set<HandlerId>>,
                     forAll: set<HandlerId>,
                     react: (HandlerId, Event) -> seq<Action>,
                     order: (Event, set<HandlerId>) -> seq<HandlerId>,
                     rank: Kind -> nat)

  function EventFuncs(forEvents: map<Kind, set<HandlerId>>, forAll: set<HandlerId>, kind: Kind): set<HandlerId> {
    (if kind in forEvents then forEvents[kind] else {}) + forAll
  }

  function Subscribers(bus: Bus, kind: Kind): set<HandlerId> {
    EventFuncs(bus.forEvents, bus.forAll, kind)
  }

  function EmittedKind(a: Action): Kind
    requires !a.Notify?
  {
    match a
    case Create(_, _) => CreatedKind
    case Update(_, _, _) => UpdatedKind
    case Void(_, _) => VoidedKind
    case Delete(_, _) => DeletedKind
  }

  ghost predicate Enumerates(hs: seq<HandlerId>, s: set<HandlerId>) {
    && (forall h :: h in hs <==> h in s)
    && (forall i, j :: 0 <= i < j < |hs| ==> hs[i] != hs[j])
  }

  lemma EnumeratesNone(hs: seq<HandlerId>)
    requires Enumerates(hs, {})
    ensures hs == []
  {
    FirstTwoIn(hs);
  }

  lemma FirstTwoIn(hs: seq<HandlerId>)
    ensures |hs| < 1 || hs[0] in hs
    ensures |hs| < 2 || hs[1] in hs
  {
  }

  lemma EnumeratesOne(hs: seq<HandlerId>, h: HandlerId)
    requires Enumerates(hs, {h})
    ensures hs == [h]
  {
    assert h in hs;
    FirstTwoIn(hs);
  }

  /** Every handler reacts to an event by emitting only events of smaller rank, and a set of
      handlers is iterated in some order, each handler once. */
  ghost predicate WellFormed(bus: Bus) {
    && (forall h, e, a :: a in bus.react(h, e) && !a.Notify? ==> bus.rank(EmittedKind(a)) < bus.rank(e.body.Kind()))
    && (forall e, s :: Enumerates(bus.order(e, s), s))
  }

  datatype Delivery = Delivery(span: Uuid, handler: HandlerId)

  /** Everything a call reads and writes. `pushed` lists the aggregate ids put in the message
      buffer, `delivered` every (event, handler) pair in the order the bus ran them. */
  datatype View = View(request: nat, next: nat, db: DB, pushed: seq<Uuid>, delivered: seq<Delivery>,
                       caller: Slot, handler: Slot)
  {
    function SlotOf(who: Who): Slot {
      if who.Caller? then caller else handler
    }
    function WithSlot(who: Who, slot: Slot): View {
      if who.Caller? then this.(caller := slot) else this.(handler := slot)
    }
    function Fresh(): Uuid {
      Uuid(request, next)
    }
  }

  function Stamp(slot: Slot, span: Uuid): Tracer {
    if slot.parent.Some? then Tracer(span, Some(slot.parent.value.tracer.span), slot.parent.value.tracer.trace)
    else if slot.trace.Some? then Tracer(span, None, slot.trace.value)
    else Tracer(span, None, Generated(span))
  }

  function Consume(slot: Slot): Slot {
    if slot.parent.Some? then slot.(parent := None) else slot.(trace := None)
  }

  /** A row that exists keeps its creator. */
  function KeepCreator(rows: map<Uuid, Row>, id: Uuid, row: Row): Row {
    row.(creator := if id in rows then rows[id].creator else row.creator)
  }

  /** One saved event: the row as it is after the event (or just before its removal) is
      archived, the event is logged, and the tracing slot is used up. */
  function Record(v: View, who: Who, body: Body, changed: Row): (View, Event) {
    var row := KeepCreator(v.db.rows, body.id, changed);
    var slot := v.SlotOf(who);
    var e := Event(body, Stamp(slot, v.Fresh()));
    var archive := Archive(Uuid(v.request, v.next + 1), body.id, row, body.doer, body.Kind(), e.tracer.span, e.tracer.trace);
    var rows := if body.Deleted? then map id | id in v.db.rows && id != body.id :: v.db.rows[id]
                else v.db.rows[body.id := row];
    (v.(db := DB(rows, v.db.archives + [archive], v.db.log + [e]), next := v.next + 2)
     .WithSlot(who, Consume(slot)), e)
  }

  /** A command of the use case, up to but not including the publication of its event. */
  function Execute(v: View, who: Who, a: Action): Result<(View, Event), Exn>
    requires !a.Notify?
  {
    if a.Create? then
      var id := v.Fresh();
      Success(Record(v.(next := v.next + 1), who, Created(id, a.vo, a.doer),
                     Row(a.vo, StatusCreated, [History(HistoryCreated, [], a.doer)], a.doer)))
    else if a.id !in v.db.rows then Failure(NotFound)
    else
      var row := v.db.rows[a.id];
      match a
      case Delete(id, doer) => Success(Record(v, who, Deleted(id, doer), row))
      case Update(id, vo, doer) =>
        if row.status == StatusVoided then Failure(StatusNotMatched)
        else Success(Record(v, who, Updated(id, vo, doer),
                            row.(vo := vo, histories := row.histories + [UpdateEntry(row.vo, vo, doer)])))
      case Void(id, doer) =>
        if row.status == StatusVoided then Failure(StatusNotMatched)
        else Success(Record(v, who, Voided(id, doer),
                            row.(status := StatusVoided, histories := row.histories + [VoidEntry(row.status, doer)])))
  }

  // ---------- the cascade ----------

  datatype Task = Do(who: Who, action: Action) | Handle(event: Event, handler: HandlerId)

  function TaskRank(bus: Bus, t: Task): nat {
    match t
    case Do(_, a) => if a.Notify? then 1 else 2 * bus.rank(EmittedKind(a)) + 3
    case Handle(e, _) => 2 * bus.rank(e.body.Kind()) + 2
  }

  function MaxRank(bus: Bus, tasks: seq<Task>): (m: nat)
    ensures forall t :: t in tasks ==> TaskRank(bus, t) <= m
    ensures m == 0 || exists t :: t in tasks && TaskRank(bus, t) == m
  {
    if tasks == [] then 0
    else
      var rest := MaxRank(bus, tasks[1..]);
      if rest < TaskRank(bus, tasks[0]) then TaskRank(bus, tasks[0]) else rest
  }

  function Handles(e: Event, hs: seq<HandlerId>): (ts: seq<Task>)
    ensures |ts| == |hs|
    ensures forall i :: 0 <= i < |hs| ==> ts[i] == Handle(e, hs[i])
  {
    seq(|hs|, i requires 0 <= i < |hs| => Handle(e, hs[i]))
  }

  function Dos(who: Who, actions: seq<Action>): (ts: seq<Task>)
    ensures |ts| == |actions|
    ensures forall i :: 0 <= i < |actions| ==> ts[i] == Do(who, actions[i])
  {
    seq(|actions|, i requires 0 <= i < |actions| => Do(who, actions[i]))
  }

  function Deliveries(bus: Bus, e: Event): seq<Task> {
    Handles(e, bus.order(e, Subscribers(bus, e.body.Kind())))
  }

  /** One task on its own: what it changes, and the tasks that run before anything else does. */
  function Step(bus: Bus, v: View, t: Task): Result<(View, seq<Task>), Exn> {
    match t
    case Handle(e, h) =>
      Success((v.(handler := Slot(Some(e), None), delivered := v.delivered + [Delivery(e.tracer.span, h)]),
               Dos(Handler, bus.react(h, e))))
    case Do(who, Notify(id)) =>
      if id !in v.db.rows then Failure(NotFound)
      else if v.db.rows[id].status == StatusVoided then Success((v.(pushed := v.pushed + [id]), []))
      else Success((v, []))
    case Do(who, a) =>
      match Execute(v, who, a)
      case Failure(x) => Failure(x)
      case Success((v1, e)) => Success((v1, Deliveries(bus, e)))
  }

  lemma StepRanks(bus: Bus, v: View, t: Task)
    requires WellFormed(bus)
    requires Step(bus, v, t).Success?
    ensures MaxRank(bus, Step(bus, v, t).value.1) < TaskRank(bus, t)
  {
    var children := Step(bus, v, t).value.1;
    forall c | c in children ensures TaskRank(bus, c) < TaskRank(bus, t) {
      if t.Handle? {
        assert c.action in bus.react(t.handler, t.event);
      }
    }
  }

  /** What makes the recursion below, and every induction along it, terminate. */
  lemma RunDescends(bus: Bus, v: View, tasks: seq<Task>)
    requires WellFormed(bus) && tasks != [] && Step(bus, v, tasks[0]).Success?
    ensures MaxRank(bus, Step(bus, v, tasks[0]).value.1) < MaxRank(bus, tasks)
    ensures MaxRank(bus, tasks[1..]) <= MaxRank(bus, tasks)
  {
    StepRanks(bus, v, tasks[0]);
    assert tasks[0] in tasks;
  }

  /** Depth-first: everything a task sets off finishes before the next task starts, and the
      first failure ends it all. That this recursion is accepted is the termination of
      publish_all for every well-formed bus. */
  function Run(bus: Bus, v: View, tasks: seq<Task>): Result<View, Exn>
    requires WellFormed(bus)
    decreases MaxRank(bus, tasks), |tasks|
  {
    if tasks == [] then Success(v)
    else
      match Step(bus, v, tasks[0])
      case Failure(x) => Failure(x)
      case Success((v1, children)) =>
        RunDescends(bus, v, tasks);
        match Run(bus, v1, children)
        case Failure(x) => Failure(x)
        case Success(v2) => Run(bus, v2, tasks[1..])
  }

  lemma RunOne(bus: Bus, v: View, t: Task)
    requires WellFormed(bus)
    ensures Run(bus, v, [t]) == match Step(bus, v, t)
                                case Failure(x) => Failure(x)
                                case Success((v1, children)) => Run(bus, v1, children)
  {
    assert [t][1..] == [];
  }

  lemma RunFirst(bus: Bus, v: View, tasks: seq<Task>)
    requires WellFormed(bus) && tasks != []
    ensures Run(bus, v, tasks) == match Run(bus, v, [tasks[0]])
                                  case Failure(x) => Failure(x)
                                  case Success(v1) => Run(bus, v1, tasks[1..])
  {
    RunOne(bus, v, tasks[0]);
  }

  lemma {:induction false} RunConcat(bus: Bus, v: View, a: seq<Task>, b: seq<Task>)
    requires WellFormed(bus)
    ensures Run(bus, v, a + b) == match Run(bus, v, a)
                                  case Failure(x) => Failure(x)
                                  case Success(v1) => Run(bus, v1, b)
    decreases |a|
  {
    if a == [] {
      assert a + b == b;
    } else {
      assert (a + b)[1..] == a[1..] + b;
      RunFirst(bus, v, a);
      RunFirst(bus, v, a + b);
      match Run(bus, v, [a[0]])
      case Failure(_) =>
      case Success(v1) => RunConcat(bus, v1, a[1..], b);
    }
  }

  /** A command on its own is its execution followed by the deliveries of its event. */
  lemma RunCommand(bus: Bus, v: View, who: Who, a: Action)
    requires WellFormed(bus) && !a.Notify?
    ensures var r := Execute(v, who, a);
            Run(bus, v, [Do(who, a)]) == if r.Failure? then Failure(r.error) else Run(bus, r.value.0, Deliveries(bus, r.value.1))
  {
    RunOne(bus, v, Do(who, a));
  }

  lemma RunNotify(bus: Bus, v: View, who: Who, id: Uuid)
    requires WellFormed(bus)
    ensures Run(bus, v, [Do(who, Notify(id))]) ==
            if id !in v.db.rows then Failure(NotFound)
            else if v.db.rows[id].status == StatusVoided then Success(v.(pushed := v.pushed + [id]))
            else Success(v)
  {
    RunOne(bus, v, Do(who, Notify(id)));
  }

  // ---------- a run cut short ----------

  /** A run of the tasks passes through a state with this data and these ids pushed: at its start,
      at its end, or between two of its steps. */
  ghost predicate Passes(bus: Bus, v: View, tasks: seq<Task>, db: DB, pushed: seq<Uuid>)
    requires WellFormed(bus)
    decreases MaxRank(bus, tasks), |tasks|
  {
    || (db == v.db && pushed == v.pushed)
    || (tasks != [] && Step(bus, v, tasks[0]).Success? && PassesStep(bus, v, tasks, db, pushed))
  }

  ghost predicate PassesStep(bus: Bus, v: View, tasks: seq<Task>, db: DB, pushed: seq<Uuid>)
    requires WellFormed(bus) && tasks != [] && Step(bus, v, tasks[0]).Success?
    decreases MaxRank(bus, tasks), |tasks|, 0
  {
    var (v1, children) := Step(bus, v, tasks[0]).value;
    RunDescends(bus, v, tasks);
    || Passes(bus, v1, children, db, pushed)
    || (Run(bus, v1, children).Success? && Passes(bus, Run(bus, v1, children).value, tasks[1..], db, pushed))
  }

  lemma {:induction false} PassesEnd(bus: Bus, v: View, tasks: seq<Task>, v': View)
    requires WellFormed(bus) && Run(bus, v, tasks) == Success(v')
    ensures Passes(bus, v, tasks, v'.db, v'.pushed)
    decreases |tasks|
  {
    if tasks != [] {
      var (v1, children) := Step(bus, v, tasks[0]).value;
      PassesEnd(bus, Run(bus, v1, children).value, tasks[1..], v');
    }
  }

  /** What the children of a single task pass through, it passes through. */
  lemma PassesChildren(bus: Bus, v: View, t: Task, db: DB, pushed: seq<Uuid>)
    requires WellFormed(bus) && Step(bus, v, t).Success?
    requires Passes(bus, Step(bus, v, t).value.0, Step(bus, v, t).value.1, db, pushed)
    ensures Passes(bus, v, [t], db, pushed)
  {
  }

  /** What a front part of the tasks passes through, they pass through. */
  lemma {:induction false} PassesFront(bus: Bus, v: View, a: seq<Task>, b: seq<Task>, db: DB, pushed: seq<Uuid>)
    requires WellFormed(bus) && Passes(bus, v, a, db, pushed)
    ensures Passes(bus, v, a + b, db, pushed)
    decreases |a|
  {
    if !(db == v.db && pushed == v.pushed) {
      var (v1, children) := Step(bus, v, a[0]).value;
      assert (a + b)[0] == a[0] && (a + b)[1..] == a[1..] + b;
      if !Passes(bus, v1, children, db, pushed) {
        PassesFront(bus, Run(bus, v1, children).value, a[1..], b, db, pushed);
      }
      assert PassesStep(bus, v, a + b, db, pushed);
    }
  }

  /** And what the rest passes through once that part is done. */
  lemma {:induction false} PassesBack(bus: Bus, v: View, a: seq<Task>, b: seq<Task>, v1: View, db: DB, pushed: seq<Uuid>)
    requires WellFormed(bus) && Run(bus, v, a) == Success(v1) && Passes(bus, v1, b, db, pushed)
    ensures Passes(bus, v, a + b, db, pushed)
    decreases |a|
  {
    if a == [] {
      assert a + b == b;
    } else {
      var (w, children) := Step(bus, v, a[0]).value;
      assert (a + b)[0] == a[0] && (a + b)[1..] == a[1..] + b;
      PassesBack(bus, Run(bus, w, children).value, a[1..], b, v1, db, pushed);
      assert PassesStep(bus, v, a + b, db, pushed);
    }
  }

  /** Having run part of the tasks from `start`, we are at v with `rest` still to do. */
  ghost predicate Continues(bus: Bus, start: View, tasks: seq<Task>, v: View, rest: seq<Task>)
    requires WellFormed(bus)
  {
    && Run(bus, start, tasks) == Run(bus, v, rest)
    && forall db, pushed :: Passes(bus, v, rest, db, pushed) ==> Passes(bus, start, tasks, db, pushed)
  }

  /** What comes of the next few tasks. */
  lemma ContinuesWith(bus: Bus, start: View, tasks: seq<Task>, v: View, next: seq<Task>, rest: seq<Task>)
    requires WellFormed(bus) && Continues(bus, start, tasks, v, next + rest)
    ensures match Run(bus, v, next)
            case Failure(x) => Run(bus, start, tasks) == Failure(x)
            case Success(v1) => Continues(bus, start, tasks, v1, rest)
    ensures forall db, pushed :: Passes(bus, v, next, db, pushed) ==> Passes(bus, start, tasks, db, pushed)
  {
    RunConcat(bus, v, next, rest);
    forall db, pushed | Passes(bus, v, next, db, pushed) ensures Passes(bus, start, tasks, db, pushed) {
      PassesFront(bus, v, next, rest, db, pushed);
    }
    if Run(bus, v, next).Success? {
      var v1 := Run(bus, v, next).value;
      forall db, pushed | Passes(bus, v1, rest, db, pushed) ensures Passes(bus, start, tasks, db, pushed) {
        PassesBack(bus, v, next, rest, v1, db, pushed);
      }
    }
  }

  // ---------- a controller call ----------

  /** What a call reads for its caller: one aggregate, or whatever a search finds. */
  datatype Reading = GetOne(id: Uuid) | SearchAll

  /** A batch of commands, or a call that only reads and makes none. */
  datatype Request = Request(actions: seq<Action>, trace: Option<string>, read: Option<Reading>)

  predicate Finds(db: DB, read: Reading) {
    read.GetOne? ==> read.id in db.rows
  }

  /** A missing or empty request trace is replaced by a generated one, which uses up an identifier. */
  function Begin(request: nat, db: DB, trace: Option<string>, stale: Slot): View {
    if trace.Some? && trace.value != "" then
      View(request, 0, db, [], [], Slot(None, Some(Given(trace.value))), stale)
    else
      View(request, 1, db, [], [], Slot(None, Some(Generated(Uuid(request, 0)))), stale)
  }

  /** A controller call reads, if it does, and runs its batch in order; an empty batch fails when the
      result is taken. */
  function Serve(bus: Bus, request: nat, db: DB, r: Request, stale: Slot): Result<View, Exn>
    requires WellFormed(bus)
  {
    if r.read.Some? && !Finds(db, r.read.value) then Failure(NotFound)
    else if r.read.None? && r.actions == [] then Failure(EmptyBatch)
    else Run(bus, Begin(request, db, r.trace, stale), Dos(Caller, r.actions))
  }
}
