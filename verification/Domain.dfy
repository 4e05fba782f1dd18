/** The values of the bounded context: aggregate rows, domain events, archives, and the
    meaning of an event log as the state of every aggregate it mentions. */
module Domain {
  import opened Wrappers

  /** A generated identifier. `request` numbers the controller call that drew it, so what one
      call draws never depends on how many identifiers another call drew. */
  datatype Uuid = Uuid(request: nat, index: nat)

  /** u was drawn before the next-th identifier of the given request. */
  predicate Older(u: Uuid, request: nat, next: nat) {
    u.request < request || (u.request == request && u.index < next)
  }

  datatype User = User(id: string, name: string)
  datatype ValueObject = ValueObject(propertyA: string, propertyB: int)
  datatype Status = StatusCreated | StatusVoided

  datatype HistoryKind = HistoryCreated | HistoryUpdated | HistoryVoided
  datatype Datum = StatusDatum(status: Status) | ValueDatum(value: ValueObject)
  datatype Change = Change(field: string, before: Datum, after: Datum)
  datatype History = History(kind: HistoryKind, data: seq<Change>, doer: User)

  datatype Row = Row(vo: ValueObject, status: Status, histories: seq<History>, creator: User)

  datatype Kind = CreatedKind | UpdatedKind | VoidedKind | DeletedKind

  datatype Body =
    | Created(id: Uuid, vo: ValueObject, doer: User)
    | Updated(id: Uuid, vo: ValueObject, doer: User)
    | Voided(id: Uuid, doer: User)
    | Deleted(id: Uuid, doer: User)
  {
    function Kind(): Kind {
      match this
      case Created(_, _, _) => CreatedKind
      case Updated(_, _, _) => UpdatedKind
      case Voided(_, _) => VoidedKind
      case Deleted(_, _) => DeletedKind
    }
  }

  datatype TraceId = Generated(uuid: Uuid) | Given(text: string)
  datatype Tracer = Tracer(span: Uuid, parent: Option<Uuid>, trace: TraceId)
  datatype Event = Event(body: Body, tracer: Tracer)

  datatype Archive = Archive(archiveId: Uuid, id: Uuid, row: Row, doer: User,
                             kind: Kind, span: Uuid, trace: TraceId)

  datatype DB = DB(rows: map<Uuid, Row>, archives: seq<Archive>, log: seq<Event>)

  const EMPTY_DB := DB(map[], [], [])

  /** A change is recorded only when it changes something. */
  function Changed(field: string, before: Datum, after: Datum): seq<Change> {
    if before == after then [] else [Change(field, before, after)]
  }

  function UpdateEntry(before: ValueObject, after: ValueObject, doer: User): History {
    History(HistoryUpdated, Changed("your_value_object", ValueDatum(before), ValueDatum(after)), doer)
  }

  function VoidEntry(before: Status, doer: User): History {
    History(HistoryVoided, Changed("status", StatusDatum(before), StatusDatum(StatusVoided)), doer)
  }

  // ---------- the meaning of an event log ----------

  /** The life of one aggregate. `Stuck` marks a log that no run should produce: a second
      creation, or a change to an aggregate that is absent, deleted or voided. */
  datatype Life = Absent | Live(row: Row) | Gone | Stuck

  function Apply(life: Life, body: Body): Life {
    match body
    case Created(_, vo, doer) =>
      if life.Absent? then Live(Row(vo, StatusCreated, [History(HistoryCreated, [], doer)], doer)) else Stuck
    case Updated(_, vo, doer) =>
      if life.Live? && life.row.status == StatusCreated then
        Live(life.row.(vo := vo, histories := life.row.histories + [UpdateEntry(life.row.vo, vo, doer)]))
      else Stuck
    case Voided(_, doer) =>
      if life.Live? && life.row.status == StatusCreated then
        Live(life.row.(status := StatusVoided, histories := life.row.histories + [VoidEntry(life.row.status, doer)]))
      else Stuck
    case Deleted(_, _) =>
      if life.Live? then Gone else Stuck
  }

  /** The fold of one aggregate's events, in log order. */
  function Replay(id: Uuid, log: seq<Event>): Life {
    if log == [] then Absent
    else
      var before := Replay(id, log[..|log| - 1]);
      var body := log[|log| - 1].body;
      if body.id == id then Apply(before, body) else before
  }

  lemma ReplayAppend(id: Uuid, log: seq<Event>, e: Event)
    ensures Replay(id, log + [e]) == if e.body.id == id then Apply(Replay(id, log), e.body) else Replay(id, log)
  {
    assert (log + [e])[..|log|] == log;
  }

  /** The value object of the last creation or update of `id`. */
  function LastValue(id: Uuid, log: seq<Event>): Option<ValueObject> {
    if log == [] then None
    else
      var body := log[|log| - 1].body;
      if body.id == id && (body.Created? || body.Updated?) then Some(body.vo)
      else LastValue(id, log[..|log| - 1])
  }

  /** Who created `id`. */
  function CreatorOf(id: Uuid, log: seq<Event>): Option<User> {
    if log == [] then None
    else
      var body := log[|log| - 1].body;
      if body.id == id && body.Created? then Some(body.doer) else CreatorOf(id, log[..|log| - 1])
  }

  /** The history entries that the events of `id` stand for: one per event that is not a deletion, in
      log order, each done by the event's doer. An update records the value there was before and its
      own, unless they are equal; a voiding records the change of status. */
  function Entries(id: Uuid, log: seq<Event>): seq<History> {
    if log == [] then []
    else
      var front, body := log[..|log| - 1], log[|log| - 1].body;
      if body.id != id then Entries(id, front)
      else
        match body
        case Created(_, _, doer) => Entries(id, front) + [History(HistoryCreated, [], doer)]
        case Updated(_, vo, doer) =>
          var was := LastValue(id, front);
          Entries(id, front) +
          [History(HistoryUpdated,
                   if was == None || was == Some(vo) then []
                   else [Change("your_value_object", ValueDatum(was.value), ValueDatum(vo))],
                   doer)]
        case Voided(_, doer) =>
          Entries(id, front) + [History(HistoryVoided, [Change("status", StatusDatum(StatusCreated), StatusDatum(StatusVoided))], doer)]
        case Deleted(_, _) => Entries(id, front)
  }

  predicate MentionsVoid(id: Uuid, log: seq<Event>) {
    exists i :: 0 <= i < |log| && log[i].body.Voided? && log[i].body.id == id
  }

  /** What a live row holds, read off the log without folding it: the last value written, voided
      exactly when a void was logged, the creator, and the history entries the events stand for. */
  lemma {:induction false} ReplayMeaning(id: Uuid, log: seq<Event>)
    ensures var life := Replay(id, log);
            && (life.Absent? ==> forall i :: 0 <= i < |log| ==> log[i].body.id != id)
            && (life.Live? ==>
                  && LastValue(id, log) == Some(life.row.vo)
                  && CreatorOf(id, log) == Some(life.row.creator)
                  && (life.row.status == StatusVoided <==> MentionsVoid(id, log))
                  && life.row.histories == Entries(id, log))
  {
    if log != [] {
      var front, last := log[..|log| - 1], log[|log| - 1];
      ReplayMeaning(id, front);
      assert forall i :: 0 <= i < |log| ==> log[i] == if i < |front| then front[i] else last;
      if Replay(id, front).Absent? { NothingSaid(id, front); }
      VoidMentioned(id, front, last);
      assert log == front + [last];
    }
  }

  lemma VoidMentioned(id: Uuid, front: seq<Event>, last: Event)
    ensures MentionsVoid(id, front + [last]) <==> MentionsVoid(id, front) || (last.body.Voided? && last.body.id == id)
  {
    var log := front + [last];
    assert log[|front|] == last && forall i :: 0 <= i < |front| ==> log[i] == front[i];
  }

  lemma {:induction false} NothingSaid(id: Uuid, log: seq<Event>)
    requires forall i :: 0 <= i < |log| ==> log[i].body.id != id
    ensures Entries(id, log) == [] && CreatorOf(id, log) == None && LastValue(id, log) == None && !MentionsVoid(id, log)
  {
    if log != [] { NothingSaid(id, log[..|log| - 1]); }
  }
}
