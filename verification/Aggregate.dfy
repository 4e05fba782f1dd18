/** The aggregate object that a use case mutates, and the one-shot tracing slots it is saved with. */
module Aggregate {
  import opened Wrappers
  import opened Domain
  import opened Cascade

  class YourAggregate {
    const id: Uuid
    const creator: User
    var vo: ValueObject
    var status: Status
    var histories: seq<History>
    var domainEvents: seq<Event>
    var isDelete: bool
    var isArchive: bool

    function AsRow(): Row reads this { Row(vo, status, histories, creator) }

    /** The aggregate as a stored row describes it: no events yet. */
    constructor FromRow(id: Uuid, row: Row)
      ensures this.id == id && AsRow() == row
      ensures domainEvents == [] && !isDelete && !isArchive
    {
      this.id, creator := id, row.creator;
      vo, status, histories := row.vo, row.status, row.histories;
      domainEvents, isDelete, isArchive := [], false, false;
    }

    constructor CreateYourAggregate(id: Uuid, vo: ValueObject, creator: User, span: Uuid)
      ensures this.id == id && AsRow() == Row(vo, StatusCreated, [History(HistoryCreated, [], creator)], creator)
      ensures domainEvents == [Unstamped(Created(id, vo, creator), span)] && !isDelete && isArchive
    {
      this.id, this.creator := id, creator;
      this.vo, status, histories := vo, StatusCreated, [];
      domainEvents, isDelete, isArchive := [], false, false;
      new;
      var added := AddOperationHistory(HistoryCreated, [], creator);
      AddEvent(Created(id, vo, creator), span);
    }

    method AddEvent(body: Body, span: Uuid)
      modifies this`domainEvents, this`isArchive
      ensures domainEvents == old(domainEvents) + [Unstamped(body, span)] && isArchive
    {
      domainEvents := domainEvents + [Unstamped(body, span)];
      isArchive := true;
    }

    /** Refused, with nothing appended, once the aggregate is voided. */
    method AddOperationHistory(kind: HistoryKind, data: seq<Change>, doer: User) returns (r: Result<(), Exn>)
      modifies this`histories
      ensures r == if status == StatusVoided then Failure(StatusNotMatched) else Success(())
      ensures histories == if r.Success? then old(histories) + [History(kind, Differing(data), doer)] else old(histories)
    {
      if status == StatusVoided {
        return Failure(StatusNotMatched);
      }
      histories := histories + [History(kind, Differing(data), doer)];
      r := Success(());
    }

    method DeleteYourAggregate(doer: User, span: Uuid)
      modifies this`isDelete, this`domainEvents, this`isArchive
      ensures isDelete && isArchive && domainEvents == old(domainEvents) + [Unstamped(Deleted(id, doer), span)]
    {
      isDelete := true;
      AddEvent(Deleted(id, doer), span);
    }

    method VoidYourAggregate(doer: User, span: Uuid) returns (r: Result<(), Exn>)
      modifies this`status, this`histories, this`domainEvents, this`isArchive
      ensures r == if old(status) == StatusVoided then Failure(StatusNotMatched) else Success(())
      ensures r.Failure? ==> AsRow() == old(AsRow()) && domainEvents == old(domainEvents) && isArchive == old(isArchive)
      ensures r.Success? ==>
                && AsRow() == old(AsRow()).(status := StatusVoided, histories := old(histories)
                                              + [History(HistoryVoided, [Change("status", StatusDatum(StatusCreated), StatusDatum(StatusVoided))], doer)])
                && domainEvents == old(domainEvents) + [Unstamped(Voided(id, doer), span)] && isArchive
    {
      var change := Change("status", StatusDatum(status), StatusDatum(StatusVoided));
      r := AddOperationHistory(HistoryVoided, [change], doer);
      if r.Failure? {
        return;
      }
      DifferingOne(change);
      status := StatusVoided;
      AddEvent(Voided(id, doer), span);
    }

    method UpdateYourAggregate(vo: ValueObject, doer: User, span: Uuid) returns (r: Result<(), Exn>)
      modifies this`vo, this`histories, this`domainEvents, this`isArchive
      ensures r == if old(status) == StatusVoided then Failure(StatusNotMatched) else Success(())
      ensures r.Failure? ==> AsRow() == old(AsRow()) && domainEvents == old(domainEvents) && isArchive == old(isArchive)
      ensures r.Success? ==>
                && AsRow() == old(AsRow()).(vo := vo, histories := old(histories)
                                              + [History(HistoryUpdated,
                                                         if old(this.vo) == vo then []
                                                         else [Change("your_value_object", ValueDatum(old(this.vo)), ValueDatum(vo))],
                                                         doer)])
                && domainEvents == old(domainEvents) + [Unstamped(Updated(id, vo, doer), span)] && isArchive
    {
      var change := Change("your_value_object", ValueDatum(this.vo), ValueDatum(vo));
      r := AddOperationHistory(HistoryUpdated, [change], doer);
      if r.Failure? {
        return;
      }
      DifferingOne(change);
      this.vo := vo;
      AddEvent(Updated(id, vo, doer), span);
    }

    /** Every event collected so far gets the parent's span and trace or, without a parent, the
        given trace; without either, events keep the trace they started. */
    method SaveEventsTracing(parent: Option<Event>, trace: Option<TraceId>)
      modifies this`domainEvents
      ensures |domainEvents| == |old(domainEvents)|
      ensures forall i :: 0 <= i < |domainEvents| ==> domainEvents[i] == Stamped(old(domainEvents)[i], Slot(parent, trace))
    {
      for i := 0 to |domainEvents|
        invariant |domainEvents| == |old(domainEvents)|
        invariant forall k :: 0 <= k < |domainEvents| ==>
                    domainEvents[k] == if k < i then Stamped(old(domainEvents)[k], Slot(parent, trace)) else old(domainEvents)[k]
      {
        var e := domainEvents[i];
        if parent.Some? {
          e := e.(tracer := e.tracer.(parent := Some(parent.value.tracer.span)));
          e := e.(tracer := e.tracer.(trace := parent.value.tracer.trace));
        } else if trace.Some? {
          e := e.(tracer := e.tracer.(trace := trace.value));
        }
        domainEvents := domainEvents[i := e];
      }
    }
  }

  /** A new event: it has no parent and starts a trace named after its own span. */
  function Unstamped(body: Body, span: Uuid): Event {
    Event(body, Tracer(span, None, Generated(span)))
  }

  function Stamped(e: Event, slot: Slot): Event {
    if slot.parent.Some? then
      e.(tracer := e.tracer.(parent := Some(slot.parent.value.tracer.span), trace := slot.parent.value.tracer.trace))
    else if slot.trace.Some? then e.(tracer := e.tracer.(trace := slot.trace.value))
    else e
  }

  function Differing(data: seq<Change>): seq<Change> {
    if data == [] then []
    else (if data[0].before != data[0].after then [data[0]] else []) + Differing(data[1..])
  }

  /** Exactly the changes that change something are kept, in their order: what is kept of a list is
      what is kept of a front part, and then of the rest. */
  lemma {:induction false} DifferingKeeps(front: seq<Change>, rest: seq<Change>)
    ensures Differing(front + rest) == Differing(front) + Differing(rest)
    ensures forall c :: c in Differing(front) <==> c in front && c.before != c.after
  {
    if front == [] {
      assert front + rest == rest;
    } else {
      assert (front + rest)[1..] == front[1..] + rest;
      DifferingKeeps(front[1..], rest);
      assert forall c :: c in front <==> c == front[0] || c in front[1..];
    }
  }

  lemma DifferingOne(c: Change)
    ensures Differing([c]) == if c.before == c.after then [] else [c]
  {
    assert [c][1..] == [] && Differing([]) == [];
  }

  class UseCase {
    var parentEvent: Option<Event>
    var traceId: Option<TraceId>

    constructor ()
      ensures Slots() == Slot(None, None)
    {
      parentEvent, traceId := None, None;
    }

    function Slots(): Slot reads this { Slot(parentEvent, traceId) }

    method SetParentEvent(e: Event)
      modifies this
      ensures Slots() == Slot(Some(e), None)
    {
      parentEvent := Some(e);
      traceId := None;
    }

    method SetTraceId(t: TraceId)
      modifies this
      ensures Slots() == Slot(None, Some(t))
    {
      traceId := Some(t);
      parentEvent := None;
    }

    /** A slot is used once: stamping an aggregate's events clears the slot that was used. */
    method SaveTracing(a: YourAggregate)
      modifies this, a`domainEvents
      ensures Slots() == Consume(old(Slots()))
      ensures |a.domainEvents| == |old(a.domainEvents)|
      ensures forall i :: 0 <= i < |a.domainEvents| ==> a.domainEvents[i] == Stamped(old(a.domainEvents)[i], old(Slots()))
    {
      if parentEvent.Some? {
        a.SaveEventsTracing(parentEvent, None);
        parentEvent := None;
      } else if traceId.Some? {
        a.SaveEventsTracing(None, traceId);
        traceId := None;
      }
    }
  }
}
