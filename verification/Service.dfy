/** The service as it runs: use case commands, the event bus and its handlers, each handler in a
    session scope of its own nested in the controller's, with an exception possible at every
    await. Every method is proved against the reference meaning of its task. */
module Service {
  import opened Wrappers
  import opened Domain
  import opened Cascade
  import opened Aggregate
  import opened Session
  import opened Messages
  import opened Notifications
  import opened Tracing
  import opened Turns

  /** The exceptions that the domain itself raises, as opposed to what happens underneath it. */
  predicate Refused(x: Exn) {
    x.NotFound? || x.StatusNotMatched? || x.EmptyBatch?
  }

  predicate IsCancelled(out: Result<(), Exn>) {
    out.Failure? && out.error.Cancelled?
  }

  function EventRank(bus: Bus, e: Event): nat {
    2 * bus.rank(e.body.Kind()) + 2
  }

  function AllDeliveries(bus: Bus, es: seq<Event>): seq<Task> {
    if es == [] then [] else Deliveries(bus, es[0]) + AllDeliveries(bus, es[1..])
  }

  class Service {
    const bus: Bus
    const traceContext: string // the trace id that outgoing messages carry
    const provider: SessionProvider
    const publisher: Publisher<Uuid>
    const callerCase: UseCase
    const handlerCase: UseCase

    var request: nat // the number of the current call, and how many identifiers it has drawn
    var next: nat
    var faulted: bool // an await of the current call has raised
    var pushed: seq<Uuid>
    ghost var delivered: seq<Delivery>
    ghost var base: Buffer<Uuid> // the message buffer when the current call began

    constructor (bus: Bus, db: DB, traceContext: string, request: nat)
      requires WellFormed(bus)
      ensures Valid() && Idle() && fresh(provider) && fresh(publisher) && fresh(callerCase) && fresh(handlerCase)
      ensures this.bus == bus && this.traceContext == traceContext
      ensures System() == Sys(db, [], [], request)
    {
      this.bus, this.traceContext, this.request := bus, traceContext, request;
      provider := new SessionProvider(db);
      publisher := new Publisher();
      callerCase := new UseCase();
      handlerCase := new UseCase();
      next, faulted, pushed, delivered, base := 0, false, [], [], [];
    }

    ghost predicate Valid()
      reads this, publisher
    {
      WellFormed(bus) && callerCase != handlerCase && NotesOnly(publisher.messages)
    }

    predicate Idle()
      reads this, provider
    {
      provider.session == None && provider.sessionCount == 0
    }

    ghost function System(): Sys
      reads this, provider, publisher
    {
      Sys(provider.committed, publisher.messages, publisher.wire, request)
    }

    /** In the middle of a call: the session is open, and the buffer holds what it held when the
        call began and what the call has pushed since. */
    ghost predicate Busy()
      reads this, provider, publisher
    {
      && Valid() && provider.session.Some? && provider.sessionCount >= 1
      && NotesOnly(base) && publisher.messages == PushNotes(base, traceContext, pushed)
    }

    ghost function View(): View
      reads this, provider, callerCase, handlerCase
      requires provider.session.Some?
    {
      Cascade.View(request, next, provider.session.value, pushed, delivered, callerCase.Slots(), handlerCase.Slots())
    }

    /** The outcome of running tasks from view `before`: success means that nothing raised and the
        reference ends in the present view; a failure without an injected fault is the
        reference's own failure. */
    ghost predicate Ends(before: View, tasks: seq<Task>, out: Result<(), Exn>)
      reads this, provider, publisher, callerCase, handlerCase
    {
      && Busy()
      && (out.Success? ==> !faulted && Run(bus, before, tasks) == Success(View()))
      && (out.Failure? && !faulted ==> Refused(out.error) && Run(bus, before, tasks) == Failure(out.error))
    }

    /** The session stands where a run of the tasks passes through. */
    ghost predicate StoppedWithin(before: View, tasks: seq<Task>)
      requires WellFormed(bus)
      reads this, provider
    {
      provider.session.Some? && Passes(bus, before, tasks, provider.session.value, pushed)
    }

    /** And a cancellation stops at a state that the reference passes through. */
    ghost predicate Refines(before: View, tasks: seq<Task>, out: Result<(), Exn>)
      reads this, provider, publisher, callerCase, handlerCase
    {
      Ends(before, tasks, out) && (IsCancelled(out) ==> faulted && StoppedWithin(before, tasks))
    }

    // ---------- the controller ----------

    /** One controller call: a batch of commands in the outermost session scope. However it ends, the
        session is closed and counted down, and it is one turn of the system. Its data is all of the
        reference meaning or none of it, unless it is cancelled: then it is what the reference had
        come to. A call that fails leaves the data as it was, unless it was cancelled and its commit
        did not raise, or the close after its commit raised. */
    method Call(r: Request, exit: ExitFault, drain: DrainFault) returns (out: Result<(), Exn>, ghost ending: Ending)
      requires Valid() && Idle()
      modifies this, provider, publisher, callerCase, handlerCase
      ensures Valid() && Idle() && request == old(request) + 1
      ensures After(bus, old(System()), Turn.Call(r, traceContext, ending)) == Some(System())
      ensures EndsAs(ending, out, exit)
      ensures out.Failure? && !ending.CloseRaised? && !(ending.Cut? && ending.kept) ==> provider.committed == old(provider.committed)
      ensures out.Failure? && !faulted && exit.NoExitFault? ==>
                Serve(bus, old(request), old(provider.committed), r, UNUSED) == Failure(out.error)
    {
      out, ending := InScope(r, exit);
      if out.Success? {
        ending := Committed(drain);
        PublishWaiting(drain);
      }
    }

    /** What the caller is told of each ending. */
    ghost predicate EndsAs(ending: Ending, out: Result<(), Exn>, exit: ExitFault)
      reads this
    {
      match ending
      case Committed(_) => out.Success? && exit.NoExitFault?
      case BodyRaised => out.Failure? && !IsCancelled(out)
      case CommitRaised => out == Failure(CommitError) && exit.CommitRaises?
      case CloseRaised => out == Failure(CloseError) && exit.CloseRaises?
      case Cut(_, _, kept) => faulted && kept == !exit.CommitRaises? && out == if exit.NoExitFault? then Failure(Cancelled) else ExitResult(exit)
    }

    /** Drains the buffer if there is anything in it. */
    method PublishWaiting(drain: DrainFault)
      requires NotesOnly(publisher.messages)
      modifies publisher`messages, publisher`wire
      ensures NotesOnly(publisher.messages)
      ensures var b := old(publisher.messages);
              && publisher.messages == (if Completes(drain, |Flat(b)|) then [] else Drop(b, PoppedUnder(drain, |Flat(b)|)))
              && publisher.wire == old(publisher.wire) + Flat(b)[..SentUnder(drain, |Flat(b)|)]
    {
      DrainedNotes(publisher.messages, publisher.wire, drain);
      if publisher.messages != [] {
        publisher.PublishMessages(drain);
      }
    }

    /** The command endpoint: one call per payload, each in a transaction of its own. A payload
        that does not convert to a request, or whose call raises, is a failure; the rest are
        successes; both lists keep the order of the payloads. Unless a call was cancelled with its
        data kept, what is committed in the end is what the payloads in `stored` alone make of the
        database, one after the other, and these are the successes exactly if no session failed to
        close after its commit. A cancellation that is not covered by an Exception ends the command. */
    method Command(supported: bool, payloads: seq<Option<Request>>)
      returns (success: seq<nat>, failure: seq<nat>, cancelled: bool, ghost turns: seq<Turn>, ghost stored: seq<nat>, ghost served: seq<Served>)
      requires Valid() && Idle()
      modifies this, provider, publisher, callerCase, handlerCase
      ensures Valid() && Idle()
      ensures !supported ==> success == failure == [] && !cancelled && turns == []
      ensures AfterAll(bus, old(System()), turns) == Some(System())
      ensures supported && !cancelled ==> Partitions(success, failure, |payloads|)
      ensures ListsKept(turns, success, stored)
      ensures DataKept(bus, payloads, turns, stored, served, old(provider.committed), provider.committed)
    {
      success, failure, cancelled, turns, stored, served := [], [], false, [], [], [];
      if !supported {
        return;
      }
      for i := 0 to |payloads|
        invariant Valid() && Idle() && !cancelled
        invariant Partitions(success, failure, i) && forall k :: k in stored ==> k < i
        invariant AfterAll(bus, old(System()), turns) == Some(System())
        invariant ListsKept(turns, success, stored)
        invariant DataKept(bus, payloads, turns, stored, served, old(provider.committed), provider.committed)
      {
        if payloads[i].None? {
          PartitionsFailure(success, failure, i);
          failure := failure + [i];
          continue;
        }
        var exit: ExitFault, drain: DrainFault := *, *;
        ghost var before := System();
        var out;
        ghost var ending;
        out, ending := Call(payloads[i].value, exit, drain);
        ghost var turn := Turn.Call(payloads[i].value, traceContext, ending);
        AfterAllAppend(bus, old(System()), turns, turn);
        ListsOneMore(turns, success, stored, i, turn);
        DataOneMore(bus, payloads, turns, stored, served, old(provider.committed), i, turn, before, System());
        turns := turns + [turn];
        if ending.Committed? || ending.CloseRaised? {
          stored, served := stored + [i], served + [Served(before.request, payloads[i].value)];
        }
        if IsCancelled(out) {
          cancelled := true;
          return;
        }
        if out.Success? {
          PartitionsSuccess(success, failure, i);
          success := success + [i];
        } else {
          PartitionsFailure(success, failure, i);
          failure := failure + [i];
        }
      }
    }

    /** The call up to the end of its session scope, before anything is sent. */
    method InScope(r: Request, exit: ExitFault) returns (out: Result<(), Exn>, ghost ending: Ending)
      requires Valid() && Idle()
      modifies this, provider, publisher`messages, callerCase, handlerCase
      ensures Valid() && Idle() && request == old(request) + 1
      ensures if out.Success? then exit.NoExitFault? && InScopeDone(old(System()), r) else EndsAs(ending, out, exit) && !ending.Committed?
      ensures out.Failure? ==> After(bus, old(System()), Turn.Call(r, traceContext, ending)) == Some(System())
      ensures out.Failure? && !faulted && exit.NoExitFault? ==>
                Serve(bus, old(request), old(provider.committed), r, UNUSED) == Failure(out.error)
    {
      ghost var before := System();
      provider.Enter();
      out, ending := Guarded(r);
      LeavingIsATurn(bus, before, r, traceContext, ending, provider.session.value, publisher.messages, exit);
      ending := Left(ending, exit);
      var left := provider.Exit(exit);
      request := request + 1;
      if left.Failure? {
        out := Failure(left.error);
      }
    }

    /** The batch, and what the wrapper does with an Exception of it. */
    method Guarded(r: Request) returns (out: Result<(), Exn>, ghost ending: Ending)
      requires Valid() && provider.session == Some(provider.committed) && provider.sessionCount == 1
      modifies this`next, this`faulted, this`pushed, this`delivered, this`base, provider, publisher`messages, callerCase, handlerCase
      ensures Valid() && provider.committed == old(provider.committed) && provider.sessionCount == 1
      ensures provider.session.Some? && Leaves(bus, old(System()), r, traceContext, ending, provider.session.value, publisher.messages)
      ensures match ending
              case Committed(_) => out.Success?
              case BodyRaised => out.Failure? && !IsCancelled(out)
              case _ => faulted && IsCancelled(out)
      ensures out.Failure? && !faulted ==> Serve(bus, request, old(provider.committed), r, UNUSED) == Failure(out.error)
    {
      next, faulted, pushed, delivered, base := 0, false, [], [], publisher.messages;
      out := RunBatch(r);
      ending := Committed(NoFault);
      if IsCancelled(out) {
        ending := Cut(provider.session.value, pushed, false);
      } else if out.Failure? {
        ending := BodyRaised;
        var x := Recover(out.error);
        out := Failure(x);
      }
    }

    /** The batch went well and was committed, and nothing is sent yet. */
    ghost predicate InScopeDone(before: Sys, r: Request)
      reads this, provider, publisher
    {
      && WellFormed(bus) && NotesOnly(before.buffer)
      && var served := Serve(bus, before.request, before.db, r, UNUSED);
      && served.Success? && System() == Sys(served.value.db, PushNotes(before.buffer, traceContext, served.value.pushed), before.wire, before.request + 1)
    }

    /** What the wrapper does with an Exception before it raises it again. */
    method Recover(x: Exn) returns (raised: Exn)
      requires provider.session.Some?
      modifies provider`session, publisher`messages
      ensures provider.session == Some(provider.committed) && publisher.messages == []
      ensures raised == if x.Integrity? then Sql else x
    {
      provider.Rollback();
      publisher.CleanMessages();
      raised := if x.Integrity? then Sql else x;
    }

    /** What the controller's wrapper guards: set the trace, run the batch, flush. */
    method RunBatch(r: Request) returns (out: Result<(), Exn>)
      requires Busy() && !faulted && next == 0 && pushed == [] && delivered == []
      requires provider.session == Some(provider.committed)
      modifies this`next, this`faulted, this`pushed, this`delivered, provider, publisher`messages, callerCase, handlerCase
      ensures Busy() && provider.committed == old(provider.committed) && provider.sessionCount == old(provider.sessionCount)
      ensures var served := Serve(bus, request, old(provider.committed), r, UNUSED);
              && (out.Success? ==> !faulted && served.Success? && served.value.db == provider.session.value && served.value.pushed == pushed)
              && (out.Failure? && !faulted ==> Refused(out.error) && served == Failure(out.error))
      ensures IsCancelled(out) ==> faulted && StoppedWithin(Begin(request, old(provider.committed), r.trace, UNUSED), Dos(Caller, r.actions))
    {
      SetTracing(r.trace);
      ghost var start := View();
      assert start == Begin(request, provider.committed, r.trace, handlerCase.Slots());
      StaleSlotNeverReachesACall(bus, request, provider.committed, r, handlerCase.Slots(), UNUSED);
      out := Success(());
      if r.read.Some? {
        out := Read(r.read.value);
      }
      if out.Success? {
        out := RunActions(Caller, r.actions, MaxRank(bus, Dos(Caller, r.actions)) + 1);
        if out.Success? {
          PassesEnd(bus, start, Dos(Caller, r.actions), View());
          if r.actions == [] && r.read.None? {
            out := Failure(EmptyBatch);
          } else {
            out := Await();
          }
        }
      }
      if IsCancelled(out) {
        StaleSlotUnreached(bus, start, Begin(request, old(provider.committed), r.trace, UNUSED), r.actions, provider.session.value, pushed);
      }
    }

    /** A request without a trace id gets a generated one. */
    method SetTracing(trace: Option<string>)
      requires next == 0
      modifies this`next, callerCase
      ensures next == Begin(request, EMPTY_DB, trace, UNUSED).next
      ensures callerCase.Slots() == Begin(request, EMPTY_DB, trace, UNUSED).caller
    {
      if trace.Some? && trace.value != "" {
        callerCase.SetTraceId(Given(trace.value));
      } else {
        var u := DrawUuid();
        callerCase.SetTraceId(Generated(u));
      }
    }

    // ---------- awaits, loads and saves ----------

    /** Any await may raise: a database error, an integrity error, or a cancellation. */
    method Await() returns (out: Result<(), Exn>)
      modifies this`faulted
      ensures out.Success? ==> faulted == old(faulted)
      ensures out.Failure? ==> faulted && out.error in {Sql, Integrity, Cancelled}
    {
      out := Success(());
      if * {
        faulted := true;
        if * { return Failure(Sql); }
        if * { return Failure(Integrity); }
        return Failure(Cancelled);
      }
    }

    method DrawUuid() returns (u: Uuid)
      modifies this`next
      ensures u == Uuid(request, old(next)) && next == old(next) + 1
    {
      u := Uuid(request, next);
      next := next + 1;
    }

    /** Whatever Exception a load raises is reported as a missing row. */
    method Load(id: Uuid) returns (r: Result<YourAggregate, Exn>)
      requires provider.session.Some?
      modifies this`faulted
      ensures r.Success? ==> faulted == old(faulted) && fresh(r.value) && r.value.id == id && Loaded(r.value)
      ensures r.Failure? && !faulted ==> r.error == NotFound && id !in provider.session.value.rows
      ensures r.Failure? ==> r.error == NotFound || (faulted && r.error == Cancelled)
    {
      var got := Await();
      if got.Failure? {
        return Failure(if got.error.Cancelled? then Cancelled else NotFound);
      }
      if id !in provider.session.value.rows {
        return Failure(NotFound);
      }
      var a := new YourAggregate.FromRow(id, provider.session.value.rows[id]);
      r := Success(a);
    }

    /** What a reading call does: load one aggregate, or search. */
    method Read(read: Reading) returns (out: Result<(), Exn>)
      requires provider.session.Some?
      modifies this`faulted
      ensures out.Success? ==> faulted == old(faulted) && Finds(provider.session.value, read)
      ensures out.Failure? && !faulted ==> out.error == NotFound && !Finds(provider.session.value, read)
      ensures IsCancelled(out) ==> faulted
    {
      match read
      case GetOne(id) =>
        var loaded := Load(id);
        out := if loaded.Success? then Success(()) else Failure(loaded.error);
      case SearchAll =>
        out := Await();
    }

    /** Writes the row (or removes it), its archive under the last event, and every event. */
    method SaveYourAggregate(a: YourAggregate) returns (out: Result<(), Exn>)
      requires provider.session.Some?
      requires a.isArchive ==> a.domainEvents != []
      modifies this`faulted, this`next, provider`session
      ensures provider.session.Some?
      ensures out.Success? ==> faulted == old(faulted) && next == old(next) + (if a.isArchive then 1 else 0)
      ensures out.Success? ==> provider.session.value ==
                               Saved(old(provider.session.value), a.id, a.AsRow(), a.domainEvents, a.isDelete, a.isArchive, Uuid(request, old(next)))
      ensures out.Failure? ==> faulted
      ensures out.Failure? ==>
                || provider.session == old(provider.session)
                || provider.session == Some(Saved(old(provider.session.value), a.id, a.AsRow(), a.domainEvents, a.isDelete, a.isArchive, Uuid(request, old(next))))
    {
      out := Await();
      if out.Failure? {
        return;
      }
      var db := provider.session.value;
      var creator := if a.id in db.rows then db.rows[a.id].creator else a.creator;
      var row := Row(a.vo, a.status, a.histories, creator);
      assert row == KeepCreator(db.rows, a.id, a.AsRow());
      if a.isDelete {
        db := db.(rows := map id | id in db.rows && id != a.id :: db.rows[id]);
      } else {
        db := db.(rows := db.rows[a.id := row]);
      }
      if a.isArchive {
        var e := a.domainEvents[|a.domainEvents| - 1];
        var archiveId := DrawUuid();
        db := db.(archives := db.archives + [ArchiveOf(archiveId, a.id, row, e)]);
      }
      ghost var unlogged := db;
      for i := 0 to |a.domainEvents|
        invariant db == unlogged.(log := unlogged.log + a.domainEvents[..i])
      {
        db := db.(log := db.log + [a.domainEvents[i]]);
        assert a.domainEvents[..i + 1] == a.domainEvents[..i] + [a.domainEvents[i]];
      }
      assert a.domainEvents[..|a.domainEvents|] == a.domainEvents;
      assert old(provider.session.value).archives + [] == old(provider.session.value).archives;
      provider.session := Some(db);
      out := Await();
    }

    // ---------- the use case ----------

    function CaseOf(who: Who): UseCase {
      if who.Caller? then callerCase else handlerCase
    }

    /** An aggregate that a command has just changed: one new event, not yet stamped. */
    ghost predicate ReadyToSave(a: YourAggregate)
      reads this, provider, a
    {
      && provider.session.Some? && next >= 1 && a.isArchive && |a.domainEvents| == 1
      && var body := a.domainEvents[0].body;
      && a.domainEvents == [Unstamped(body, Uuid(request, next - 1))]
      && body.id == a.id && a.isDelete == body.Deleted?
    }

    /** Stamp, save, publish. */
    method Save(who: Who, a: YourAggregate) returns (out: Result<(), Exn>)
      requires Busy() && !faulted && ReadyToSave(a)
      modifies this`next, this`faulted, this`pushed, this`delivered, provider, publisher`messages, callerCase, handlerCase, a`domainEvents
      ensures provider.committed == old(provider.committed) && provider.sessionCount == old(provider.sessionCount)
      ensures var (v, e) := Record(old(View()).(next := old(next) - 1), who, old(a.domainEvents)[0].body, old(a.AsRow()));
              && Ends(v, Deliveries(bus, e), out)
              && (IsCancelled(out) ==>
                    faulted && ((provider.session == old(provider.session) && pushed == old(pushed)) || StoppedWithin(v, Deliveries(bus, e))))
      decreases EventRank(bus, a.domainEvents[0]) + 1, 2
    {
      ghost var (v, e) := Record(View().(next := next - 1), who, a.domainEvents[0].body, a.AsRow());
      out := StampAndSave(who, a);
      if out.Success? {
        out := PublishAll(a.domainEvents, EventRank(bus, a.domainEvents[0]) + 1);
        DeliveriesOfOne(bus, e);
      }
    }

    /** Everything but the publication. */
    method StampAndSave(who: Who, a: YourAggregate) returns (out: Result<(), Exn>)
      requires Busy() && !faulted && ReadyToSave(a)
      modifies this`next, this`faulted, provider`session, callerCase, handlerCase, a`domainEvents
      ensures Busy()
      ensures var (v, e) := Record(old(View()).(next := old(next) - 1), who, old(a.domainEvents)[0].body, old(a.AsRow()));
              && (out.Success? ==> !faulted && a.domainEvents == [e] && View() == v)
              && (out.Failure? ==> faulted && (provider.session == old(provider.session) || provider.session == Some(v.db)) && v.pushed == pushed)
    {
      ghost var start := View().(next := next - 1);
      ghost var body, row := a.domainEvents[0].body, a.AsRow();
      ghost var (v, e) := Record(start, who, body, row);
      CaseOf(who).SaveTracing(a);
      assert a.domainEvents == [e];
      SavedIsRecorded(start, who, body, row);
      out := SaveYourAggregate(a);
    }

    // ---------- the event bus ----------

    method PublishAll(events: seq<Event>, ghost limit: nat) returns (out: Result<(), Exn>)
      requires Busy() && !faulted
      requires forall e :: e in events ==> EventRank(bus, e) < limit
      modifies this`next, this`faulted, this`pushed, this`delivered, provider, publisher`messages, callerCase, handlerCase
      ensures provider.committed == old(provider.committed) && provider.sessionCount == old(provider.sessionCount)
      ensures Refines(old(View()), AllDeliveries(bus, events), out)
      decreases limit, 1
    {
      ghost var start, tasks := View(), AllDeliveries(bus, events);
      out := Success(());
      for i := 0 to |events|
        invariant Busy() && !faulted && out.Success?
        invariant provider.committed == old(provider.committed) && provider.sessionCount == old(provider.sessionCount)
        invariant Continues(bus, start, tasks, View(), AllDeliveries(bus, events[i..]))
      {
        assert events[i..][0] == events[i] && events[i..][1..] == events[i + 1..];
        ContinuesWith(bus, start, tasks, View(), Deliveries(bus, events[i]), AllDeliveries(bus, events[i + 1..]));
        out := Publish(events[i]);
        if out.Failure? {
          return;
        }
      }
    }

    /** Awaits every subscriber of the event, one after the other. */
    method Publish(e: Event) returns (out: Result<(), Exn>)
      requires Busy() && !faulted
      modifies this`next, this`faulted, this`pushed, this`delivered, provider, publisher`messages, callerCase, handlerCase
      ensures provider.committed == old(provider.committed) && provider.sessionCount == old(provider.sessionCount)
      ensures Refines(old(View()), Deliveries(bus, e), out)
      decreases EventRank(bus, e), 8
    {
      ghost var start, tasks := View(), Deliveries(bus, e);
      out := Success(());
      var hs := bus.order(e, Subscribers(bus, e.body.Kind()));
      for i := 0 to |hs|
        invariant Busy() && !faulted && out.Success?
        invariant provider.committed == old(provider.committed) && provider.sessionCount == old(provider.sessionCount)
        invariant Continues(bus, start, tasks, View(), tasks[i..])
      {
        assert tasks[i..] == [tasks[i]] + tasks[i + 1..];
        ContinuesWith(bus, start, tasks, View(), [tasks[i]], tasks[i + 1..]);
        out := HandleEvent(e, hs[i]);
        if out.Failure? {
          return;
        }
      }
    }

    /** A handler in its session scope. On an Exception it rolls the whole transaction back
        before it lets the exception out. */
    method HandleEvent(e: Event, h: HandlerId) returns (out: Result<(), Exn>)
      requires Busy() && !faulted
      modifies this`next, this`faulted, this`pushed, this`delivered, provider, publisher`messages, callerCase, handlerCase
      ensures provider.committed == old(provider.committed) && provider.sessionCount == old(provider.sessionCount)
      ensures Refines(old(View()), [Handle(e, h)], out)
      ensures out.Failure? && !out.error.Cancelled? ==> provider.session == Some(provider.committed)
      decreases EventRank(bus, e), 7
    {
      ghost var start := View();
      RunOne(bus, start, Handle(e, h));
      delivered := delivered + [Delivery(e.tracer.span, h)];
      provider.Enter();
      out := ReactAndFlush(e, h);
      if out.Failure? && !out.error.Cancelled? {
        provider.Rollback();
      }
      var left := provider.Exit(NoExitFault);
      if IsCancelled(out) {
        PassesChildren(bus, start, Handle(e, h), provider.session.value, pushed);
      }
    }

    /** What the handler's wrapper guards: set the trace, react, flush. */
    method ReactAndFlush(e: Event, h: HandlerId) returns (out: Result<(), Exn>)
      requires Busy() && !faulted
      modifies this`next, this`faulted, this`pushed, this`delivered, provider, publisher`messages, callerCase, handlerCase
      ensures provider.committed == old(provider.committed) && provider.sessionCount == old(provider.sessionCount)
      ensures Refines(old(View()).(handler := Slot(Some(e), None)), Dos(Handler, bus.react(h, e)), out)
      decreases EventRank(bus, e), 6
    {
      handlerCase.SetParentEvent(e);
      ghost var start, tasks := View(), Dos(Handler, bus.react(h, e));
      out := React(e, h);
      if out.Success? {
        PassesEnd(bus, start, tasks, View());
        out := Await();
      }
    }

    /** The body of a handler: its actions, in order. */
    method React(e: Event, h: HandlerId) returns (out: Result<(), Exn>)
      requires Busy() && !faulted
      modifies this`next, this`faulted, this`pushed, this`delivered, provider, publisher`messages, callerCase, handlerCase
      ensures provider.committed == old(provider.committed) && provider.sessionCount == old(provider.sessionCount)
      ensures Refines(old(View()), Dos(Handler, bus.react(h, e)), out)
      decreases EventRank(bus, e), 5
    {
      out := RunActions(Handler, bus.react(h, e), EventRank(bus, e));
    }

    method RunActions(who: Who, actions: seq<Action>, ghost limit: nat) returns (out: Result<(), Exn>)
      requires Busy() && !faulted
      requires forall a :: a in actions ==> TaskRank(bus, Do(who, a)) < limit
      modifies this`next, this`faulted, this`pushed, this`delivered, provider, publisher`messages, callerCase, handlerCase
      ensures provider.committed == old(provider.committed) && provider.sessionCount == old(provider.sessionCount)
      ensures Refines(old(View()), Dos(who, actions), out)
      decreases limit, 4
    {
      ghost var start, tasks := View(), Dos(who, actions);
      out := Success(());
      for i := 0 to |actions|
        invariant Busy() && !faulted && out.Success?
        invariant provider.committed == old(provider.committed) && provider.sessionCount == old(provider.sessionCount)
        invariant Continues(bus, start, tasks, View(), tasks[i..])
      {
        assert tasks[i..] == [tasks[i]] + tasks[i + 1..];
        ContinuesWith(bus, start, tasks, View(), [tasks[i]], tasks[i + 1..]);
        out := RunAction(who, actions[i]);
        if out.Failure? {
          return;
        }
      }
    }

    // ---------- the commands ----------

    method RunAction(who: Who, a: Action) returns (out: Result<(), Exn>)
      requires Busy() && !faulted
      modifies this`next, this`faulted, this`pushed, this`delivered, provider, publisher`messages, callerCase, handlerCase
      ensures provider.committed == old(provider.committed) && provider.sessionCount == old(provider.sessionCount)
      ensures Refines(old(View()), [Do(who, a)], out)
      decreases TaskRank(bus, Do(who, a)), 5
    {
      match a
      case Create(vo, doer) => out := CreateYourAggregate(who, vo, doer);
      case Update(id, vo, doer) => out := UpdateYourAggregate(who, id, vo, doer);
      case Void(id, doer) => out := VoidYourAggregate(who, id, doer);
      case Delete(id, doer) => out := DeleteYourAggregate(who, id, doer);
      case Notify(id) => out := NotifyVoided(who, id);
    }

    /** An aggregate made or loaded, and changed as the command asks, from view `start` on; or the
        exception that prevented it. */
    ghost predicate Prepared(start: View, who: Who, a: Action, r: Result<YourAggregate, Exn>)
      requires !a.Notify?
      reads this, provider, publisher, callerCase, handlerCase, if r.Success? then {r.value} else {}
    {
      && Busy() && provider.session.value == start.db && pushed == start.pushed
      && match r
         case Success(agg) =>
           && !faulted && ReadyToSave(agg)
           && Execute(start, who, a) == Success(Record(View().(next := next - 1), who, agg.domainEvents[0].body, agg.AsRow()))
         case Failure(x) => (x.Cancelled? ==> faulted) && (!faulted ==> Refused(x) && Execute(start, who, a) == Failure(x))
    }

    /** An aggregate as its row describes it, with nothing changed yet. */
    ghost predicate Loaded(a: YourAggregate)
      reads this, provider, a
    {
      && provider.session.Some? && a.id in provider.session.value.rows && a.AsRow() == provider.session.value.rows[a.id]
      && a.domainEvents == [] && !a.isDelete && !a.isArchive
    }

    /** What every command ends with. */
    method Conclude(who: Who, ghost a: Action, ghost start: View, r: Result<YourAggregate, Exn>) returns (out: Result<(), Exn>)
      requires !a.Notify? && Prepared(start, who, a, r)
      modifies this`next, this`faulted, this`pushed, this`delivered, provider, publisher`messages, callerCase, handlerCase
      modifies (if r.Success? then {r.value} else {})`domainEvents
      ensures provider.committed == old(provider.committed) && provider.sessionCount == old(provider.sessionCount)
      ensures Refines(start, [Do(who, a)], out)
      decreases TaskRank(bus, Do(who, a)), 3
    {
      RunCommand(bus, start, who, a);
      if r.Failure? {
        return Failure(r.error);
      }
      out := Save(who, r.value);
      if IsCancelled(out) && !(provider.session.value == start.db && pushed == start.pushed) {
        PassesChildren(bus, start, Do(who, a), provider.session.value, pushed);
      }
    }

    method CreateYourAggregate(who: Who, vo: ValueObject, creator: User) returns (out: Result<(), Exn>)
      requires Busy() && !faulted
      modifies this`next, this`faulted, this`pushed, this`delivered, provider, publisher`messages, callerCase, handlerCase
      ensures provider.committed == old(provider.committed) && provider.sessionCount == old(provider.sessionCount)
      ensures Refines(old(View()), [Do(who, Create(vo, creator))], out)
      decreases TaskRank(bus, Do(who, Create(vo, creator))), 4
    {
      ghost var start := View();
      var id := DrawUuid();
      var span := DrawUuid();
      var a := new YourAggregate.CreateYourAggregate(id, vo, creator, span);
      assert View().(next := next - 1) == start.(next := start.next + 1);
      out := Conclude(who, Create(vo, creator), start, Success(a));
    }

    method UpdateYourAggregate(who: Who, id: Uuid, vo: ValueObject, doer: User) returns (out: Result<(), Exn>)
      requires Busy() && !faulted
      modifies this`next, this`faulted, this`pushed, this`delivered, provider, publisher`messages, callerCase, handlerCase
      ensures provider.committed == old(provider.committed) && provider.sessionCount == old(provider.sessionCount)
      ensures Refines(old(View()), [Do(who, Update(id, vo, doer))], out)
      decreases TaskRank(bus, Do(who, Update(id, vo, doer))), 4
    {
      ghost var start := View();
      var r := LoadAndUpdate(who, id, vo, doer);
      out := Conclude(who, Update(id, vo, doer), start, r);
    }

    method LoadAndUpdate(ghost who: Who, id: Uuid, vo: ValueObject, doer: User) returns (r: Result<YourAggregate, Exn>)
      requires Busy() && !faulted
      modifies this`next, this`faulted
      ensures Prepared(old(View()), who, Update(id, vo, doer), r) && (r.Success? ==> fresh(r.value))
    {
      r := Load(id);
      if r.Success? {
        r := UpdateLoaded(who, r.value, vo, doer);
      }
    }

    method UpdateLoaded(ghost who: Who, a: YourAggregate, vo: ValueObject, doer: User) returns (r: Result<YourAggregate, Exn>)
      requires Busy() && !faulted && Loaded(a)
      modifies this`next, a
      ensures Prepared(old(View()), who, Update(a.id, vo, doer), r) && (r.Success? ==> r.value == a)
    {
      ghost var start, row := View(), provider.session.value.rows[a.id];
      var changed := a.UpdateYourAggregate(vo, doer, Uuid(request, next));
      if changed.Failure? {
        return Failure(changed.error);
      }
      next := next + 1;
      assert Busy() && ReadyToSave(a) && View().(next := next - 1) == start;
      assert a.AsRow() == row.(vo := vo, histories := row.histories + [UpdateEntry(row.vo, vo, doer)]) && a.domainEvents[0].body == Updated(a.id, vo, doer);
      r := Success(a);
    }

    method VoidYourAggregate(who: Who, id: Uuid, doer: User) returns (out: Result<(), Exn>)
      requires Busy() && !faulted
      modifies this`next, this`faulted, this`pushed, this`delivered, provider, publisher`messages, callerCase, handlerCase
      ensures provider.committed == old(provider.committed) && provider.sessionCount == old(provider.sessionCount)
      ensures Refines(old(View()), [Do(who, Void(id, doer))], out)
      decreases TaskRank(bus, Do(who, Void(id, doer))), 4
    {
      ghost var start := View();
      var r := LoadAndVoid(who, id, doer);
      out := Conclude(who, Void(id, doer), start, r);
    }

    method LoadAndVoid(ghost who: Who, id: Uuid, doer: User) returns (r: Result<YourAggregate, Exn>)
      requires Busy() && !faulted
      modifies this`next, this`faulted
      ensures Prepared(old(View()), who, Void(id, doer), r) && (r.Success? ==> fresh(r.value))
    {
      r := Load(id);
      if r.Success? {
        r := VoidLoaded(who, r.value, doer);
      }
    }

    method VoidLoaded(ghost who: Who, a: YourAggregate, doer: User) returns (r: Result<YourAggregate, Exn>)
      requires Busy() && !faulted && Loaded(a)
      modifies this`next, a
      ensures Prepared(old(View()), who, Void(a.id, doer), r) && (r.Success? ==> r.value == a)
    {
      ghost var start, row := View(), provider.session.value.rows[a.id];
      var changed := a.VoidYourAggregate(doer, Uuid(request, next));
      if changed.Failure? {
        return Failure(changed.error);
      }
      next := next + 1;
      assert Busy() && ReadyToSave(a) && View().(next := next - 1) == start;
      assert VoidEntry(row.status, doer) == History(HistoryVoided, [Change("status", StatusDatum(StatusCreated), StatusDatum(StatusVoided))], doer);
      assert a.AsRow() == row.(status := StatusVoided, histories := row.histories + [VoidEntry(row.status, doer)]) && a.domainEvents[0].body == Voided(a.id, doer);
      r := Success(a);
    }

    method DeleteYourAggregate(who: Who, id: Uuid, doer: User) returns (out: Result<(), Exn>)
      requires Busy() && !faulted
      modifies this`next, this`faulted, this`pushed, this`delivered, provider, publisher`messages, callerCase, handlerCase
      ensures provider.committed == old(provider.committed) && provider.sessionCount == old(provider.sessionCount)
      ensures Refines(old(View()), [Do(who, Delete(id, doer))], out)
      decreases TaskRank(bus, Do(who, Delete(id, doer))), 4
    {
      ghost var start := View();
      var r := LoadAndDelete(who, id, doer);
      out := Conclude(who, Delete(id, doer), start, r);
    }

    method LoadAndDelete(ghost who: Who, id: Uuid, doer: User) returns (r: Result<YourAggregate, Exn>)
      requires Busy() && !faulted
      modifies this`next, this`faulted
      ensures Prepared(old(View()), who, Delete(id, doer), r) && (r.Success? ==> fresh(r.value))
    {
      r := Load(id);
      if r.Success? {
        r := DeleteLoaded(who, r.value, doer);
      }
    }

    method DeleteLoaded(ghost who: Who, a: YourAggregate, doer: User) returns (r: Result<YourAggregate, Exn>)
      requires Busy() && !faulted && Loaded(a)
      modifies this`next, a
      ensures Prepared(old(View()), who, Delete(a.id, doer), r) && r == Success(a)
    {
      ghost var start := View();
      var span := DrawUuid();
      a.DeleteYourAggregate(doer, span);
      assert Busy() && ReadyToSave(a) && View().(next := next - 1) == start;
      assert a.AsRow() == start.db.rows[a.id] && a.domainEvents[0].body == Deleted(a.id, doer);
      r := Success(a);
    }

    /** The voided handler's own work: load, and buffer a message if the aggregate is voided. */
    method NotifyVoided(who: Who, id: Uuid) returns (out: Result<(), Exn>)
      requires Busy() && !faulted
      modifies this`faulted, this`pushed, publisher`messages
      ensures Refines(old(View()), [Do(who, Notify(id))], out)
    {
      ghost var start := View();
      RunNotify(bus, start, who, id);
      var loaded := Load(id);
      if loaded.Failure? {
        return Failure(loaded.error);
      }
      assert loaded.value.status == start.db.rows[id].status && View() == start;
      if loaded.value.status == StatusVoided {
        PushNote(id);
        assert View() == start.(pushed := start.pushed + [id]);
      }
      out := Success(());
    }

    method PushNote(id: Uuid)
      requires NotesOnly(base) && publisher.messages == PushNotes(base, traceContext, pushed)
      modifies this`pushed, publisher`messages
      ensures pushed == old(pushed) + [id] && publisher.messages == PushNotes(base, traceContext, pushed)
    {
      NotePushes(publisher.messages, traceContext, id);
      var merged := publisher.BufferMessage(ROUTING_KEY, Message(traceContext, VOIDED_FUNCTION, ListData([id]), None, 3, 3));
      pushed := pushed + [id];
      assert pushed[..|pushed| - 1] == old(pushed);
    }
  }

  /** Where the session and the buffer stand when the scope is about to be left. */
  ghost predicate Leaves(bus: Bus, before: Sys, r: Request, traceContext: string, ending: Ending, session: DB, messages: Buffer<Uuid>)
    requires WellFormed(bus) && NotesOnly(before.buffer)
  {
    match ending
    case Committed(_) =>
      var served := Serve(bus, before.request, before.db, r, UNUSED);
      served.Success? && session == served.value.db && messages == PushNotes(before.buffer, traceContext, served.value.pushed)
    case BodyRaised => session == before.db && messages == []
    case Cut(at, pushed, _) =>
      MayStopAt(bus, before, r, at, pushed) && session == at && messages == PushNotes(before.buffer, traceContext, pushed)
    case _ => false
  }

  /** The ending once the scope is left. */
  function Left(ending: Ending, exit: ExitFault): Ending {
    match ending
    case Committed(_) => if exit.CommitRaises? then CommitRaised else if exit.CloseRaises? then CloseRaised else ending
    case Cut(at, pushed, _) => Cut(at, pushed, !exit.CommitRaises?)
    case _ => ending
  }

  lemma LeavingIsATurn(bus: Bus, before: Sys, r: Request, traceContext: string, ending: Ending, session: DB, messages: Buffer<Uuid>, exit: ExitFault)
    requires WellFormed(bus) && NotesOnly(before.buffer) && Leaves(bus, before, r, traceContext, ending, session, messages)
    ensures var after := Sys(if exit.CommitRaises? then before.db else session, messages, before.wire, before.request + 1);
            !Left(ending, exit).Committed? ==> After(bus, before, Turn.Call(r, traceContext, Left(ending, exit))) == Some(after)
  {
  }

  /** What a drain leaves is notifications only; draining nothing changes nothing. */
  lemma DrainedNotes(b: Buffer<Uuid>, wire: seq<Pushed<Uuid>>, drain: DrainFault)
    requires NotesOnly(b)
    ensures NotesOnly(Drop(b, PoppedUnder(drain, |Flat(b)|)))
    ensures b == [] ==> Drop(b, PoppedUnder(drain, |Flat(b)|)) == [] && wire + Flat(b)[..SentUnder(drain, |Flat(b)|)] == wire
  {
    DropKeepsNotes(b, PoppedUnder(drain, |Flat(b)|));
  }

  function ArchiveOf(archiveId: Uuid, id: Uuid, row: Row, e: Event): Archive {
    Archive(archiveId, id, row, e.body.doer, e.body.Kind(), e.tracer.span, e.tracer.trace)
  }

  /** The database after an aggregate is saved. */
  function Saved(db: DB, id: Uuid, row: Row, events: seq<Event>, isDelete: bool, isArchive: bool, archiveId: Uuid): DB
    requires isArchive ==> events != []
  {
    var kept := KeepCreator(db.rows, id, row);
    DB(if isDelete then map k | k in db.rows && k != id :: db.rows[k] else db.rows[id := kept],
       db.archives + (if isArchive then [ArchiveOf(archiveId, id, kept, events[|events| - 1])] else []),
       db.log + events)
  }

  lemma SavedIsRecorded(v: View, who: Who, body: Body, row: Row)
    ensures var (v', e) := Record(v, who, body, row);
            && e == Stamped(Unstamped(body, v.Fresh()), v.SlotOf(who))
            && v'.db == Saved(v.db, body.id, row, [e], body.Deleted?, true, Uuid(v.request, v.next + 1))
  {
  }

  lemma DeliveriesOfOne(bus: Bus, e: Event)
    ensures AllDeliveries(bus, [e]) == Deliveries(bus, e)
  {
    assert [e][1..] == [] && AllDeliveries(bus, []) == [];
    assert Deliveries(bus, e) + [] == Deliveries(bus, e);
  }
}
