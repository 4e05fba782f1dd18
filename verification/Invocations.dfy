/** When a message as a whole, in all its copies, keeps what its producer asked for: the number of
    attempts, the delay between them, and the time before which there is none. Each holds over
    every run exactly under a condition on the message and on the faults that may happen. */
module Invocations {
  import opened Wrappers
  import opened Messages
  import opened Topic
  import opened Consumer
  import opened Accounting
  import opened Attempts

  /** The faults that may happen besides those of handlers and of retries: a deferral raises before
      it is sent, it raises after, an acknowledgement raises, an unacknowledged message is
      redelivered. */
  datatype Faults = Faults(deferralFails: bool, deferralForks: bool, acksFail: bool, redelivers: bool)

  predicate Permits<T>(f: Faults, e: Event<T>) {
    match e
    case Accept(_) => true
    case Deliver(_, env) =>
      && (env.deferral == NotSent ==> f.deferralFails) && (env.deferral == SentThenRaised ==> f.deferralForks)
      && (env.ackRaises ==> f.acksFail)
    case Redeliver(_) => f.redelivers
  }

  ghost predicate PermittedRun<T>(f: Faults, start: int, events: seq<Event<T>>, q: Queue<T>) {
    ReachedIf(true, start, events) == Some(q) && forall e :: e in events ==> Permits(f, e)
  }

  /** A message that is attempted at most once. */
  predicate OnlyOnce(attempts: int) {
    attempts <= 1 && attempts != -1
  }

  // ---------- the three promises, of one message in one state ----------

  ghost predicate BoundKept<T>(q: Queue<T>, origin: nat)
    requires origin < |q.accepted|
  {
    |TimesOf(q.calls, origin)| <= if q.accepted[origin].attempts >= 1 then q.accepted[origin].attempts else 1
  }

  ghost predicate SpacingKept<T>(q: Queue<T>, origin: nat)
    requires origin < |q.accepted|
  {
    Separated(TimesOf(q.calls, origin), q.accepted[origin].delay)
  }

  ghost predicate ScheduleKept<T>(q: Queue<T>, origin: nat)
    requires origin < |q.accepted|
  {
    AfterSchedule(TimesOf(q.calls, origin), q.accepted[origin].started)
  }

  // ---------- a message in one copy ----------

  /** The copies in the broker are of different messages, and each knows all the invocations of its
      message, none of which was left unacknowledged. */
  ghost predicate Lone<T>(q: Queue<T>) {
    && (forall i, j :: 0 <= i < j < |q.ready| ==> q.ready[i].origin != q.ready[j].origin)
    && (forall t :: t in q.ready ==> KnowsAll(q, t))
    && (forall origin: nat :: origin >= |q.accepted| ==> TimesOf(q.calls, origin) == [])
    && (forall origin: nat :: origin < |q.accepted| ==> SpacingKept(q, origin) && (q.accepted[origin].attempts != -1 ==> BoundKept(q, origin)))
  }

  ghost predicate KnowsAll<T>(q: Queue<T>, t: Token<T>) {
    && t.leftUnacked == 0 && t.calls == TimesOf(q.calls, t.origin)
    && t.origin < |q.accepted| && q.accepted[t.origin] == t.original
  }

  /** The token after its delivery, were it to come again. */
  function After<T>(t: Token<T>, env: Env): seq<Invocation> {
    t.calls + if Due(t.message, env.check) then [During(env)] else []
  }

  /** Without a deferral that is sent and raises, a delivery leaves at most one copy to be delivered. */
  lemma DeliveryShape<T>(t: Token<T>, env: Env)
    ensures Delivery(true, t, env).calls == if Due(t.message, env.check) then [Call(t.origin, During(env))] else []
    ensures forall u :: u in Delivery(true, t, env).ready ==>
              u.origin == t.origin && u.original == t.original && u.leftUnacked == t.leftUnacked && u.calls == After(t, env)
    ensures env.deferral != SentThenRaised ==> |Delivery(true, t, env).ready| <= 1
    ensures forall u :: u in Delivery(true, t, env).unacked ==> u.origin == t.origin && u.original == t.original
    ensures env.deferral == Sent ==> forall u :: u in Delivery(true, t, env).ready ==> u.deferFaults == t.deferFaults
    ensures env.deferral == Sent ==> forall u :: u in Delivery(true, t, env).unacked ==> u.deferFaults == t.deferFaults
  {
    SettledShape(t, env);
    AckLostShape(t, env);
  }

  lemma AckLostShape<T>(t: Token<T>, env: Env)
    ensures AckLost(t, env).ready == [] && AckLost(t, env).calls == []
    ensures forall u :: u in AckLost(t, env).unacked ==> u.origin == t.origin && u.original == t.original && u.message == t.message
    ensures env.deferral == Sent ==> forall u :: u in AckLost(t, env).unacked ==> u.deferFaults == t.deferFaults
  {
  }

  lemma SettledShape<T>(t: Token<T>, env: Env)
    ensures Settled(true, t, env).calls == if Due(t.message, env.check) then [Call(t.origin, During(env))] else []
    ensures forall u :: u in Settled(true, t, env).ready ==>
              u.origin == t.origin && u.original == t.original && u.leftUnacked == t.leftUnacked && u.calls == After(t, env)
    ensures env.deferral != SentThenRaised ==> |Settled(true, t, env).ready| <= 1
    ensures forall u :: u in Settled(true, t, env).unacked ==> u.origin == t.origin && u.original == t.original
    ensures env.deferral == Sent ==> forall u :: u in Settled(true, t, env).ready ==> u.deferFaults == t.deferFaults
    ensures env.deferral == Sent ==> forall u :: u in Settled(true, t, env).unacked ==> u.deferFaults == t.deferFaults
  {
    if Due(t.message, env.check) { HandledShape(t, env); } else { DeferredShape(t, env); }
  }

  lemma HandledShape<T>(t: Token<T>, env: Env)
    requires Due(t.message, env.check)
    ensures Handled(true, t, env).calls == [Call(t.origin, During(env))] && |Handled(true, t, env).ready| <= 1
    ensures forall u :: u in Handled(true, t, env).ready ==>
              u.origin == t.origin && u.original == t.original && u.leftUnacked == t.leftUnacked && u.calls == After(t, env) && u.deferFaults == t.deferFaults
    ensures forall u :: u in Handled(true, t, env).unacked ==> u.origin == t.origin && u.original == t.original && u.deferFaults == t.deferFaults
  {
    FailedShape(Called(t, env), env);
  }

  lemma DeferredShape<T>(t: Token<T>, env: Env)
    requires !Due(t.message, env.check)
    ensures Deferred(true, t, env).calls == [] && (env.deferral != SentThenRaised ==> |Deferred(true, t, env).ready| <= 1)
    ensures forall u :: u in Deferred(true, t, env).ready ==>
              u.origin == t.origin && u.original == t.original && u.leftUnacked == t.leftUnacked && u.calls == After(t, env)
    ensures forall u :: u in Deferred(true, t, env).unacked ==> u.origin == t.origin && u.original == t.original
    ensures env.deferral == Sent ==> Deferred(true, t, env).ready == [t] && Deferred(true, t, env).unacked == []
  {
    FailedShape(Faulted(t, env), env);
    assert After(t, env) == t.calls;
  }

  lemma FailedShape<T>(t: Token<T>, env: Env)
    ensures Failed(true, t, env).calls == [] && |Failed(true, t, env).ready| <= 1
    ensures forall u :: u in Failed(true, t, env).ready ==>
              u.origin == t.origin && u.original == t.original && u.leftUnacked == t.leftUnacked && u.calls == t.calls && u.deferFaults == t.deferFaults
    ensures forall u :: u in Failed(true, t, env).unacked ==> u.origin == t.origin && u.original == t.original && u.deferFaults == t.deferFaults
  {
  }

  lemma DeliveredTimes<T>(q: Queue<T>, i: nat, env: Env, origin: nat)
    requires i < |q.ready| && Timely(q, env)
    ensures var t, q' := q.ready[i], Delivered(true, q, i, env);
            && q'.accepted == q.accepted
            && TimesOf(q'.calls, origin) == TimesOf(q.calls, origin) + if t.origin == origin && Due(t.message, env.check) then [During(env)] else []
  {
    DeliveryShape(q.ready[i], env);
    TimesAppend(q.calls, Call(q.ready[i].origin, During(env)), origin);
    assert q.calls + [] == q.calls;
  }

  /** The one delivery that adds an invocation keeps the spacing and the bound of its message. */
  lemma InvocationKept<T>(t: Token<T>, now: int, env: Env)
    requires Live(t, now) && now <= env.check <= env.fail && t.leftUnacked == 0
    ensures Separated(After(t, env), t.original.delay)
    ensures t.original.attempts != -1 ==> |After(t, env)| <= Weight(t.original)
  {
    if Due(t.message, env.check) { AttemptHistory(t, Called(t, env), now, env); }
  }

  lemma LoneTimes<T>(q: Queue<T>, i: nat, env: Env, origin: nat)
    requires i < |q.ready| && Timely(q, env) && Lone(q) && SoundQueue(q)
    ensures var q' := Delivered(true, q, i, env);
            && (origin >= |q'.accepted| ==> TimesOf(q'.calls, origin) == [])
            && (origin < |q'.accepted| ==> SpacingKept(q', origin) && (q'.accepted[origin].attempts != -1 ==> BoundKept(q', origin)))
  {
    var t := q.ready[i];
    assert t in q.ready && KnowsAll(q, t);
    DeliveredTimes(q, i, env, origin);
    if origin == t.origin {
      InvocationKept(t, q.now, env);
    } else if origin < |q.accepted| {
      assert SpacingKept(q, origin);
    }
  }

  lemma LoneReady<T>(q: Queue<T>, i: nat, env: Env, u: Token<T>)
    requires i < |q.ready| && Timely(q, env) && Lone(q) && u in Delivered(true, q, i, env).ready
    ensures KnowsAll(Delivered(true, q, i, env), u)
    ensures u in Without(q.ready, i) || u.origin == q.ready[i].origin
  {
    assert q.ready[i] in q.ready && KnowsAll(q, q.ready[i]);
    DeliveryShape(q.ready[i], env);
    DeliveredTimes(q, i, env, u.origin);
    if u in Without(q.ready, i) { RestIsOther(q, i, u); }
  }

  lemma LoneDelivered<T>(q: Queue<T>, i: nat, env: Env)
    requires i < |q.ready| && Timely(q, env) && env.deferral != SentThenRaised
    requires Lone(q) && SoundQueue(q)
    ensures Lone(Delivered(true, q, i, env))
  {
    var q' := Delivered(true, q, i, env);
    forall origin: nat
      ensures origin >= |q'.accepted| ==> TimesOf(q'.calls, origin) == []
      ensures origin < |q'.accepted| ==> SpacingKept(q', origin) && (q'.accepted[origin].attempts != -1 ==> BoundKept(q', origin))
    {
      LoneTimes(q, i, env, origin);
    }
    forall u | u in q'.ready ensures KnowsAll(q', u) { LoneReady(q, i, env, u); }
    LoneOrigins(q, i, env);
  }

  lemma LoneOrigins<T>(q: Queue<T>, i: nat, env: Env)
    requires i < |q.ready| && Timely(q, env) && env.deferral != SentThenRaised && Lone(q)
    ensures var ready := Delivered(true, q, i, env).ready;
            forall j, k :: 0 <= j < k < |ready| ==> ready[j].origin != ready[k].origin
  {
    var rest, added := Without(q.ready, i), Delivery(true, q.ready[i], env).ready;
    DeliveryShape(q.ready[i], env);
    assert added == [] || added == [added[0]];
    forall j | 0 <= j < |rest| ensures rest[j].origin != q.ready[i].origin { RestIsOther(q, i, rest[j]); }
  }

  lemma RestIsOther<T>(q: Queue<T>, i: nat, u: Token<T>)
    requires i < |q.ready| && Lone(q) && u in Without(q.ready, i)
    ensures u in q.ready && u.origin != q.ready[i].origin
  {
    var rest := Without(q.ready, i);
    var j :| 0 <= j < |rest| && rest[j] == u;
    assert u == q.ready[if j < i then j else j + 1];
  }

  lemma LoneAccepted<T>(q: Queue<T>, m: Message<T>)
    requires Lone(q)
    ensures Lone(Next(true, q, Accept(m)))
  {
    var q' := Next(true, q, Accept(m));
    forall t | t in q'.ready ensures KnowsAll(q', t) {
      if t in q.ready { assert KnowsAll(q, t); }
    }
    forall j | 0 <= j < |q.ready| ensures q.ready[j].origin < |q.accepted| { assert KnowsAll(q, q.ready[j]); }
  }

  lemma {:induction false} LoneRuns<T>(f: Faults, start: int, events: seq<Event<T>>, q: Queue<T>)
    requires PermittedRun(f, start, events, q) && !f.deferralForks && !f.redelivers
    ensures Lone(q)
    decreases |events|
  {
    if events != [] {
      var front, e := events[..|events| - 1], events[|events| - 1];
      var before := ReachedIf(true, start, front).value;
      LoneRuns(f, start, front, before);
      RunIsSound(start, front, before);
      assert e in events;
      match e
      case Accept(m) => LoneAccepted(before, m);
      case Deliver(i, env) => LoneDelivered(before, i, env);
      case Redeliver(_) => assert false;
    }
  }

  // ---------- a message that is attempted once ----------

  /** It is never retried, so that its copies come unchanged, and never before its time. */
  ghost predicate Unchanged<T>(q: Queue<T>, origin: nat) {
    && (forall t :: t in q.ready && t.origin == origin ==> origin < |q.accepted| && t.message == q.accepted[origin])
    && (forall t :: t in q.unacked && t.origin == origin ==> origin < |q.accepted| && t.message == q.accepted[origin])
    && (if origin < |q.accepted| then OnlyOnce(q.accepted[origin].attempts) && ScheduleKept(q, origin) else TimesOf(q.calls, origin) == [])
  }

  /** There is one copy of it to come, until it has been attempted. */
  ghost predicate Single<T>(f: Faults, q: Queue<T>, origin: nat) {
    && |TimesOf(q.calls, origin)| + Tally(q.ready, Counting(origin)) <= (if origin < |q.accepted| then 1 else 0)
    && (f.redelivers ==> forall t :: t in q.unacked ==> t.origin != origin)
  }

  lemma OnceShape<T>(t: Token<T>, env: Env)
    requires OnlyOnce(t.message.attempts)
    ensures !env.ackRaises ==> Delivery(true, t, env).unacked == []
    ensures forall u :: u in Delivery(true, t, env).unacked ==> u.message == t.message
    ensures Delivery(true, t, env).ready == [t] || Delivery(true, t, env).ready == []
    ensures Due(t.message, env.check) ==> Delivery(true, t, env).ready == []
  {
    assert NextAttempt(t.message, env.fail).None?;
    OnceSettled(t, env);
    AckLostShape(t, env);
  }

  lemma OnceSettled<T>(t: Token<T>, env: Env)
    requires OnlyOnce(t.message.attempts)
    ensures Settled(true, t, env).unacked == []
    ensures Settled(true, t, env).ready == [t] || Settled(true, t, env).ready == []
    ensures Due(t.message, env.check) ==> Settled(true, t, env).ready == []
  {
    assert NextAttempt(t.message, env.fail).None?;
  }

  lemma UnchangedDelivered<T>(q: Queue<T>, i: nat, env: Env, origin: nat)
    requires i < |q.ready| && Timely(q, env) && Unchanged(q, origin)
    ensures Unchanged(Delivered(true, q, i, env), origin)
  {
    var t, q' := q.ready[i], Delivered(true, q, i, env);
    assert t in q.ready;
    assert forall u :: u in Without(q.ready, i) ==> u in q.ready;
    DeliveredTimes(q, i, env, origin);
    if t.origin == origin {
      OnceShape(t, env);
      OnceScheduled(t, env, TimesOf(q.calls, origin), TimesOf(q'.calls, origin));
    } else {
      DeliveryShape(t, env);
    }
  }

  lemma SingleDelivered<T>(f: Faults, q: Queue<T>, i: nat, env: Env, origin: nat)
    requires i < |q.ready| && Timely(q, env) && Unchanged(q, origin) && Single(f, q, origin)
    requires f.redelivers ==> !env.ackRaises
    ensures Single(f, Delivered(true, q, i, env), origin)
  {
    var t, added := q.ready[i], Delivery(true, q.ready[i], env).ready;
    assert t in q.ready;
    DeliveredTimes(q, i, env, origin);
    TallyWithout(q.ready, i, Counting(origin));
    TallyConcat(Without(q.ready, i), added, Counting(origin));
    if t.origin == origin {
      OnceShape(t, env);
      TallyOne(t, Counting(origin));
    } else {
      DeliveryShape(t, env);
      NoneOf(added, origin);
    }
  }

  lemma OnceScheduled<T>(t: Token<T>, env: Env, times: seq<Invocation>, times': seq<Invocation>)
    requires AfterSchedule(times, t.message.started)
    requires times' == times + if Due(t.message, env.check) then [During(env)] else []
    ensures AfterSchedule(times', t.message.started)
  {
  }

  lemma {:induction false} NoneOf<T>(ts: seq<Token<T>>, origin: nat)
    requires forall u :: u in ts ==> u.origin != origin
    ensures Tally(ts, Counting(origin)) == 0
  {
    if ts != [] { NoneOf(ts[..|ts| - 1], origin); }
  }

  lemma OnceAccepted<T>(f: Faults, q: Queue<T>, m: Message<T>, origin: nat)
    requires Unchanged(q, origin) && (origin == |q.accepted| ==> OnlyOnce(m.attempts))
    ensures Unchanged(Next(true, q, Accept(m)), origin)
    ensures Single(f, q, origin) ==> Single(f, Next(true, q, Accept(m)), origin)
  {
    TallyAppend(q.ready, Token(|q.accepted|, m, m, [], [], 0, 0, false), Counting(origin));
  }

  lemma {:induction false} UnchangedRuns<T>(start: int, events: seq<Event<T>>, q: Queue<T>, origin: nat)
    requires ReachedIf(true, start, events) == Some(q)
    requires origin < |q.accepted| ==> OnlyOnce(q.accepted[origin].attempts)
    ensures Unchanged(q, origin)
    decreases |events|
  {
    if events != [] {
      var before, e := ReachedIf(true, start, events[..|events| - 1]).value, events[|events| - 1];
      if origin < |before.accepted| { AcceptedStays(before, e, origin); }
      UnchangedRuns(start, events[..|events| - 1], before, origin);
      match e
      case Accept(m) => OnceAccepted(Faults(false, false, false, false), before, m, origin);
      case Deliver(i, env) => UnchangedDelivered(before, i, env, origin);
      case Redeliver(i) => UnchangedRedelivered(before, i, origin);
    }
  }

  lemma {:induction false} SingleRuns<T>(f: Faults, start: int, events: seq<Event<T>>, q: Queue<T>, origin: nat)
    requires PermittedRun(f, start, events, q) && !(f.acksFail && f.redelivers)
    requires origin < |q.accepted| ==> OnlyOnce(q.accepted[origin].attempts)
    ensures Single(f, q, origin)
    decreases |events|
  {
    if events != [] {
      var front, e := events[..|events| - 1], events[|events| - 1];
      var before := ReachedIf(true, start, front).value;
      if origin < |before.accepted| { AcceptedStays(before, e, origin); }
      SingleRuns(f, start, front, before, origin);
      UnchangedRuns(start, front, before, origin);
      assert e in events;
      match e
      case Accept(m) => OnceAccepted(f, before, m, origin);
      case Deliver(i, env) => SingleDelivered(f, before, i, env, origin);
      case Redeliver(i) => SingleRedelivered(f, before, i, origin);
    }
  }

  lemma AcceptedStays<T>(q: Queue<T>, e: Event<T>, origin: nat)
    requires Possible(q, e) && origin < |q.accepted|
    ensures origin < |Next(true, q, e).accepted| && Next(true, q, e).accepted[origin] == q.accepted[origin]
  {
  }

  lemma UnchangedRedelivered<T>(q: Queue<T>, i: nat, origin: nat)
    requires i < |q.unacked| && Unchanged(q, origin)
    ensures Unchanged(Redelivered(q, i), origin)
  {
    assert q.unacked[i] in q.unacked;
    assert forall t :: t in Without(q.unacked, i) ==> t in q.unacked;
  }

  lemma SingleRedelivered<T>(f: Faults, q: Queue<T>, i: nat, origin: nat)
    requires i < |q.unacked| && f.redelivers && Single(f, q, origin)
    ensures Single(f, Redelivered(q, i), origin)
  {
    assert q.unacked[i] in q.unacked;
    assert forall t :: t in Without(q.unacked, i) ==> t in q.unacked;
    TallyAppend(q.ready, q.unacked[i].(settled := false), Counting(origin));
  }

  // ---------- a message whose deferrals go well ----------

  ghost predicate Undeferred<T>(ts: seq<Token<T>>, accepted: seq<Message<T>>) {
    forall t :: t in ts ==> t.deferFaults == 0 && t.origin < |accepted| && accepted[t.origin] == t.original
  }

  ghost predicate Scheduled<T>(q: Queue<T>) {
    && Undeferred(q.ready, q.accepted) && Undeferred(q.unacked, q.accepted)
    && (forall origin: nat :: origin < |q.accepted| ==> ScheduleKept(q, origin))
    && (forall origin: nat :: origin >= |q.accepted| ==> TimesOf(q.calls, origin) == [])
  }

  lemma LastOnSchedule<T>(t: Token<T>, now: int, env: Env, times: seq<Invocation>, times': seq<Invocation>)
    requires Live(t, now) && now <= env.check <= env.fail && t.deferFaults == 0 && AfterSchedule(times, t.original.started)
    requires times' == times + if Due(t.message, env.check) then [During(env)] else []
    ensures AfterSchedule(times', t.original.started)
  {
    if Due(t.message, env.check) {
      var u := Called(t, env);
      AttemptHistory(t, u, now, env);
      assert u.calls[|u.calls| - 1] == During(env);
    }
  }

  lemma ScheduledTimes<T>(q: Queue<T>, i: nat, env: Env, origin: nat)
    requires i < |q.ready| && Timely(q, env) && Scheduled(q) && SoundQueue(q)
    ensures var q' := Delivered(true, q, i, env);
            && (origin >= |q'.accepted| ==> TimesOf(q'.calls, origin) == [])
            && (origin < |q'.accepted| ==> ScheduleKept(q', origin))
  {
    var t := q.ready[i];
    assert t in q.ready;
    assert t.origin < |q.accepted| && q.accepted[t.origin] == t.original && t.deferFaults == 0 && Live(t, q.now);
    DeliveredTimes(q, i, env, origin);
    if origin < |q.accepted| {
      assert ScheduleKept(q, origin);
      if origin == t.origin { LastOnSchedule(t, q.now, env, TimesOf(q.calls, origin), TimesOf(Delivered(true, q, i, env).calls, origin)); }
    }
  }

  lemma ScheduledDelivered<T>(q: Queue<T>, i: nat, env: Env)
    requires i < |q.ready| && Timely(q, env) && env.deferral == Sent
    requires Scheduled(q) && SoundQueue(q)
    ensures Scheduled(Delivered(true, q, i, env))
  {
    var t, q' := q.ready[i], Delivered(true, q, i, env);
    assert t in q.ready;
    DeliveryShape(t, env);
    assert forall u :: u in Without(q.ready, i) ==> u in q.ready;
    forall origin: nat
      ensures origin >= |q'.accepted| ==> TimesOf(q'.calls, origin) == []
      ensures origin < |q'.accepted| ==> ScheduleKept(q', origin)
    {
      ScheduledTimes(q, i, env, origin);
    }
  }

  lemma ScheduledAccepted<T>(q: Queue<T>, m: Message<T>)
    requires Scheduled(q)
    ensures Scheduled(Next(true, q, Accept(m)))
  {
    var q' := Next(true, q, Accept(m));
    forall origin: nat | origin < |q'.accepted| ensures ScheduleKept(q', origin) {
      if origin < |q.accepted| { assert ScheduleKept(q, origin); }
    }
  }

  lemma ScheduledRedelivered<T>(q: Queue<T>, i: nat)
    requires i < |q.unacked| && Scheduled(q)
    ensures Scheduled(Redelivered(q, i))
  {
    var q' := Redelivered(q, i);
    assert q.unacked[i] in q.unacked;
    assert forall t :: t in Without(q.unacked, i) ==> t in q.unacked;
    forall origin: nat | origin < |q'.accepted| ensures ScheduleKept(q', origin) {
      assert ScheduleKept(q, origin);
    }
  }

  lemma {:induction false} ScheduledRuns<T>(f: Faults, start: int, events: seq<Event<T>>, q: Queue<T>)
    requires PermittedRun(f, start, events, q) && !f.deferralFails && !f.deferralForks
    ensures Scheduled(q)
    decreases |events|
  {
    if events != [] {
      var front, e := events[..|events| - 1], events[|events| - 1];
      var before := ReachedIf(true, start, front).value;
      ScheduledRuns(f, start, front, before);
      RunIsSound(start, front, before);
      assert e in events;
      match e
      case Accept(m) => ScheduledAccepted(before, m);
      case Deliver(i, env) => ScheduledDelivered(before, i, env);
      case Redeliver(i) => ScheduledRedelivered(before, i);
    }
  }

  // ---------- runs that break a promise ----------

  lemma Then<T>(f: Faults, start: int, events: seq<Event<T>>, q: Queue<T>, e: Event<T>)
    requires PermittedRun(f, start, events, q) && Permits(f, e) && Possible(q, e)
    ensures PermittedRun(f, start, events + [e], Next(true, q, e))
  {
    assert (events + [e])[..|events|] == events;
  }

  function Last<T>(q: Queue<T>): Token<T>
    requires q.ready != []
  {
    q.ready[|q.ready| - 1]
  }

  /** The last message of the queue can be made to fail, and comes again if it has attempts left. */
  lemma FailOnce<T>(f: Faults, start: int, events: seq<Event<T>>, q: Queue<T>) returns (more: seq<Event<T>>, q': Queue<T>)
    requires PermittedRun(f, start, events, q) && q.ready != [] && Last(q).message.attempts >= 1
    ensures PermittedRun(f, start, more, q') && q'.accepted == q.accepted
    ensures |TimesOf(q'.calls, Last(q).origin)| == |TimesOf(q.calls, Last(q).origin)| + 1
    ensures if Last(q).message.attempts == 1 then q'.ready == q.ready[..|q.ready| - 1]
            else |q'.ready| == |q.ready| && q'.ready[..|q.ready| - 1] == q.ready[..|q.ready| - 1]
                 && Last(q').message.attempts == Last(q).message.attempts - 1 && Last(q').origin == Last(q).origin
  {
    var env := Failing(Last(q).message, q.now);
    LastFails(q, env);
    more, q' := DeliverOne(f, start, events, q, |q.ready| - 1, env);
  }

  lemma DeliverOne<T>(f: Faults, start: int, events: seq<Event<T>>, q: Queue<T>, i: nat, env: Env) returns (more: seq<Event<T>>, q': Queue<T>)
    requires PermittedRun(f, start, events, q) && i < |q.ready| && Timely(q, env) && Due(q.ready[i].message, env.check)
    requires env.deferral == Sent && !env.ackRaises
    ensures PermittedRun(f, start, more, q') && q' == Delivered(true, q, i, env) && q'.accepted == q.accepted
    ensures TimesOf(q'.calls, q.ready[i].origin) == TimesOf(q.calls, q.ready[i].origin) + [During(env)]
  {
    var e: Event<T> := Deliver(i, env);
    Then(f, start, events, q, e);
    DeliveredTimes(q, i, env, q.ready[i].origin);
    more, q' := events + [e], Next(true, q, e);
  }

  /** A time at which the message is due, and fails, and is sent again. */
  function Failing<T>(m: Message<T>, now: int): (env: Env)
    ensures now <= env.check == env.fail && Due(m, env.check) && env.handlerRaises && env.deferral == env.retry == Sent
  {
    var at := if m.started.Some? && m.started.value >= now then m.started.value + 1 else now;
    Env(at, true, at, Sent, Sent, false)
  }

  lemma LastFails<T>(q: Queue<T>, env: Env)
    requires q.ready != [] && Last(q).message.attempts >= 1
    requires Timely(q, env) && Due(Last(q).message, env.check) && env.handlerRaises && env.retry == Sent
    ensures var ready := Delivered(true, q, |q.ready| - 1, env).ready;
            if Last(q).message.attempts == 1 then ready == q.ready[..|q.ready| - 1]
            else |ready| == |q.ready| && ready[..|q.ready| - 1] == q.ready[..|q.ready| - 1]
                 && ready[|q.ready| - 1].message.attempts == Last(q).message.attempts - 1 && ready[|q.ready| - 1].origin == Last(q).origin
  {
    LastRetried(Last(q), env);
    assert Without(q.ready, |q.ready| - 1) == q.ready[..|q.ready| - 1];
  }

  lemma LastRetried<T>(t: Token<T>, env: Env)
    requires Due(t.message, env.check) && env.handlerRaises && env.retry == Sent && t.message.attempts >= 1
    ensures var ready := Delivery(true, t, env).ready;
            if t.message.attempts == 1 then ready == []
            else |ready| == 1 && ready[0].message.attempts == t.message.attempts - 1 && ready[0].origin == t.origin
  {
  }

  /** And so can be made to use up all its attempts. */
  lemma {:induction false} UseUp<T>(f: Faults, start: int, events: seq<Event<T>>, q: Queue<T>) returns (more: seq<Event<T>>, q': Queue<T>)
    requires PermittedRun(f, start, events, q) && q.ready != [] && Last(q).message.attempts >= 1
    ensures PermittedRun(f, start, more, q') && q'.accepted == q.accepted && q'.ready == q.ready[..|q.ready| - 1]
    ensures |TimesOf(q'.calls, Last(q).origin)| == |TimesOf(q.calls, Last(q).origin)| + Last(q).message.attempts
    decreases Last(q).message.attempts
  {
    more, q' := FailOnce(f, start, events, q);
    if Last(q).message.attempts > 1 {
      more, q' := UseUp(f, start, more, q');
    }
  }

  function Begun<T>(m: Message<T>): Token<T> {
    Token(0, m, m, [], [], 0, 0, false)
  }

  /** The run in which one message has been accepted. */
  lemma AcceptOne<T>(f: Faults, m: Message<T>) returns (events: seq<Event<T>>, q: Queue<T>)
    ensures PermittedRun(f, 0, events, q)
    ensures q == Empty<T>(0).(accepted := [m], ready := [Begun(m)])
  {
    assert PermittedRun(f, 0, [], Empty<T>(0));
    Then(f, 0, [], Empty<T>(0), Accept(m));
    events, q := [] + [Accept(m)], Next(true, Empty<T>(0), Accept(m));
  }

  /** The run in which its deferral was sent and raised: there are two copies of it. */
  lemma Fork<T>(f: Faults, m: Message<T>) returns (events: seq<Event<T>>, q: Queue<T>)
    requires f.deferralForks && m.started.Some? && m.started.value >= 0 && !OnlyOnce(m.attempts)
    ensures PermittedRun(f, 0, events, q) && q.accepted == [m] && q.now == 0 && q.calls == []
    ensures q.ready == [Begun(m), Faulted(Begun(m), Env(0, false, 0, SentThenRaised, Sent, false)).(message := NextAttempt(m, 0).value)]
  {
    var accepted, q0 := AcceptOne(f, m);
    var e: Event<T> := Deliver(0, Env(0, false, 0, SentThenRaised, Sent, false));
    Then(f, 0, accepted, q0, e);
    events, q := accepted + [e], Next(true, q0, e);
    assert Without(q0.ready, 0) == [];
  }

  /** The run in which it was attempted, left unacknowledged, and redelivered. */
  lemma Redo<T>(f: Faults, m: Message<T>) returns (events: seq<Event<T>>, q: Queue<T>)
    requires f.redelivers && m.started.None? && !OnlyOnce(m.attempts)
    ensures PermittedRun(f, 0, events, q) && q.accepted == [m] && q.now == 0 && q.calls == [Call(0, Invocation(0, 0))]
    ensures |q.ready| == 1 && q.ready[0].message == m && q.ready[0].origin == 0
  {
    var accepted, q0 := AcceptOne(f, m);
    var e: Event<T> := Deliver(0, Env(0, true, 0, Sent, NotSent, false));
    Then(f, 0, accepted, q0, e);
    var q1 := Next(true, q0, e);
    assert Without(q0.ready, 0) == [];
    Then(f, 0, accepted + [e], q1, Redeliver(0));
    events, q := accepted + [e] + [Redeliver(0)], Next(true, q1, Redeliver(0));
  }

  /** A message that is due can be handled, at a time of our choosing. */
  lemma Handle<T>(f: Faults, start: int, events: seq<Event<T>>, q: Queue<T>, i: nat, at: int) returns (more: seq<Event<T>>, q': Queue<T>)
    requires PermittedRun(f, start, events, q) && i < |q.ready| && Due(q.ready[i].message, at) && q.now <= at
    ensures PermittedRun(f, start, more, q') && q'.accepted == q.accepted && q'.now == at && q'.ready == Without(q.ready, i)
    ensures TimesOf(q'.calls, q.ready[i].origin) == TimesOf(q.calls, q.ready[i].origin) + [Invocation(at, at)]
  {
    more, q' := DeliverOne(f, start, events, q, i, Env(at, false, at, Sent, Sent, false));
  }

  function Sample<T>(started: Option<int>, attempts: int, delay: int): Message<T> {
    Message("trace", Text("function"), DictData(map[]), started, attempts, delay)
  }

  /** The run in which it was handled, its acknowledgement raised, and it was redelivered and handled
      again. */
  lemma HandledTwice<T>(f: Faults, m: Message<T>) returns (events: seq<Event<T>>, q: Queue<T>)
    requires f.acksFail && f.redelivers && m.started.None?
    ensures PermittedRun(f, 0, events, q) && q.accepted == [m] && TimesOf(q.calls, 0) == [Invocation(0, 0), Invocation(0, 0)]
  {
    var accepted, q0 := AcceptOne(f, m);
    var e: Event<T> := Deliver(0, Env(0, false, 0, Sent, Sent, true));
    Then(f, 0, accepted, q0, e);
    var q1 := Next(true, q0, e);
    assert Without(q0.ready, 0) == [];
    Then(f, 0, accepted + [e], q1, Redeliver(0));
    var q2 := Next(true, q1, Redeliver(0));
    TimesAppend([], Call(0, Invocation(0, 0)), 0);
    events, q := Handle(f, 0, accepted + [e] + [Redeliver(0)], q2, 0, 0);
  }

  /** What breaks the bound and the spacing: two copies of one message that both come to be attempted. */
  predicate Repeats(f: Faults, n: int) {
    if OnlyOnce(n) then f.acksFail && f.redelivers else f.deferralForks || f.redelivers
  }

  lemma BoundBroken<T>(f: Faults, n: int, delay: int) returns (events: seq<Event<T>>, q: Queue<T>)
    requires n != -1 && Repeats(f, n)
    ensures PermittedRun(f, 0, events, q) && |q.accepted| == 1 && q.accepted[0].attempts == n && q.accepted[0].delay == delay && !BoundKept(q, 0)
  {
    if n <= 1 {
      events, q := HandledTwice(f, Sample<T>(None, n, delay));
    } else if f.deferralForks {
      events, q := Fork(f, Sample<T>(Some(0), n, delay));
      events, q := UseUp(f, 0, events, q);
      events, q := UseUp(f, 0, events, q);
    } else {
      events, q := Redo(f, Sample<T>(None, n, delay));
      TimesAppend([], Call(0, Invocation(0, 0)), 0);
      events, q := UseUp(f, 0, events, q);
    }
  }

  lemma SpacingBroken<T>(f: Faults, n: int, delay: int) returns (events: seq<Event<T>>, q: Queue<T>)
    requires delay >= 0 && Repeats(f, n)
    ensures PermittedRun(f, 0, events, q) && |q.accepted| == 1 && q.accepted[0].attempts == n && q.accepted[0].delay == delay
    ensures !SpacingKept(q, 0)
  {
    if OnlyOnce(n) {
      events, q := HandledTwice(f, Sample<T>(None, n, delay));
    } else if f.deferralForks {
      events, q := TwiceAtOnce(f, n, delay);
    } else {
      events, q := Redo(f, Sample<T>(None, n, delay));
      TimesAppend([], Call(0, Invocation(0, 0)), 0);
      events, q := Handle(f, 0, events, q, 0, 0);
    }
    assert TimesOf(q.calls, 0)[0] == TimesOf(q.calls, 0)[1];
  }

  lemma TwiceAtOnce<T>(f: Faults, n: int, delay: int) returns (events: seq<Event<T>>, q: Queue<T>)
    requires !OnlyOnce(n) && delay >= 0 && f.deferralForks
    ensures PermittedRun(f, 0, events, q) && q.accepted == [Sample(Some(0), n, delay)]
    ensures TimesOf(q.calls, 0) == [Invocation(delay + 1, delay + 1), Invocation(delay + 1, delay + 1)]
  {
    events, q := Fork(f, Sample<T>(Some(0), n, delay));
    assert TimesOf(q.calls, 0) == [] && NextAttempt(q.accepted[0], 0).value.started == Some(delay);
    events, q := TwoHandled(f, events, q, delay + 1);
  }

  lemma TwoHandled<T>(f: Faults, events: seq<Event<T>>, q: Queue<T>, at: int) returns (more: seq<Event<T>>, q': Queue<T>)
    requires PermittedRun(f, 0, events, q) && |q.ready| == 2 && q.now <= at
    requires q.ready[0].origin == q.ready[1].origin == 0 && Due(q.ready[0].message, at) && Due(q.ready[1].message, at)
    ensures PermittedRun(f, 0, more, q') && q'.accepted == q.accepted
    ensures TimesOf(q'.calls, 0) == TimesOf(q.calls, 0) + [Invocation(at, at), Invocation(at, at)]
  {
    more, q' := Handle(f, 0, events, q, 1, at);
    assert q'.ready == [q.ready[0]];
    more, q' := Handle(f, 0, more, q', 0, at);
  }

  lemma ScheduleBroken<T>(f: Faults, n: int, delay: int) returns (events: seq<Event<T>>, q: Queue<T>)
    requires !OnlyOnce(n) && (f.deferralForks || f.deferralFails)
    ensures PermittedRun(f, 0, events, q) && |q.accepted| == 1 && q.accepted[0].attempts == n && q.accepted[0].delay == delay
    ensures !ScheduleKept(q, 0)
  {
    var at := if delay >= 0 then delay + 1 else 1;
    var m := Sample<T>(Some(at), n, delay);
    if f.deferralForks {
      events, q := Fork(f, m);
    } else {
      var accepted, q0 := AcceptOne(f, m);
      var e: Event<T> := Deliver(0, Env(0, false, 0, NotSent, Sent, false));
      Then(f, 0, accepted, q0, e);
      events, q := accepted + [e], Next(true, q0, e);
    }
    assert TimesOf(q.calls, 0) == [];
    events, q := Handle(f, 0, events, q, |q.ready| - 1, at);
    assert TimesOf(q.calls, 0)[0] == Invocation(at, at);
  }

  // ---------- exactly when the promises hold ----------

  /** The run may happen with these faults, and the message was accepted in it, with these attempts
      and this delay. */
  ghost predicate Happens<T>(pattern: string, f: Faults, n: int, delay: int, start: int, events: seq<Event<T>>, q: Queue<T>, origin: nat) {
    && Reached(pattern, start, events) == Some(q) && PermittedRun(f, start, events, q)
    && origin < |q.accepted| && q.accepted[origin].attempts == n && q.accepted[origin].delay == delay
  }

  ghost predicate BoundHolds<T(!new)>(pattern: string, f: Faults, n: int, delay: int) {
    forall start, events: seq<Event<T>>, q, origin: nat :: Happens(pattern, f, n, delay, start, events, q, origin) ==> BoundKept(q, origin)
  }

  ghost predicate SpacingHolds<T(!new)>(pattern: string, f: Faults, n: int, delay: int) {
    forall start, events: seq<Event<T>>, q, origin: nat :: Happens(pattern, f, n, delay, start, events, q, origin) ==> SpacingKept(q, origin)
  }

  ghost predicate ScheduleHolds<T(!new)>(pattern: string, f: Faults, n: int, delay: int) {
    forall start, events: seq<Event<T>>, q, origin: nat :: Happens(pattern, f, n, delay, start, events, q, origin) ==> ScheduleKept(q, origin)
  }

  /** The attempt bound of a message holds over every run exactly if no two copies of it can both
      come to be attempted: with one attempt, acknowledgements do not fail or nothing is redelivered;
      with more, no deferral is sent and then raises and nothing is redelivered. */
  lemma BoundIff<T(!new)>(pattern: string, f: Faults, n: int, delay: int)
    requires n != -1
    ensures BoundHolds<T>(pattern, f, n, delay)
       <==> if n <= 1 then !f.acksFail || !f.redelivers else !f.deferralForks && !f.redelivers
  {
    PatternMatchesItself(pattern);
    if Repeats(f, n) {
      var events, q := BoundBroken<T>(f, n, delay);
      assert Happens(pattern, f, n, delay, 0, events, q, 0);
    } else {
      forall start, events: seq<Event<T>>, q, origin: nat
        | Happens(pattern, f, n, delay, start, events, q, origin)
        ensures BoundKept(q, origin)
      {
        if n <= 1 { SingleRuns(f, start, events, q, origin); } else { LoneRuns(f, start, events, q); }
      }
    }
  }

  /** Attempts are more than the retry delay apart over every run under the same condition, or if
      the delay is negative. */
  lemma SpacingIff<T(!new)>(pattern: string, f: Faults, n: int, delay: int)
    ensures SpacingHolds<T>(pattern, f, n, delay)
       <==> delay < 0 || if OnlyOnce(n) then !f.acksFail || !f.redelivers else !f.deferralForks && !f.redelivers
  {
    PatternMatchesItself(pattern);
    if delay >= 0 && Repeats(f, n) {
      var events, q := SpacingBroken<T>(f, n, delay);
      assert Happens(pattern, f, n, delay, 0, events, q, 0);
    } else {
      forall start, events: seq<Event<T>>, q, origin: nat
        | Happens(pattern, f, n, delay, start, events, q, origin)
        ensures SpacingKept(q, origin)
      {
        if delay < 0 { RunsInOrder(start, events, q, origin); }
        else if OnlyOnce(n) { SingleRuns(f, start, events, q, origin); }
        else { LoneRuns(f, start, events, q); }
      }
    }
  }

  /** No attempt comes before the producer's time over every run exactly if the message has one
      attempt at most, or no deferral raises. */
  lemma ScheduleIff<T(!new)>(pattern: string, f: Faults, n: int, delay: int)
    ensures ScheduleHolds<T>(pattern, f, n, delay) <==> OnlyOnce(n) || (!f.deferralForks && !f.deferralFails)
  {
    PatternMatchesItself(pattern);
    if OnlyOnce(n) || (!f.deferralForks && !f.deferralFails) {
      forall start, events: seq<Event<T>>, q, origin: nat
        | Happens(pattern, f, n, delay, start, events, q, origin)
        ensures ScheduleKept(q, origin)
      {
        if OnlyOnce(n) { UnchangedRuns(start, events, q, origin); } else { ScheduledRuns(f, start, events, q); }
      }
    } else {
      var events, q := ScheduleBroken<T>(f, n, delay);
      assert Happens(pattern, f, n, delay, 0, events, q, 0);
    }
  }

  /** The clock does not go back. */
  lemma {:induction false} RunsInOrder<T>(start: int, events: seq<Event<T>>, q: Queue<T>, origin: nat)
    requires ReachedIf(true, start, events) == Some(q)
    ensures InThePast(TimesOf(q.calls, origin), q.now)
    decreases |events|
  {
    if events != [] {
      var before, e := ReachedIf(true, start, events[..|events| - 1]).value, events[|events| - 1];
      RunsInOrder(start, events[..|events| - 1], before, origin);
      match e
      case Accept(_) =>
      case Deliver(i, env) =>
        DeliveredTimes(before, i, env, origin);
        LaterInOrder(TimesOf(before.calls, origin), before.now, env);
      case Redeliver(_) =>
    }
  }
}
