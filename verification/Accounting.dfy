/** What becomes of every accepted message, and how often its handler may run: counts that every
    event of the queue keeps. */
module Accounting {
  import opened Wrappers
  import opened Messages
  import opened Topic
  import opened Consumer

  // ---------- sums over tokens ----------

  function Tally<T>(tokens: seq<Token<T>>, f: Token<T> -> nat): nat {
    if tokens == [] then 0 else Tally(tokens[..|tokens| - 1], f) + f(tokens[|tokens| - 1])
  }

  lemma TallyAppend<T>(tokens: seq<Token<T>>, t: Token<T>, f: Token<T> -> nat)
    ensures Tally(tokens + [t], f) == Tally(tokens, f) + f(t)
  {
    assert (tokens + [t])[..|tokens|] == tokens;
  }

  lemma {:induction false} TallyConcat<T>(a: seq<Token<T>>, b: seq<Token<T>>, f: Token<T> -> nat)
    ensures Tally(a + b, f) == Tally(a, f) + Tally(b, f)
  {
    if b == [] {
      assert a + b == a;
    } else {
      assert (a + b)[..|a + b| - 1] == a + b[..|b| - 1];
      TallyConcat(a, b[..|b| - 1], f);
    }
  }

  lemma TallyInsert<T>(before: seq<Token<T>>, t: Token<T>, after: seq<Token<T>>, f: Token<T> -> nat)
    ensures Tally(before + [t] + after, f) == Tally(before + after, f) + f(t)
  {
    TallyConcat(before, after, f);
    TallyAppend(before, t, f);
    TallyConcat(before + [t], after, f);
  }

  lemma TallyWithout<T>(tokens: seq<Token<T>>, i: nat, f: Token<T> -> nat)
    requires i < |tokens|
    ensures Tally(tokens, f) == Tally(Without(tokens, i), f) + f(tokens[i])
  {
    TallyInsert(tokens[..i], tokens[i], tokens[i + 1..], f);
    SplitAt(tokens, i);
  }

  function Is<T>(t: Token<T>, origin: nat): nat {
    if t.origin == origin then 1 else 0
  }

  /** The copies of a message, the attempts they have left, and the attempts that would be left of
      those that went unacknowledged, had they been acknowledged. */
  function Counting<T>(origin: nat): Token<T> -> nat {
    (t: Token<T>) => Is(t, origin)
  }

  function Weighing<T>(origin: nat): Token<T> -> nat {
    (t: Token<T>) => if t.origin == origin then Weight(t.message) else 0
  }

  function Reserving<T>(origin: nat): Token<T> -> nat {
    (t: Token<T>) => if t.origin == origin && !t.settled then Weight(t.message) - 1 else 0
  }

  function Extras(extra: seq<nat>, origin: nat): nat {
    if extra == [] then 0 else Extras(extra[..|extra| - 1], origin) + (if extra[|extra| - 1] == origin then 1 else 0)
  }

  /** When the handler was invoked for a message. */
  function TimesOf(calls: seq<Call>, origin: nat): seq<Invocation> {
    if calls == [] then []
    else
      var last := calls[|calls| - 1];
      TimesOf(calls[..|calls| - 1], origin) + if last.origin == origin then [last.invocation] else []
  }

  function ChargesOf(charges: seq<Charge>, origin: nat): nat {
    if charges == [] then 0
    else
      var last := charges[|charges| - 1];
      ChargesOf(charges[..|charges| - 1], origin) + if last.origin == origin then last.attempts else 0
  }

  lemma TimesAppend(calls: seq<Call>, c: Call, origin: nat)
    ensures TimesOf(calls + [c], origin) == TimesOf(calls, origin) + if c.origin == origin then [c.invocation] else []
  {
    assert (calls + [c])[..|calls|] == calls;
  }

  lemma ChargesAppend(charges: seq<Charge>, c: Charge, origin: nat)
    ensures ChargesOf(charges + [c], origin) == ChargesOf(charges, origin) + if c.origin == origin then c.attempts else 0
  {
    assert (charges + [c])[..|charges|] == charges;
  }

  // ---------- the two balances ----------

  /** The copies of one accepted message, wherever they are. */
  function Copies<T>(q: Queue<T>, origin: nat): nat {
    var f := Counting<T>(origin);
    Tally(q.ready, f) + Tally(q.unacked, f) + Tally(q.handled, f) + Tally(q.exhausted, f)
  }

  /** The copies there are, less the ones sent in vain. */
  function Balance<T>(q: Queue<T>, origin: nat): int {
    Copies(q, origin) - Extras(q.extra, origin)
  }

  /** The attempts made and left, less the ones given besides those the producer allowed. */
  function Budget<T>(q: Queue<T>, origin: nat): int {
    |TimesOf(q.calls, origin)| + Tally(q.ready, Weighing(origin)) + Tally(q.unacked, Reserving(origin)) - ChargesOf(q.charges, origin)
  }

  /** The same of what one delivery adds. */
  function AddedCopies<T>(e: Effect<T>, origin: nat): int {
    var f := Counting<T>(origin);
    Tally(e.ready, f) + Tally(e.unacked, f) + Tally(e.handled, f) + Tally(e.exhausted, f) - Extras(e.extra, origin)
  }

  function AddedAttempts<T>(e: Effect<T>, origin: nat): int {
    |TimesOf(e.calls, origin)| + Tally(e.ready, Weighing(origin)) + Tally(e.unacked, Reserving(origin)) - ChargesOf(e.charges, origin)
  }

  lemma AppliedAdds<T>(q: Queue<T>, e: Effect<T>, origin: nat)
    ensures Balance(Applied(q, e), origin) == Balance(q, origin) + AddedCopies(e, origin)
    ensures Budget(Applied(q, e), origin) == Budget(q, origin) + AddedAttempts(e, origin)
  {
    var f := Counting<T>(origin);
    TallyConcat(q.ready, e.ready, f);
    TallyConcat(q.unacked, e.unacked, f);
    TallyConcat(q.handled, e.handled, f);
    TallyConcat(q.exhausted, e.exhausted, f);
    TallyConcat(q.ready, e.ready, Weighing(origin));
    TallyConcat(q.unacked, e.unacked, Reserving(origin));
    LogsConcat(q.extra, e.extra, q.calls, e.calls, q.charges, e.charges, origin);
  }

  lemma BothAdds<T>(a: Effect<T>, b: Effect<T>, origin: nat)
    ensures AddedCopies(Both(a, b), origin) == AddedCopies(a, origin) + AddedCopies(b, origin)
    ensures AddedAttempts(Both(a, b), origin) == AddedAttempts(a, origin) + AddedAttempts(b, origin)
  {
    var q := Queue(0, [], a.ready, a.unacked, a.handled, a.exhausted, a.extra, a.calls, a.charges);
    AppliedAdds(q, b, origin);
  }

  lemma LogsConcat(x: seq<nat>, x': seq<nat>, c: seq<Call>, c': seq<Call>, h: seq<Charge>, h': seq<Charge>, origin: nat)
    ensures Extras(x + x', origin) == Extras(x, origin) + Extras(x', origin)
    ensures TimesOf(c + c', origin) == TimesOf(c, origin) + TimesOf(c', origin)
    ensures ChargesOf(h + h', origin) == ChargesOf(h, origin) + ChargesOf(h', origin)
  {
    ExtrasConcat(x, x', origin);
    TimesConcat(c, c', origin);
    ChargesConcat(h, h', origin);
  }

  lemma {:induction false} ExtrasConcat(a: seq<nat>, b: seq<nat>, origin: nat)
    ensures Extras(a + b, origin) == Extras(a, origin) + Extras(b, origin)
  {
    if b == [] { assert a + b == a; }
    else { assert (a + b)[..|a + b| - 1] == a + b[..|b| - 1]; ExtrasConcat(a, b[..|b| - 1], origin); }
  }

  lemma {:induction false} TimesConcat(a: seq<Call>, b: seq<Call>, origin: nat)
    ensures TimesOf(a + b, origin) == TimesOf(a, origin) + TimesOf(b, origin)
  {
    if b == [] { assert a + b == a; }
    else { assert (a + b)[..|a + b| - 1] == a + b[..|b| - 1]; TimesConcat(a, b[..|b| - 1], origin); }
  }

  lemma {:induction false} ChargesConcat(a: seq<Charge>, b: seq<Charge>, origin: nat)
    ensures ChargesOf(a + b, origin) == ChargesOf(a, origin) + ChargesOf(b, origin)
  {
    if b == [] { assert a + b == a; }
    else { assert (a + b)[..|a + b| - 1] == a + b[..|b| - 1]; ChargesConcat(a, b[..|b| - 1], origin); }
  }

  // ---------- what each effect adds ----------

  /** An effect adds `copies` of the message, and at most `attempts`. */
  ghost predicate Adds<T>(e: Effect<T>, origin: nat, copies: int, attempts: int) {
    AddedCopies(e, origin) == copies && AddedAttempts(e, origin) <= attempts
  }

  function Share<T>(t: Token<T>, origin: nat, n: int): int {
    if t.origin == origin then n else 0
  }

  lemma TallyOne<T>(t: Token<T>, f: Token<T> -> nat)
    ensures Tally([t], f) == f(t) && Tally([], f) == 0
  {
    assert [t][..0] == [];
  }

  lemma PublishedAdds<T>(t: Token<T>, origin: nat)
    ensures Adds(Published(true, t), origin, Share(t, origin, 1), Share(t, origin, Weight(t.message)))
  {
    TallyOne(t, Counting(origin));
    TallyOne(t, Weighing(origin));
  }

  lemma SentAgainAdds<T>(t: Token<T>, origin: nat)
    ensures Adds(SentAgain(true, t), origin, 0, Share(t, origin, Weight(t.message)))
  {
    PublishedAdds(t, origin);
    assert [t.origin][..0] == [];
  }

  lemma DeferredAgainAdds<T>(t: Token<T>, origin: nat)
    ensures Adds(DeferredAgain(true, t), origin, 0, 0)
  {
    SentAgainAdds(t, origin);
    assert [Charge(t.origin, Weight(t.message))][..0] == [];
  }

  lemma LeftUnackedAdds<T>(t: Token<T>, settled: bool, origin: nat)
    ensures Adds(LeftUnacked(t, settled), origin, Share(t, origin, 1), if settled then 0 else Share(t, origin, Weight(t.message) - 1))
  {
    var left := t.(leftUnacked := t.leftUnacked + 1, settled := settled);
    TallyOne(left, Counting(origin));
    TallyOne(left, Reserving(origin));
  }

  /** The attempts a failed message has left. */
  function Left<T>(m: Message<T>): nat {
    if m.attempts == -1 then 1 else Weight(m) - 1
  }

  lemma RetriedAdds<T>(t: Token<T>, m: Message<T>, result: PublishResult, origin: nat)
    requires Weight(m) == Left(t.message)
    ensures Adds(Retried(true, t, m, result), origin, Share(t, origin, 1), Share(t, origin, Left(t.message)))
  {
    match result
    case Sent => PublishedAdds(t.(message := m), origin);
    case NotSent => LeftUnackedAdds(t, false, origin);
    case SentThenRaised =>
      SentAgainAdds(t.(message := m), origin);
      LeftUnackedAdds(t, true, origin);
      BothAdds(SentAgain(true, t.(message := m)), LeftUnacked(t, true), origin);
  }

  lemma FailedAdds<T>(t: Token<T>, env: Env, origin: nat)
    ensures Adds(Failed(true, t, env), origin, Share(t, origin, 1), Share(t, origin, Left(t.message)))
  {
    match NextAttempt(t.message, env.fail)
    case None => TallyOne(t, Counting(origin));
    case Some(m) => RetriedAdds(t, m, env.retry, origin);
  }

  lemma SettledAdds<T>(t: Token<T>, env: Env, origin: nat)
    ensures Adds(Settled(true, t, env), origin, Share(t, origin, 1),
                 Share(t, origin, Weight(t.message) + if t.message.attempts == -1 then 1 else 0))
  {
    if Due(t.message, env.check) {
      HandledAdds(t, env, origin);
    } else {
      match env.deferral
      case Sent => PublishedAdds(t, origin);
      case NotSent => FailedAdds(Faulted(t, env), env, origin);
      case SentThenRaised =>
        DeferredAgainAdds(t, origin);
        FailedAdds(Faulted(t, env), env, origin);
        BothAdds(DeferredAgain(true, t), Failed(true, Faulted(t, env), env), origin);
    }
  }

  /** A lost acknowledgement leaves a copy besides, and no attempt until it is redelivered. */
  lemma AckLostAdds<T>(t: Token<T>, env: Env, origin: nat)
    ensures Adds(AckLost(t, env), origin, 0, 0)
  {
    assert [t.origin][..0] == [];
    if !Due(t.message, env.check) && env.deferral == Sent {
      KeptAdds(t, origin);
    } else {
      LeftUnackedAdds(Attempt(t, env), true, origin);
    }
  }

  lemma KeptAdds<T>(t: Token<T>, origin: nat)
    ensures Adds(Kept(t), origin, Share(t, origin, 1), 0)
  {
    TallyOne(t.(settled := true), Counting(origin));
    TallyOne(t.(settled := true), Reserving(origin));
  }

  /** One delivery adds the copy that was taken, and no attempt but to a message that has no end of
      them. */
  lemma DeliveryAdds<T>(t: Token<T>, env: Env, origin: nat)
    ensures Adds(Delivery(true, t, env), origin, Share(t, origin, 1),
                 Share(t, origin, Weight(t.message) + if t.message.attempts == -1 then 1 else 0))
  {
    SettledAdds(t, env, origin);
    AckLostAdds(t, env, origin);
    BothAdds(Settled(true, t, env), AckLost(t, env), origin);
  }

  lemma HandledAdds<T>(t: Token<T>, env: Env, origin: nat)
    ensures Adds(Handled(true, t, env), origin, Share(t, origin, 1), Share(t, origin, 1 + Left(t.message)))
  {
    var called := Called(t, env);
    var call: Effect<T> := Nothing().(calls := [Call(t.origin, During(env))]);
    var rest := if env.handlerRaises then Failed(true, called, env) else Nothing().(handled := [called]);
    FailedAdds(called, env, origin);
    TallyOne(called, Counting(origin));
    assert Adds(rest, origin, Share(t, origin, 1), Share(t, origin, Left(t.message)));
    TimesAppend([], Call(t.origin, During(env)), origin);
    assert [] + [Call(t.origin, During(env))] == [Call(t.origin, During(env))];
    BothAdds(call, rest, origin);
  }

  lemma TakenLoses<T>(q: Queue<T>, i: nat, now: int, origin: nat)
    requires i < |q.ready|
    ensures Balance(Taken(q, i, now), origin) == Balance(q, origin) - Share(q.ready[i], origin, 1)
    ensures Budget(Taken(q, i, now), origin) == Budget(q, origin) - Share(q.ready[i], origin, Weight(q.ready[i].message))
  {
    TallyWithout(q.ready, i, Counting(origin));
    TallyWithout(q.ready, i, Weighing(origin));
  }

  lemma DeliveredAccounts<T>(q: Queue<T>, i: nat, env: Env, origin: nat)
    requires i < |q.ready| && Timely(q, env)
    ensures Balance(Delivered(true, q, i, env), origin) == Balance(q, origin)
    ensures q.ready[i].message.attempts != -1 || q.ready[i].origin != origin ==> Budget(Delivered(true, q, i, env), origin) <= Budget(q, origin)
  {
    TakenLoses(q, i, env.fail, origin);
    DeliveryAdds(q.ready[i], env, origin);
    AppliedAdds(Taken(q, i, env.fail), Delivery(true, q.ready[i], env), origin);
  }

  lemma RedeliveredAccounts<T>(q: Queue<T>, i: nat, origin: nat)
    requires i < |q.unacked|
    ensures Balance(Redelivered(q, i), origin) == Balance(q, origin)
    ensures Budget(Redelivered(q, i), origin) == Budget(q, origin)
  {
    var t := q.unacked[i];
    TallyWithout(q.unacked, i, Counting(origin));
    TallyWithout(q.unacked, i, Reserving(origin));
    TallyAppend(q.ready, t.(settled := false), Counting(origin));
    TallyAppend(q.ready, t.(settled := false), Weighing(origin));
    ChargesAppend(q.charges, Charge(t.origin, if t.settled then Weight(t.message) else 1), origin);
  }

  lemma AcceptedAccounts<T>(q: Queue<T>, m: Message<T>, origin: nat)
    ensures Balance(Next(true, q, Accept(m)), origin) == Balance(q, origin) + if origin == |q.accepted| then 1 else 0
    ensures Budget(Next(true, q, Accept(m)), origin) == Budget(q, origin) + if origin == |q.accepted| then Weight(m) else 0
  {
    var t := Token(|q.accepted|, m, m, [], [], 0, 0, false);
    TallyAppend(q.ready, t, Counting(origin));
    TallyAppend(q.ready, t, Weighing(origin));
  }

  // ---------- what is given in excess ----------

  /** What each event charges a message, and nothing else does: a deferral sent and then raised, and a
      redelivery of a copy that was dealt with, all the attempts it has left; another redelivery, one. */
  lemma StepCharges<T>(q: Queue<T>, e: Event<T>, origin: nat)
    requires Possible(q, e)
    ensures ChargesOf(Next(true, q, e).charges, origin) == ChargesOf(q.charges, origin)
            + match e
              case Accept(_) => 0
              case Deliver(i, env) =>
                var m := q.ready[i].message;
                if q.ready[i].origin == origin && m.started.Some? && m.started.value >= env.check && env.deferral == SentThenRaised
                then (if m.attempts >= 1 then m.attempts else 1) else 0
              case Redeliver(i) =>
                var m := q.unacked[i].message;
                if q.unacked[i].origin != origin then 0
                else if q.unacked[i].settled && m.attempts >= 1 then m.attempts else 1
  {
    match e
    case Accept(_) =>
    case Deliver(i, env) =>
      DeliveryCharges(q.ready[i], env);
      ChargesAppend(q.charges, Charge(q.ready[i].origin, Weight(q.ready[i].message)), origin);
      assert q.charges + [] == q.charges;
    case Redeliver(i) =>
      var t := q.unacked[i];
      ChargesAppend(q.charges, Charge(t.origin, if t.settled then Weight(t.message) else 1), origin);
  }

  lemma DeliveryCharges<T>(t: Token<T>, env: Env)
    ensures Delivery(true, t, env).charges
         == if !Due(t.message, env.check) && env.deferral == SentThenRaised then [Charge(t.origin, Weight(t.message))] else []
  {
    FailedCharges(Faulted(t, env), env);
    FailedCharges(Called(t, env), env);
  }

  lemma FailedCharges<T>(t: Token<T>, env: Env)
    ensures Failed(true, t, env).charges == []
  {
  }

  /** A copy that stays unacknowledged was dealt with, unless it failed with attempts left and its
      retry was not sent. */
  lemma UnackedSettled<T>(t: Token<T>, env: Env, u: Token<T>)
    requires u in Delivery(true, t, env).unacked
    ensures var m := t.message;
            var raised := if m.started.None? || m.started.value < env.check then env.handlerRaises else env.deferral != Sent;
            u.settled <==> !(raised && (m.attempts == -1 || m.attempts >= 2) && env.retry == NotSent)
  {
    OutcomeMeans(t, env);
    if u in Settled(true, t, env).unacked { SettledUnacked(t, env, u); }
  }

  lemma SettledUnacked<T>(t: Token<T>, env: Env, u: Token<T>)
    requires u in Settled(true, t, env).unacked
    ensures OutcomeOf(t, env) == None && (u.settled <==> env.retry != NotSent)
  {
    if Due(t.message, env.check) {
      assert u in Failed(true, Called(t, env), env).unacked;
    } else {
      assert u in Failed(true, Faulted(t, env), env).unacked;
    }
  }

  // ---------- over runs ----------

  /** A copy in the broker is of the message it says it is of, and has no end of attempts only if
      that has none. */
  ghost predicate Genuine<T>(accepted: seq<Message<T>>, t: Token<T>) {
    t.origin < |accepted| && accepted[t.origin] == t.original && (t.message.attempts == -1 <==> t.original.attempts == -1)
  }

  ghost predicate AllGenuine<T>(accepted: seq<Message<T>>, ts: seq<Token<T>>) {
    forall t :: t in ts ==> Genuine(accepted, t)
  }

  lemma GenuineConcat<T>(accepted: seq<Message<T>>, a: seq<Token<T>>, b: seq<Token<T>>)
    requires AllGenuine(accepted, a) && AllGenuine(accepted, b)
    ensures AllGenuine(accepted, a + b)
  {
  }

  lemma FailedGenuine<T>(accepted: seq<Message<T>>, t: Token<T>, env: Env)
    requires Genuine(accepted, t)
    ensures AllGenuine(accepted, Failed(true, t, env).ready) && AllGenuine(accepted, Failed(true, t, env).unacked)
  {
  }

  lemma SettledGenuine<T>(accepted: seq<Message<T>>, t: Token<T>, env: Env)
    requires Genuine(accepted, t)
    ensures AllGenuine(accepted, Settled(true, t, env).ready) && AllGenuine(accepted, Settled(true, t, env).unacked)
  {
    FailedGenuine(accepted, Called(t, env), env);
    FailedGenuine(accepted, Faulted(t, env), env);
  }

  lemma DeliveryGenuine<T>(accepted: seq<Message<T>>, t: Token<T>, env: Env)
    requires Genuine(accepted, t)
    ensures AllGenuine(accepted, Delivery(true, t, env).ready) && AllGenuine(accepted, Delivery(true, t, env).unacked)
  {
    SettledGenuine(accepted, t, env);
    assert AllGenuine(accepted, AckLost(t, env).unacked);
  }

  /** What the producer allowed a message: one copy, and the attempts it started with. */
  ghost predicate Accounted<T>(q: Queue<T>, origin: nat) {
    && AllGenuine(q.accepted, q.ready) && AllGenuine(q.accepted, q.unacked)
    && Balance(q, origin) == (if origin < |q.accepted| then 1 else 0)
    && (origin < |q.accepted| && q.accepted[origin].attempts != -1 ==> Budget(q, origin) <= Weight(q.accepted[origin]))
    && (origin >= |q.accepted| ==> Budget(q, origin) <= 0)
  }

  lemma {:induction false} RunsAccounted<T>(start: int, events: seq<Event<T>>, q: Queue<T>, origin: nat)
    requires ReachedIf(true, start, events) == Some(q)
    ensures Accounted(q, origin)
    decreases |events|
  {
    if events != [] {
      var before, e := ReachedIf(true, start, events[..|events| - 1]).value, events[|events| - 1];
      RunsAccounted(start, events[..|events| - 1], before, origin);
      match e
      case Accept(m) => AcceptedAccounted(before, m, origin);
      case Deliver(i, env) => DeliveredAccounted(before, i, env, origin);
      case Redeliver(i) => RedeliveredAccounted(before, i, origin);
    }
  }

  lemma AcceptedAccounted<T>(q: Queue<T>, m: Message<T>, origin: nat)
    requires Accounted(q, origin)
    ensures Accounted(Next(true, q, Accept(m)), origin)
  {
    var q' := Next(true, q, Accept(m));
    AcceptedAccounts(q, m, origin);
    forall t | t in q'.ready || t in q'.unacked ensures Genuine(q'.accepted, t) {
      if t in q.ready || t in q.unacked { assert Genuine(q.accepted, t); }
    }
  }

  lemma DeliveredAccounted<T>(q: Queue<T>, i: nat, env: Env, origin: nat)
    requires i < |q.ready| && Timely(q, env) && Accounted(q, origin)
    ensures Accounted(Delivered(true, q, i, env), origin)
  {
    var t := q.ready[i];
    assert Genuine(q.accepted, t);
    DeliveryGenuine(q.accepted, t, env);
    GenuineConcat(q.accepted, Without(q.ready, i), Delivery(true, t, env).ready);
    GenuineConcat(q.accepted, q.unacked, Delivery(true, t, env).unacked);
    DeliveredAccounts(q, i, env, origin);
  }

  lemma RedeliveredAccounted<T>(q: Queue<T>, i: nat, origin: nat)
    requires i < |q.unacked| && Accounted(q, origin)
    ensures Accounted(Redelivered(q, i), origin)
  {
    assert Genuine(q.accepted, q.unacked[i]);
    assert forall t :: t in Without(q.unacked, i) ==> t in q.unacked;
    RedeliveredAccounts(q, i, origin);
  }

  /** No loss, and exact accounting: whatever is delivered, deferred, retried, faulty or
      redelivered, every accepted message is in the broker, handled or exhausted exactly once,
      plus once for each publication of it that raised although it had been sent, and for each
      acknowledgement of it that raised; and nothing that was not accepted is anywhere. */
  lemma EveryMessageAccountedFor<T>(pattern: string, start: int, events: seq<Event<T>>, q: Queue<T>, origin: nat)
    requires Reached(pattern, start, events) == Some(q)
    ensures Copies(q, origin) == (if origin < |q.accepted| then 1 else 0) + Extras(q.extra, origin)
  {
    PatternMatchesItself(pattern);
    RunsAccounted(start, events, q, origin);
  }

  /** The attempt bound of a message, over every run: its handler is invoked at most as often as
      the producer allowed (n times for n >= 1, once for any other n but -1), and beyond that only
      for attempts it was given in excess: one for each redelivery of a copy whose retry was never
      sent, and all the attempts that a copy had left for each redelivery of one that was dealt
      with, and for each deferral that was sent and then raised. */
  lemma CallsBounded<T>(pattern: string, start: int, events: seq<Event<T>>, q: Queue<T>, origin: nat)
    requires Reached(pattern, start, events) == Some(q)
    requires origin < |q.accepted| && q.accepted[origin].attempts != -1
    ensures var n := q.accepted[origin].attempts;
            |TimesOf(q.calls, origin)| <= (if n >= 1 then n else 1) + ChargesOf(q.charges, origin)
  {
    PatternMatchesItself(pattern);
    RunsAccounted(start, events, q, origin);
  }
}
