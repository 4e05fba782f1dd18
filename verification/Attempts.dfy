/** When the handler of a message may run along one chain of its copies: how often, how far apart,
    and not before when. */
module Attempts {
  import opened Wrappers
  import opened Messages
  import opened Topic
  import opened Consumer

  // ---------- what every chain of copies keeps ----------

  /** A message keeps what it is about; only its schedule and its attempts change. */
  ghost predicate SameTask<T>(t: Token<T>) {
    t.message == t.original.(started := t.message.started, attempts := t.message.attempts)
  }

  /** The attempts left and the attempts used up add up to what the producer allowed, and one for
      each time the message was left unacknowledged. -1 stays -1 and is never reached from anything
      else. */
  ghost predicate WithinAttempts<T>(t: Token<T>) {
    var n := t.original.attempts;
    if n == -1 then t.message.attempts == -1
    else if n >= 1 then t.message.attempts >= 1 && |t.calls| + t.deferFaults + t.message.attempts == n + t.leftUnacked
    else t.message.attempts == n && |t.calls| + t.deferFaults == t.leftUnacked
  }

  /** All that the producer allowed is used up. */
  ghost predicate UsedUp<T>(t: Token<T>) {
    t.original.attempts != -1 && |t.calls| + t.deferFaults == Weight(t.original) + t.leftUnacked
  }

  /** From the end of one attempt to the next, more than the retry delay has passed. */
  ghost predicate Separated(times: seq<Invocation>, delay: int) {
    forall i :: 0 <= i < |times| - 1 ==> times[i].end + delay < times[i + 1].at
  }

  /** And the schedule of the message is the producer's until something fails, and from then on the
      retry delay after the last failure. */
  ghost predicate Spaced<T>(t: Token<T>) {
    && Separated(t.calls, t.original.delay)
    && (t.calls != [] ==> t.failures != [] && t.calls[|t.calls| - 1].end <= t.failures[|t.failures| - 1])
    && t.message.started == (if t.failures == [] then t.original.started else Some(t.failures[|t.failures| - 1] + t.original.delay))
  }

  /** No attempt came before the time the producer set. */
  ghost predicate AfterSchedule(times: seq<Invocation>, started: Option<int>) {
    started.Some? ==> forall i :: 0 <= i < |times| ==> started.value < times[i].at
  }

  ghost predicate OnSchedule<T>(t: Token<T>) {
    AfterSchedule(t.calls, t.original.started) && (t.calls == [] ==> t.message.started == t.original.started)
  }

  ghost predicate InThePast(times: seq<Invocation>, now: int) {
    && (forall i :: 0 <= i < |times| ==> times[i].at <= times[i].end <= now)
    && (forall i :: 0 <= i < |times| - 1 ==> times[i].end <= times[i + 1].at)
  }

  /** A token that can still be delivered. */
  ghost predicate Live<T>(t: Token<T>, now: int) {
    && SameTask(t) && WithinAttempts(t) && InThePast(t.calls, now)
    && (t.leftUnacked == 0 ==> Spaced(t))
    && (t.deferFaults == 0 ==> OnSchedule(t))
  }

  /** A token that is done with: its last attempt is counted. */
  ghost predicate Finished<T>(t: Token<T>, now: int) {
    && SameTask(t) && InThePast(t.calls, now)
    && (t.original.attempts != -1 ==> |t.calls| + t.deferFaults <= Weight(t.original) + t.leftUnacked)
    && (t.leftUnacked == 0 ==> Separated(t.calls, t.original.delay))
    && (t.deferFaults == 0 ==> AfterSchedule(t.calls, t.original.started))
  }

  ghost predicate AllLive<T>(ts: seq<Token<T>>, now: int) {
    forall t :: t in ts ==> Live(t, now)
  }

  ghost predicate AllFinished<T>(ts: seq<Token<T>>, now: int) {
    forall t :: t in ts ==> Finished(t, now)
  }

  ghost predicate AllUsedUp<T>(ts: seq<Token<T>>) {
    forall t :: t in ts ==> UsedUp(t)
  }

  ghost predicate Sound<T>(ready: seq<Token<T>>, unacked: seq<Token<T>>, handled: seq<Token<T>>, exhausted: seq<Token<T>>, now: int) {
    AllLive(ready, now) && AllLive(unacked, now) && AllFinished(handled, now) && AllFinished(exhausted, now) && AllUsedUp(exhausted)
  }

  ghost predicate SoundQueue<T>(q: Queue<T>) {
    Sound(q.ready, q.unacked, q.handled, q.exhausted, q.now)
  }

  ghost predicate SoundEffect<T>(e: Effect<T>, now: int) {
    Sound(e.ready, e.unacked, e.handled, e.exhausted, now)
  }

  /** The token just before the outcome of its delivery is known: it was due and the handler ran,
      or it was not and its deferral raised. */
  ghost predicate Attempted<T>(t: Token<T>, u: Token<T>, env: Env) {
    (Due(t.message, env.check) && u == Called(t, env)) || u == Faulted(t, env)
  }

  lemma Passes<T>(t: Token<T>, now: int, later: int)
    requires Live(t, now) && now <= later
    ensures Live(t, later)
  {
  }

  /** What an attempt adds to the history of a token. */
  lemma AttemptHistory<T>(t: Token<T>, u: Token<T>, now: int, env: Env)
    requires Live(t, now) && now <= env.check <= env.fail && Attempted(t, u, env)
    ensures SameTask(u) && InThePast(u.calls, env.fail)
    ensures u.leftUnacked == 0 ==> Separated(u.calls, u.original.delay)
    ensures u.deferFaults == 0 ==> AfterSchedule(u.calls, u.original.started)
    ensures u.deferFaults == 0 ==> u.calls != []
    ensures |u.calls| + u.deferFaults == |t.calls| + t.deferFaults + 1
    ensures u == t.(calls := u.calls, failures := u.failures, deferFaults := u.deferFaults)
  {
    LaterInOrder(t.calls, now, env);
    if u == Called(t, env) && Due(t.message, env.check) {
      if t.leftUnacked == 0 { NextApart(t, env); }
      if t.deferFaults == 0 { NextOnSchedule(t, now, env); }
    }
  }

  lemma LaterInOrder(times: seq<Invocation>, now: int, env: Env)
    requires InThePast(times, now) && now <= env.check <= env.fail
    ensures InThePast(times, env.fail) && InThePast(times + [During(env)], env.fail) && times + [] == times
  {
  }

  lemma NextApart<T>(t: Token<T>, env: Env)
    requires SameTask(t) && Spaced(t) && Due(t.message, env.check)
    ensures Separated(t.calls + [During(env)], t.original.delay)
  {
  }

  lemma NextOnSchedule<T>(t: Token<T>, now: int, env: Env)
    requires OnSchedule(t) && InThePast(t.calls, now) && now <= env.check && Due(t.message, env.check)
    ensures AfterSchedule(t.calls + [During(env)], t.original.started)
  {
    if t.calls != [] && t.original.started.Some? {
      assert t.original.started.value < t.calls[|t.calls| - 1].at <= env.check;
    }
  }

  /** An attempt that failed leaves a token done with, or fit to be redelivered. */
  lemma AttemptFails<T>(t: Token<T>, u: Token<T>, now: int, env: Env, settled: bool)
    requires Live(t, now) && now <= env.check <= env.fail && Attempted(t, u, env)
    ensures Finished(u, env.fail)
    ensures NextAttempt(u.message, env.fail).None? ==> UsedUp(u)
    ensures Live(u.(leftUnacked := u.leftUnacked + 1, settled := settled), env.fail)
  {
    AttemptHistory(t, u, now, env);
    var left := u.(leftUnacked := u.leftUnacked + 1, settled := settled);
    assert SameTask(left) && InThePast(left.calls, env.fail);
  }

  /** Or fit to be retried, with one attempt less, the retry delay after its failure. */
  lemma AttemptRetried<T>(t: Token<T>, u: Token<T>, now: int, env: Env, m: Message<T>)
    requires Live(t, now) && now <= env.check <= env.fail && Attempted(t, u, env) && (u == Called(t, env) ==> env.handlerRaises)
    requires NextAttempt(u.message, env.fail) == Some(m)
    ensures Live(u.(message := m), env.fail)
  {
    AttemptHistory(t, u, now, env);
    var next := u.(message := m);
    assert SameTask(next) && InThePast(next.calls, env.fail);
  }

  lemma FailedSound<T>(t: Token<T>, u: Token<T>, now: int, env: Env)
    requires Live(t, now) && now <= env.check <= env.fail && Attempted(t, u, env) && (u == Called(t, env) ==> env.handlerRaises)
    ensures SoundEffect(Failed(true, u, env), env.fail)
  {
    AttemptFails(t, u, now, env, true);
    AttemptFails(t, u, now, env, false);
    match NextAttempt(u.message, env.fail)
    case None =>
    case Some(m) =>
      AttemptRetried(t, u, now, env, m);
      RetriedSound(u, m, env.retry, env.fail);
  }

  lemma RetriedSound<T>(u: Token<T>, m: Message<T>, result: PublishResult, now: int)
    requires Live(u.(message := m), now)
    requires Live(u.(leftUnacked := u.leftUnacked + 1, settled := true), now)
    requires Live(u.(leftUnacked := u.leftUnacked + 1, settled := false), now)
    ensures SoundEffect(Retried(true, u, m, result), now)
  {
  }

  lemma SettledSound<T>(t: Token<T>, now: int, env: Env)
    requires Live(t, now) && now <= env.check <= env.fail
    ensures SoundEffect(Settled(true, t, env), env.fail)
  {
    Passes(t, now, env.fail);
    if Due(t.message, env.check) {
      if env.handlerRaises { FailedSound(t, Called(t, env), now, env); }
      AttemptFails(t, Called(t, env), now, env, false);
    } else {
      FailedSound(t, Faulted(t, env), now, env);
    }
  }

  lemma AckLostSound<T>(t: Token<T>, now: int, env: Env)
    requires Live(t, now) && now <= env.check <= env.fail
    ensures SoundEffect(AckLost(t, env), env.fail)
  {
    Passes(t, now, env.fail);
    if Due(t.message, env.check) || env.deferral != Sent {
      AttemptFails(t, Attempt(t, env), now, env, true);
    } else {
      assert Live(t.(settled := true), env.fail);
    }
  }

  lemma DeliverySound<T>(t: Token<T>, now: int, env: Env)
    requires Live(t, now) && now <= env.check <= env.fail
    ensures SoundEffect(Delivery(true, t, env), env.fail)
  {
    SettledSound(t, now, env);
    AckLostSound(t, now, env);
  }

  lemma SoundConcat<T>(q: Queue<T>, e: Effect<T>)
    requires SoundQueue(q) && SoundEffect(e, q.now)
    ensures SoundQueue(Applied(q, e))
  {
  }

  lemma SoundLater<T>(q: Queue<T>, i: nat, later: int)
    requires i < |q.ready| && SoundQueue(q) && q.now <= later
    ensures SoundQueue(Taken(q, i, later))
  {
    forall t | t in q.ready ensures Live(t, later) { Passes(t, q.now, later); }
    forall t | t in q.unacked ensures Live(t, later) { Passes(t, q.now, later); }
    assert forall t :: t in Without(q.ready, i) ==> t in q.ready;
  }

  lemma EventSound<T>(q: Queue<T>, e: Event<T>)
    requires Possible(q, e) && SoundQueue(q)
    ensures SoundQueue(Next(true, q, e))
  {
    match e
    case Accept(m) =>
      assert Live(Token(|q.accepted|, m, m, [], [], 0, 0, false), q.now);
    case Deliver(i, env) =>
      assert q.ready[i] in q.ready;
      DeliverySound(q.ready[i], q.now, env);
      SoundLater(q, i, env.fail);
      SoundConcat(Taken(q, i, env.fail), Delivery(true, q.ready[i], env));
    case Redeliver(i) =>
      assert q.unacked[i] in q.unacked && Live(q.unacked[i].(settled := false), q.now);
      assert forall t :: t in Without(q.unacked, i) ==> t in q.unacked;
  }

  lemma {:induction false} RunIsSound<T>(start: int, events: seq<Event<T>>, q: Queue<T>)
    requires ReachedIf(true, start, events) == Some(q)
    ensures SoundQueue(q)
    decreases |events|
  {
    if events != [] {
      var before, e := ReachedIf(true, start, events[..|events| - 1]).value, events[|events| - 1];
      RunIsSound(start, events[..|events| - 1], before);
      EventSound(before, e);
    }
  }

  /** Over every run, for every chain of copies of a message: with n >= 1 attempts the handler is
      invoked at most n times along the chain, with any other n but -1 at most once, and once more
      for each time it was left unacknowledged; it is given up only when all of these are used up;
      -1 is on a copy only if the producer put it there; unless it was left unacknowledged, attempts
      are more than the retry delay apart; and unless a deferral failed to be republished, none came
      before the producer's time. */
  lemma ChainsAreSound<T>(pattern: string, start: int, events: seq<Event<T>>, q: Queue<T>)
    requires Reached(pattern, start, events) == Some(q)
    ensures SoundQueue(q)
  {
    PatternMatchesItself(pattern);
    RunIsSound(start, events, q);
  }

  /** Over every run, a message that comes again is due exactly when more than its retry delay has
      passed since it last failed, and one that has not failed exactly after the producer's time,
      unless it was left unacknowledged. Until it is due, it is deferred as it is. */
  lemma RetryWaits<T>(pattern: string, start: int, events: seq<Event<T>>, q: Queue<T>, at: nat, check: int)
    requires Reached(pattern, start, events) == Some(q)
    requires at < |q.ready| && q.ready[at].leftUnacked == 0
    ensures var t := q.ready[at];
            var due := t.message.started.None? || t.message.started.value < check;
            due <==> if t.failures != [] then t.failures[|t.failures| - 1] + t.original.delay < check
                     else t.original.started.Some? ==> t.original.started.value < check
  {
    ChainsAreSound(pattern, start, events, q);
    assert q.ready[at] in q.ready;
  }
}
