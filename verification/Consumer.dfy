/** The consumer: deliveries that are handled, deferred, retried or given up, over a broker queue
    to which publications and acknowledgements may fail. */
module Consumer {
  import opened Wrappers
  import opened Messages
  import opened Topic

  /** A message body in the broker or done with, and the history of the chain of copies it ends:
      the producer's original, when the handler was invoked, how often a deferral failed to be
      republished, when one or the other failed, and how often an attempt of it was left
      unacknowledged. `settled` marks one that was left unacknowledged although it was dealt with:
      its retry had been sent, or only its acknowledgement raised. */
  datatype Token<T> = Token(origin: nat, original: Message<T>, message: Message<T>,
                            calls: seq<Invocation>, failures: seq<int>, deferFaults: nat, leftUnacked: nat, settled: bool)

  /** What happens around one delivery: the time it is checked, whether the handler raises, the
      time it is over, when an exception is handled, how the two publications go, and whether the acknowledgement
      raises, because the channel has closed. A worker that is killed leaves its delivery as one of
      these does. */
  datatype Env = Env(check: int, handlerRaises: bool, fail: int, deferral: PublishResult, retry: PublishResult, ackRaises: bool)

  /** When the handler was invoked and when that was over, and by the message it was for. */
  datatype Invocation = Invocation(at: int, end: int)

  datatype Call = Call(origin: nat, invocation: Invocation)

  /** Attempts that a message is given beyond those its producer allowed. */
  datatype Charge = Charge(origin: nat, attempts: nat)

  /** The broker's queue, and what has become of every message it ever accepted. `extra` are the
      origins of copies there are besides: sent by publications that raised, or left by
      acknowledgements that did. */
  datatype Queue<T> = Queue(now: int, accepted: seq<Message<T>>,
                            ready: seq<Token<T>>, unacked: seq<Token<T>>,
                            handled: seq<Token<T>>, exhausted: seq<Token<T>>,
                            extra: seq<nat>, calls: seq<Call>, charges: seq<Charge>)

  function Empty<T>(start: int): Queue<T> {
    Queue(start, [], [], [], [], [], [], [], [])
  }

  /** The attempts that a message still has, unless it has no end of them. */
  function Weight<T>(m: Message<T>): nat {
    if m.attempts >= 1 then m.attempts else 1
  }

  // ---------- what one delivery adds to the queue ----------

  datatype Effect<T> = Effect(ready: seq<Token<T>>, unacked: seq<Token<T>>, handled: seq<Token<T>>, exhausted: seq<Token<T>>,
                              extra: seq<nat>, calls: seq<Call>, charges: seq<Charge>)

  function Nothing<T>(): Effect<T> {
    Effect([], [], [], [], [], [], [])
  }

  function Both<T>(a: Effect<T>, b: Effect<T>): Effect<T> {
    Effect(a.ready + b.ready, a.unacked + b.unacked, a.handled + b.handled, a.exhausted + b.exhausted,
           a.extra + b.extra, a.calls + b.calls, a.charges + b.charges)
  }

  function Applied<T>(q: Queue<T>, e: Effect<T>): Queue<T> {
    Queue(q.now, q.accepted, q.ready + e.ready, q.unacked + e.unacked, q.handled + e.handled, q.exhausted + e.exhausted,
          q.extra + e.extra, q.calls + e.calls, q.charges + e.charges)
  }

  /** The consumer publishes under its own binding pattern as the routing key. `routes` says
      whether the exchange hands such a message to the queue bound with that pattern; if it does
      not, the message is gone. */
  function Published<T>(routes: bool, t: Token<T>): Effect<T> {
    Nothing().(ready := if routes then [t] else [])
  }

  /** A publication that raised although it was sent: the copy is there, and counts as extra. */
  function SentAgain<T>(routes: bool, t: Token<T>): Effect<T> {
    Published(routes, t).(extra := [t.origin])
  }

  function LeftUnacked<T>(t: Token<T>, settled: bool): Effect<T> {
    Nothing().(unacked := [t.(leftUnacked := t.leftUnacked + 1, settled := settled)])
  }

  /** The republication of a failed message: a copy, a token left unacknowledged, or both. */
  function Retried<T>(routes: bool, t: Token<T>, m: Message<T>, result: PublishResult): Effect<T> {
    match result
    case Sent => Published(routes, t.(message := m))
    case NotSent => LeftUnacked(t, false)
    case SentThenRaised => Both(SentAgain(routes, t.(message := m)), LeftUnacked(t, true))
  }

  /** What a failed message is retried as, if it is: while attempts remain, or for ever if there
      are -1 of them, after its retry delay. */
  function NextAttempt<T>(m: Message<T>, fail: int): Option<Message<T>> {
    var later := m.(started := Some(fail + m.delay));
    if m.attempts == -1 then Some(later)
    else if m.attempts - 1 > 0 then Some(later.(attempts := m.attempts - 1))
    else None
  }

  /** A delivery that raised. */
  function Failed<T>(routes: bool, t: Token<T>, env: Env): Effect<T> {
    match NextAttempt(t.message, env.fail)
    case None => Nothing().(exhausted := [t])
    case Some(m) => Retried(routes, t, m, env.retry)
  }

  predicate Due<T>(m: Message<T>, check: int) {
    m.started.Some? ==> m.started.value < check
  }

  /** A deferral that raised although it was sent: the copy keeps all its attempts, and the message
      goes on to be retried besides. */
  function DeferredAgain<T>(routes: bool, t: Token<T>): Effect<T> {
    SentAgain(routes, t).(charges := [Charge(t.origin, Weight(t.message))])
  }

  function Faulted<T>(t: Token<T>, env: Env): Token<T> {
    t.(deferFaults := t.deferFaults + 1, failures := t.failures + [env.fail])
  }

  function Called<T>(t: Token<T>, env: Env): Token<T> {
    t.(calls := t.calls + [During(env)], failures := if env.handlerRaises then t.failures + [env.fail] else t.failures)
  }

  function During(env: Env): Invocation {
    Invocation(env.check, env.fail)
  }

  /** A message that is not due goes back to the queue; if that raises, it counts as an attempt. */
  function Deferred<T>(routes: bool, t: Token<T>, env: Env): Effect<T> {
    match env.deferral
    case Sent => Published(routes, t)
    case NotSent => Failed(routes, Faulted(t, env), env)
    case SentThenRaised => Both(DeferredAgain(routes, t), Failed(routes, Faulted(t, env), env))
  }

  function Handled<T>(routes: bool, t: Token<T>, env: Env): Effect<T> {
    var called := Called(t, env);
    Both(Nothing().(calls := [Call(t.origin, During(env))]),
         if env.handlerRaises then Failed(routes, called, env) else Nothing().(handled := [called]))
  }

  /** What a delivery comes to before it is acknowledged. */
  function Settled<T>(routes: bool, t: Token<T>, env: Env): Effect<T> {
    if Due(t.message, env.check) then Handled(routes, t, env) else Deferred(routes, t, env)
  }

  /** Why a message is acknowledged. */
  datatype Outcome = Succeeded | Republished | GivenUp

  /** Why the message of a delivery is to be acknowledged, or None if an exception prevents that. */
  function OutcomeOf<T>(t: Token<T>, env: Env): Option<Outcome> {
    var due := Due(t.message, env.check);
    if due && !env.handlerRaises then Some(Succeeded)
    else if !due && env.deferral == Sent then Some(Republished)
    else if NextAttempt(t.message, env.fail).None? then Some(GivenUp)
    else if env.retry == Sent then Some(Republished)
    else None
  }

  /** The token with what its delivery adds to its history. */
  function Attempt<T>(t: Token<T>, env: Env): Token<T> {
    if Due(t.message, env.check) then Called(t, env)
    else if env.deferral == Sent then t
    else Faulted(t, env)
  }

  /** A deferred message that the broker keeps besides: no attempt of it was made. */
  function Kept<T>(t: Token<T>): Effect<T> {
    Nothing().(unacked := [t.(settled := true)])
  }

  /** An acknowledgement that raises: the broker keeps the message, although it is dealt with. */
  function AckLost<T>(t: Token<T>, env: Env): Effect<T> {
    var left := if !Due(t.message, env.check) && env.deferral == Sent then Kept(t) else LeftUnacked(Attempt(t, env), true);
    left.(extra := [t.origin])
  }

  function Delivery<T>(routes: bool, t: Token<T>, env: Env): Effect<T> {
    if env.ackRaises && OutcomeOf(t, env).Some? then Both(Settled(routes, t, env), AckLost(t, env)) else Settled(routes, t, env)
  }

  predicate Timely<T>(q: Queue<T>, env: Env) {
    q.now <= env.check <= env.fail
  }

  function Without<T>(s: seq<T>, i: nat): seq<T>
    requires i < |s|
  {
    s[..i] + s[i + 1..]
  }

  function Taken<T>(q: Queue<T>, i: nat, now: int): Queue<T>
    requires i < |q.ready|
  {
    q.(ready := Without(q.ready, i), now := now)
  }

  /** One delivery of the message at position i. */
  function Delivered<T>(routes: bool, q: Queue<T>, i: nat, env: Env): Queue<T>
    requires i < |q.ready| && Timely(q, env)
  {
    Applied(Taken(q, i, env.fail), Delivery(routes, q.ready[i], env))
  }

  datatype Event<T> =
    | Accept(message: Message<T>)
    | Deliver(at: nat, env: Env)
    | Redeliver(at: nat) // the channel closes, and an unacknowledged message is ready again

  predicate Possible<T>(q: Queue<T>, e: Event<T>) {
    match e
    case Accept(_) => true
    case Deliver(i, env) => i < |q.ready| && Timely(q, env)
    case Redeliver(i) => i < |q.unacked|
  }

  function Next<T>(routes: bool, q: Queue<T>, e: Event<T>): Queue<T>
    requires Possible(q, e)
  {
    match e
    case Accept(m) => q.(accepted := q.accepted + [m], ready := q.ready + [Token(|q.accepted|, m, m, [], [], 0, 0, false)])
    case Deliver(i, env) => Delivered(routes, q, i, env)
    case Redeliver(i) => Redelivered(q, i)
  }

  /** A message that is redelivered gets back the attempt that left it unacknowledged or, if it was
      dealt with already, all of its attempts once more. */
  function Redelivered<T>(q: Queue<T>, i: nat): Queue<T>
    requires i < |q.unacked|
  {
    var t := q.unacked[i];
    q.(unacked := Without(q.unacked, i), ready := q.ready + [t.(settled := false)],
       charges := q.charges + [Charge(t.origin, if t.settled then Weight(t.message) else 1)])
  }

  /** The queue that a run from the empty queue reaches, if every event of it is possible. */
  function ReachedIf<T>(routes: bool, start: int, events: seq<Event<T>>): Option<Queue<T>> {
    if events == [] then Some(Empty(start))
    else
      match ReachedIf(routes, start, events[..|events| - 1])
      case None => None
      case Some(q) => if Possible(q, events[|events| - 1]) then Some(Next(routes, q, events[|events| - 1])) else None
  }

  /** The queue a run reaches when the consumer is bound with the given pattern. */
  function Reached<T>(pattern: string, start: int, events: seq<Event<T>>): Option<Queue<T>> {
    ReachedIf(TopicMatches(pattern, pattern), start, events)
  }

  // ---------- what a delivery leaves, body by body ----------

  function Bodies<T>(tokens: seq<Token<T>>): (ms: seq<Message<T>>)
    ensures |ms| == |tokens| && forall i :: 0 <= i < |tokens| ==> ms[i] == tokens[i].message
  {
    seq(|tokens|, i requires 0 <= i < |tokens| => tokens[i].message)
  }

  lemma AppliedBodies<T>(q: Queue<T>, e: Effect<T>)
    ensures Bodies(Applied(q, e).ready) == Bodies(q.ready) + Bodies(e.ready)
    ensures Bodies(Applied(q, e).unacked) == Bodies(q.unacked) + Bodies(e.unacked)
    ensures Bodies(Applied(q, e).handled) == Bodies(q.handled) + Bodies(e.handled)
    ensures Bodies(Applied(q, e).exhausted) == Bodies(q.exhausted) + Bodies(e.exhausted)
  {
  }

  /** What the broker has after a delivery, and why the message is to be acknowledged. A message that
      is not due goes back as it came. One that failed with attempts left is sent once more, due
      when the retry delay after its failure has passed, with one attempt less unless it has no end
      of them; without attempts left it is done with. Whatever stays unacknowledged is what came. */
  ghost predicate DealtWith<T>(before: Queue<T>, at: nat, env: Env, outcome: Option<Outcome>, after: Queue<T>)
    requires at < |before.ready|
  {
    var t := before.ready[at];
    var m := t.message;
    var due := m.started.None? || m.started.value < env.check;
    var raised := if due then env.handlerRaises else env.deferral != Sent;
    var left := m.attempts == -1 || m.attempts >= 2;
    var next := m.(started := Some(env.fail + m.delay), attempts := if m.attempts == -1 then -1 else m.attempts - 1);
    && (outcome == if raised && left && env.retry != Sent then None
                   else if raised && !left then Some(GivenUp)
                   else if due && !raised then Some(Succeeded)
                   else Some(Republished))
    && Bodies(after.ready) == Bodies(before.ready[..at] + before.ready[at + 1..])
                              + (if due || env.deferral == NotSent then [] else [m])
                              + (if raised && left && env.retry != NotSent then [next] else [])
    && Bodies(after.unacked) == Bodies(before.unacked) + (if outcome == None || env.ackRaises then [m] else [])
    && Bodies(after.handled) == Bodies(before.handled) + (if due && !raised then [m] else [])
    && Bodies(after.exhausted) == Bodies(before.exhausted) + (if raised && !left then [m] else [])
    && after.calls == before.calls + (if due then [Call(t.origin, Invocation(env.check, env.fail))] else [])
    && after.now == env.fail && after.accepted == before.accepted
  }

  lemma FailedBodies<T>(t: Token<T>, env: Env)
    ensures var m, e := t.message, Failed(true, t, env);
            var left := m.attempts == -1 || m.attempts >= 2;
            var next := m.(started := Some(env.fail + m.delay), attempts := if m.attempts == -1 then -1 else m.attempts - 1);
            && Bodies(e.ready) == (if left && env.retry != NotSent then [next] else [])
            && Bodies(e.unacked) == (if left && env.retry != Sent then [m] else [])
            && e.handled == [] && Bodies(e.exhausted) == (if left then [] else [m]) && e.calls == []
            && (NextAttempt(m, env.fail) == if left then Some(next) else None)
  {
  }

  lemma TriedBodies<T>(t: Token<T>, env: Env)
    ensures var m, e, due := t.message, Tried(true, t, env), Due(t.message, env.check);
            && Bodies(e.ready) == (if due || env.deferral == NotSent then [] else [m])
            && e.unacked == e.handled == e.exhausted == []
            && e.calls == (if due then [Call(t.origin, Invocation(env.check, env.fail))] else [])
  {
  }

  lemma AckLostBodies<T>(t: Token<T>, env: Env)
    ensures var e := AckLost(t, env); Bodies(e.unacked) == [t.message] && e.ready == e.handled == e.exhausted == [] && e.calls == []
  {
  }

  lemma BothBodies<T>(a: Effect<T>, b: Effect<T>)
    ensures var e := Both(a, b);
            && Bodies(e.ready) == Bodies(a.ready) + Bodies(b.ready) && Bodies(e.unacked) == Bodies(a.unacked) + Bodies(b.unacked)
            && Bodies(e.handled) == Bodies(a.handled) + Bodies(b.handled) && Bodies(e.exhausted) == Bodies(a.exhausted) + Bodies(b.exhausted)
            && e.calls == a.calls + b.calls
  {
  }

  /** The same of the effect, before the acknowledgement. */
  ghost predicate SettledAs<T>(t: Token<T>, env: Env, e: Effect<T>) {
    var m, due := t.message, Due(t.message, env.check);
    var raised := if due then env.handlerRaises else env.deferral != Sent;
    var left := m.attempts == -1 || m.attempts >= 2;
    var next := m.(started := Some(env.fail + m.delay), attempts := if m.attempts == -1 then -1 else m.attempts - 1);
    && Bodies(e.ready) == (if due || env.deferral == NotSent then [] else [m]) + (if raised && left && env.retry != NotSent then [next] else [])
    && Bodies(e.unacked) == (if raised && left && env.retry != Sent then [m] else [])
    && Bodies(e.handled) == (if due && !raised then [m] else []) && Bodies(e.exhausted) == (if raised && !left then [m] else [])
    && e.calls == (if due then [Call(t.origin, Invocation(env.check, env.fail))] else [])
  }

  lemma OutcomeMeans<T>(t: Token<T>, env: Env)
    ensures var m, due := t.message, Due(t.message, env.check);
            var raised := if due then env.handlerRaises else env.deferral != Sent;
            var left := m.attempts == -1 || m.attempts >= 2;
            OutcomeOf(t, env) == if raised && left && env.retry != Sent then None
                                 else if raised && !left then Some(GivenUp)
                                 else if due && !raised then Some(Succeeded)
                                 else Some(Republished)
  {
  }

  lemma RaisedBodies<T>(t: Token<T>, env: Env)
    requires if Due(t.message, env.check) then env.handlerRaises else env.deferral != Sent
    ensures SettledAs(t, env, Settled(true, t, env))
  {
    TriedBodies(t, env);
    RaisedIs(true, t, env);
    FailedBodies(Attempt(t, env), env);
    var u, tried, failed := Attempt(t, env), Tried(true, t, env), Failed(true, Attempt(t, env), env);
    assert u.message == t.message;
    JoinBodies(tried, failed);
    RaisedAs(t, env, tried, failed, Both(tried, failed));
  }

  lemma RaisedAs<T>(t: Token<T>, env: Env, tried: Effect<T>, failed: Effect<T>, e: Effect<T>)
    requires if Due(t.message, env.check) then env.handlerRaises else env.deferral != Sent
    requires Bodies(tried.ready) == if Due(t.message, env.check) || env.deferral == NotSent then [] else [t.message]
    requires tried.calls == if Due(t.message, env.check) then [Call(t.origin, Invocation(env.check, env.fail))] else []
    requires var m := t.message;
             var left := m.attempts == -1 || m.attempts >= 2;
             var next := m.(started := Some(env.fail + m.delay), attempts := if m.attempts == -1 then -1 else m.attempts - 1);
             && Bodies(failed.ready) == (if left && env.retry != NotSent then [next] else [])
             && Bodies(failed.unacked) == (if left && env.retry != Sent then [m] else [])
             && Bodies(failed.exhausted) == (if left then [] else [m])
    requires Bodies(e.ready) == Bodies(tried.ready) + Bodies(failed.ready)
    requires e.unacked == failed.unacked && e.handled == [] && e.exhausted == failed.exhausted && e.calls == tried.calls
    ensures SettledAs(t, env, e)
  {
  }

  /** An effect that only adds ready tokens and calls to another. */
  lemma JoinBodies<T>(a: Effect<T>, b: Effect<T>)
    requires a.unacked == a.handled == a.exhausted == [] && b.handled == [] && b.calls == []
    ensures var e := Both(a, b);
            && Bodies(e.ready) == Bodies(a.ready) + Bodies(b.ready)
            && e.unacked == b.unacked && e.handled == [] && e.exhausted == b.exhausted && e.calls == a.calls
  {
  }

  lemma SettledBodies<T>(t: Token<T>, env: Env)
    ensures SettledAs(t, env, Settled(true, t, env))
  {
    if if Due(t.message, env.check) then env.handlerRaises else env.deferral != Sent {
      RaisedBodies(t, env);
    }
  }

  lemma DeliveryBodies<T>(t: Token<T>, env: Env)
    ensures var s, e := Settled(true, t, env), Delivery(true, t, env);
            && Bodies(e.ready) == Bodies(s.ready) && Bodies(e.handled) == Bodies(s.handled)
            && Bodies(e.exhausted) == Bodies(s.exhausted) && e.calls == s.calls
            && Bodies(e.unacked) == Bodies(s.unacked) + (if env.ackRaises && OutcomeOf(t, env).Some? then [t.message] else [])
  {
    if env.ackRaises && OutcomeOf(t, env).Some? {
      AckLostBodies(t, env);
      BothBodies(Settled(true, t, env), AckLost(t, env));
    }
  }

  lemma DeliveredBodies<T>(q: Queue<T>, at: nat, env: Env)
    requires at < |q.ready| && Timely(q, env)
    ensures DealtWith(q, at, env, OutcomeOf(q.ready[at], env), Delivered(true, q, at, env))
  {
    var t, taken := q.ready[at], Taken(q, at, env.fail);
    SettledBodies(t, env);
    DeliveryBodies(t, env);
    SettledDealtWith(q, at, env, Settled(true, t, env), Delivery(true, t, env));
  }

  lemma SettledDealtWith<T>(q: Queue<T>, at: nat, env: Env, s: Effect<T>, e: Effect<T>)
    requires at < |q.ready| && SettledAs(q.ready[at], env, s)
    requires Bodies(e.ready) == Bodies(s.ready) && Bodies(e.handled) == Bodies(s.handled) && Bodies(e.exhausted) == Bodies(s.exhausted)
    requires Bodies(e.unacked) == Bodies(s.unacked) + (if env.ackRaises && OutcomeOf(q.ready[at], env).Some? then [q.ready[at].message] else [])
    requires e.calls == s.calls
    ensures DealtWith(q, at, env, OutcomeOf(q.ready[at], env), Applied(Taken(q, at, env.fail), e))
  {
    var taken := Taken(q, at, env.fail);
    OutcomeMeans(q.ready[at], env);
    AppliedBodies(taken, e);
    Regroup(Bodies(taken.ready), Bodies(e.ready), if Due(q.ready[at].message, env.check) || env.deferral == NotSent then [] else [q.ready[at].message]);
  }

  lemma Regroup<T>(a: seq<T>, e: seq<T>, b: seq<T>)
    requires |b| <= |e| && e[..|b|] == b
    ensures a + e == a + b + e[|b|..]
  {
  }

  // ---------- the consumer itself ----------

  predicate EndsWith<T>(tokens: seq<Token<T>>, origin: nat) {
    tokens != [] && tokens[|tokens| - 1].origin == origin
  }

  lemma AppliedTwice<T>(q: Queue<T>, a: Effect<T>, b: Effect<T>)
    ensures Applied(Applied(q, a), b) == Applied(q, Both(a, b))
  {
  }

  lemma AppliedNothing<T>(q: Queue<T>)
    ensures Applied(q, Nothing()) == q
  {
  }

  class RabbitMqConsumer<T> {
    const routingKey: string // also the pattern its queue is bound with
    var queue: Queue<T>

    constructor (routingKey: string, now: int)
      ensures this.routingKey == routingKey && Reached<T>(routingKey, now, []) == Some(queue)
    {
      this.routingKey := routingKey;
      queue := Empty(now);
    }

    method PublishRawMessage(token: Token<T>, result: PublishResult) returns (raised: bool)
      modifies this
      ensures raised == (result != Sent)
      ensures queue == Applied(old(queue), match result
                                           case Sent => Published(TopicMatches(routingKey, routingKey), token)
                                           case NotSent => Nothing()
                                           case SentThenRaised => SentAgain(TopicMatches(routingKey, routingKey), token))
    {
      AppliedNothing(queue);
      raised := result != Sent;
      if result != NotSent && TopicMatches(routingKey, routingKey) {
        queue := queue.(ready := queue.ready + [token]);
      }
      if result == SentThenRaised {
        queue := queue.(extra := queue.extra + [token.origin]);
      }
    }

    /** Takes the message at a position of the queue. It is acknowledged only after the handler has
        succeeded, a successor has reached the queue, or its attempts are used up; otherwise an
        exception leaves it unacknowledged, as does an acknowledgement that raises. */
    method RabbitmqHandler(at: nat, env: Env) returns (outcome: Option<Outcome>, acked: bool)
      requires at < |queue.ready| && Timely(queue, env)
      modifies this
      ensures queue == Delivered(TopicMatches(routingKey, routingKey), old(queue), at, env)
      ensures outcome == OutcomeOf(old(queue).ready[at], env) && acked == (outcome.Some? && !env.ackRaises)
      ensures acked <==> queue.unacked == old(queue).unacked
      ensures outcome == Some(Succeeded) <==> queue.handled != old(queue).handled
      ensures outcome == Some(GivenUp) <==> queue.exhausted != old(queue).exhausted
      ensures outcome == Some(Republished) ==> EndsWith(queue.ready, old(queue).ready[at].origin)
      ensures outcome == Some(Succeeded) ==> EndsWith(queue.handled, old(queue).ready[at].origin)
      ensures outcome == Some(GivenUp) ==> EndsWith(queue.exhausted, old(queue).ready[at].origin)
      ensures !acked ==> EndsWith(queue.unacked, old(queue).ready[at].origin)
      ensures DealtWith(old(queue), at, env, outcome, queue)
    {
      PatternMatchesItself(routingKey);
      var token := queue.ready[at];
      queue := Taken(queue, at, env.fail);
      ghost var taken := queue;
      outcome := Settle(token, env);
      acked := false;
      if outcome.Some? {
        acked := BasicAck(token, env);
        if !acked { AppliedTwice(taken, Settled(true, token, env), AckLost(token, env)); }
      }
      DeliveryShows(token, env);
      AppliedEnds(taken, Delivery(true, token, env), token.origin);
      DeliveredBodies(old(queue), at, env);
    }

    /** Everything but the acknowledgement. */
    method Settle(token: Token<T>, env: Env) returns (outcome: Option<Outcome>)
      modifies this
      ensures queue == Applied(old(queue), Settled(TopicMatches(routingKey, routingKey), token, env))
      ensures outcome == OutcomeOf(token, env)
    {
      ghost var before, routes := queue, TopicMatches(routingKey, routingKey);
      var raised, tried := Try(token, env);
      if raised {
        outcome := Except(Attempt(token, env), env);
        AppliedTwice(before, Tried(routes, token, env), Failed(routes, Attempt(token, env), env));
        RaisedIs(routes, token, env);
      } else {
        if tried == Succeeded {
          queue := queue.(handled := queue.handled + [Called(token, env)]);
        }
        outcome := Some(tried);
      }
    }

    method BasicAck(token: Token<T>, env: Env) returns (acked: bool)
      modifies this
      ensures acked == !env.ackRaises
      ensures queue == if acked then old(queue) else Applied(old(queue), AckLost(token, env))
    {
      acked := !env.ackRaises;
      if env.ackRaises {
        queue := Applied(queue, AckLost(token, env));
      }
    }

    /** Hands the message to the handler, or defers it. */
    method Try(token: Token<T>, env: Env) returns (raised: bool, outcome: Outcome)
      modifies this
      ensures outcome == if Due(token.message, env.check) then Succeeded else Republished
      ensures raised == if outcome == Succeeded then env.handlerRaises else env.deferral != Sent
      ensures queue == Applied(old(queue), Tried(TopicMatches(routingKey, routingKey), token, env))
    {
      var message := token.message;
      if message.started.None? || message.started.value < env.check {
        queue := queue.(calls := queue.calls + [Call(token.origin, During(env))]);
        raised, outcome := env.handlerRaises, Succeeded;
      } else {
        raised := PublishRawMessage(token, env.deferral);
        outcome := Republished;
        if env.deferral == SentThenRaised {
          queue := queue.(charges := queue.charges + [Charge(token.origin, Weight(message))]);
        }
      }
    }

    /** What follows an exception: another attempt, if one is left. */
    method Except(token: Token<T>, env: Env) returns (acked: Option<Outcome>)
      modifies this
      ensures queue == Applied(old(queue), Failed(TopicMatches(routingKey, routingKey), token, env))
      ensures acked == if NextAttempt(token.message, env.fail).None? then Some(GivenUp)
                       else if env.retry == Sent then Some(Republished) else None
    {
      var message := token.message;
      message := message.(started := Some(env.fail + message.delay));
      if message.attempts != -1 {
        message := message.(attempts := message.attempts - 1);
        if message.attempts <= 0 {
          queue := queue.(exhausted := queue.exhausted + [token]);
          return Some(GivenUp);
        }
      }
      acked := Retry(token, message, env.retry);
    }

    /** Publishes the message again. If that raises, the one it came as is left unacknowledged. */
    method Retry(token: Token<T>, message: Message<T>, result: PublishResult) returns (acked: Option<Outcome>)
      modifies this
      ensures queue == Applied(old(queue), Retried(TopicMatches(routingKey, routingKey), token, message, result))
      ensures acked == if result == Sent then Some(Republished) else None
    {
      var unpublished := PublishRawMessage(token.(message := message), result);
      if unpublished {
        queue := queue.(unacked := queue.unacked + [token.(leftUnacked := token.leftUnacked + 1, settled := result == SentThenRaised)]);
        return None;
      }
      acked := Some(Republished);
    }
  }

  /** What a delivery does before an exception, if any, is handled. */
  function Tried<T>(routes: bool, t: Token<T>, env: Env): Effect<T> {
    if Due(t.message, env.check) then Nothing().(calls := [Call(t.origin, During(env))])
    else
      match env.deferral
      case Sent => Published(routes, t)
      case NotSent => Nothing()
      case SentThenRaised => DeferredAgain(routes, t)
  }

  /** Where the message of a delivery goes. */
  ghost predicate OutcomeShows<T>(e: Effect<T>, outcome: Option<Outcome>, origin: nat) {
    && (outcome == None ==> EndsWith(e.unacked, origin))
    && (outcome == Some(Succeeded) <==> e.handled != []) && (outcome == Some(Succeeded) ==> EndsWith(e.handled, origin))
    && (outcome == Some(GivenUp) <==> e.exhausted != []) && (outcome == Some(GivenUp) ==> EndsWith(e.exhausted, origin))
    && (outcome == Some(Republished) ==> EndsWith(e.ready, origin))
  }

  lemma SettledShows<T>(t: Token<T>, env: Env)
    ensures OutcomeShows(Settled(true, t, env), OutcomeOf(t, env), t.origin)
    ensures OutcomeOf(t, env).Some? <==> Settled(true, t, env).unacked == []
  {
    var raised := if Due(t.message, env.check) then env.handlerRaises else env.deferral != Sent;
    if raised {
      RaisedIs(true, t, env);
      FailedShows(Attempt(t, env), env);
      BothShow(Tried(true, t, env), Failed(true, Attempt(t, env), env), OutcomeOf(t, env), t.origin);
    }
  }

  lemma BothShow<T>(a: Effect<T>, b: Effect<T>, outcome: Option<Outcome>, origin: nat)
    requires a.unacked == a.handled == a.exhausted == [] && OutcomeShows(b, outcome, origin)
    ensures OutcomeShows(Both(a, b), outcome, origin) && Both(a, b).unacked == b.unacked
  {
  }

  lemma FailedShows<T>(t: Token<T>, env: Env)
    ensures var outcome := if NextAttempt(t.message, env.fail).None? then Some(GivenUp) else if env.retry == Sent then Some(Republished) else None;
            OutcomeShows(Failed(true, t, env), outcome, t.origin) && (outcome.Some? <==> Failed(true, t, env).unacked == [])
  {
  }

  lemma DeliveryShows<T>(t: Token<T>, env: Env)
    ensures var e, acked := Delivery(true, t, env), OutcomeOf(t, env).Some? && !env.ackRaises;
            && OutcomeShows(e, OutcomeOf(t, env), t.origin)
            && (acked <==> e.unacked == []) && (!acked ==> EndsWith(e.unacked, t.origin))
  {
    SettledShows(t, env);
    if env.ackRaises && OutcomeOf(t, env).Some? {
      var e, lost := Settled(true, t, env), AckLost(t, env);
      assert Both(e, lost).handled == e.handled && Both(e, lost).exhausted == e.exhausted && Both(e, lost).ready == e.ready;
      assert Both(e, lost).unacked == lost.unacked;
    }
  }

  lemma AppliedEnds<T>(q: Queue<T>, e: Effect<T>, origin: nat)
    ensures (Applied(q, e).unacked == q.unacked <==> e.unacked == []) && (EndsWith(e.unacked, origin) ==> EndsWith(Applied(q, e).unacked, origin))
    ensures (Applied(q, e).handled == q.handled <==> e.handled == []) && (EndsWith(e.handled, origin) ==> EndsWith(Applied(q, e).handled, origin))
    ensures (Applied(q, e).exhausted == q.exhausted <==> e.exhausted == []) && (EndsWith(e.exhausted, origin) ==> EndsWith(Applied(q, e).exhausted, origin))
    ensures EndsWith(e.ready, origin) ==> EndsWith(Applied(q, e).ready, origin)
  {
  }

  lemma RaisedIs<T>(routes: bool, t: Token<T>, env: Env)
    requires if Due(t.message, env.check) then env.handlerRaises else env.deferral != Sent
    ensures Settled(routes, t, env) == Both(Tried(routes, t, env), Failed(routes, Attempt(t, env), env))
  {
  }
}
