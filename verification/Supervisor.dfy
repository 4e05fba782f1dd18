/** The supervisor of the consumer processes: one worker per exchange, replaced when it ends, until
    too many have been replaced or a connection cannot be made. */
module Supervisor {

  const RESTART_MAX_NUM := 10

  /** What waiting one second for a worker shows. A worker that itself raises TimeoutError looks
      like one that is still running. */
  datatype Outcome = Returned | StillRunning | ConnectorFailed | Raised

  /** A future, by its place in the order of submission, and what it was submitted for. */
  datatype Worker = Worker(future: nat, exchange: string)

  datatype State = State(workers: seq<Worker>, submitted: seq<string>, seen: seq<nat>, restarts: nat, sweeps: nat)

  /** What the workers show, at each sweep and each place in it. */
  type Script = (nat, nat) -> Outcome

  // ---------- the loops, as functions ----------

  function Submit(s: State, exchange: string): State {
    s.(workers := s.workers + [Worker(|s.submitted|, exchange)], submitted := s.submitted + [exchange])
  }

  function Started(exchanges: seq<string>): State {
    if exchanges == [] then State([], [], [], 0, 0)
    else Submit(Started(exchanges[..|exchanges| - 1]), exchanges[|exchanges| - 1])
  }

  /** One worker looked at: `s.workers` holds those of the next sweep so far. */
  function Looked(s: State, w: Worker, outcome: Outcome): State {
    match outcome
    case Returned => Submit(s, w.exchange).(seen := s.seen + [w.future], restarts := s.restarts + 1)
    case Raised => Submit(s, w.exchange).(seen := s.seen + [w.future], restarts := s.restarts + 1)
    case StillRunning => s.(workers := s.workers + [w])
    case ConnectorFailed => s.(seen := s.seen + [w.future], restarts := s.restarts + RESTART_MAX_NUM)
  }

  /** The first i workers of a sweep looked at. */
  function Swept(s: State, script: Script, i: nat): State
    requires i <= |s.workers|
  {
    if i == 0 then s.(workers := [])
    else Looked(Swept(s, script, i - 1), s.workers[i - 1], script(s.sweeps, i - 1))
  }

  /** The state after at most k sweeps. */
  function Supervised(exchanges: seq<string>, script: Script, k: nat): State {
    if k == 0 then Started(exchanges)
    else
      var s := Supervised(exchanges, script, k - 1);
      if s.restarts < RESTART_MAX_NUM then Swept(s, script, |s.workers|).(sweeps := s.sweeps + 1) else s
  }

  // ---------- what holds of every run ----------

  function Exchanges(workers: seq<Worker>): (es: seq<string>)
    ensures |es| == |workers| && forall i :: 0 <= i < |workers| ==> es[i] == workers[i].exchange
  {
    seq(|workers|, i requires 0 <= i < |workers| => workers[i].exchange)
  }

  ghost predicate Watched(workers: seq<Worker>, future: nat) {
    exists i :: 0 <= i < |workers| && workers[i].future == future
  }

  /** Every worker submitted is watched or its result has been seen, and each watched one serves the
      exchange it was submitted for. `rest` are the workers a sweep has yet to look at. */
  ghost predicate NoneAbandoned(s: State, rest: seq<Worker>) {
    && (forall f :: 0 <= f < |s.submitted| ==> Watched(s.workers, f) || Watched(rest, f) || f in s.seen)
    && (forall w :: w in s.workers ==> w.future < |s.submitted| && s.submitted[w.future] == w.exchange)
    && (forall w :: w in rest ==> w.future < |s.submitted| && s.submitted[w.future] == w.exchange)
  }

  lemma {:induction false} StartedAll(exchanges: seq<string>)
    ensures Exchanges(Started(exchanges).workers) == exchanges == Started(exchanges).submitted
    ensures NoneAbandoned(Started(exchanges), [])
    ensures Started(exchanges).restarts == 0 == Started(exchanges).sweeps
  {
    if exchanges != [] {
      var init, last := exchanges[..|exchanges| - 1], exchanges[|exchanges| - 1];
      StartedAll(init);
      SubmitKeeps(Started(init), last);
      assert exchanges == init + [last];
    }
  }

  lemma SubmitKeeps(s: State, exchange: string)
    requires NoneAbandoned(s, [])
    ensures NoneAbandoned(Submit(s, exchange), [])
    ensures Exchanges(Submit(s, exchange).workers) == Exchanges(s.workers) + [exchange]
  {
    StillWatched(s.workers, Worker(|s.submitted|, exchange));
  }

  lemma StillWatched(workers: seq<Worker>, w: Worker)
    ensures forall f :: Watched(workers, f) ==> Watched(workers + [w], f)
    ensures Watched(workers + [w], w.future)
  {
    forall f | Watched(workers, f) ensures Watched(workers + [w], f) {
      var i :| 0 <= i < |workers| && workers[i].future == f;
      assert (workers + [w])[i].future == f;
    }
    assert (workers + [w])[|workers|].future == w.future;
  }

  lemma LookedAbandonsNone(s: State, rest: seq<Worker>, outcome: Outcome)
    requires rest != [] && NoneAbandoned(s, rest)
    ensures NoneAbandoned(Looked(s, rest[0], outcome), rest[1..])
  {
    var s', w := Looked(s, rest[0], outcome), rest[0];
    StillWatched(s.workers, w);
    StillWatched(s.workers, Worker(|s.submitted|, w.exchange));
    forall f | 0 <= f < |s'.submitted| ensures Watched(s'.workers, f) || Watched(rest[1..], f) || f in s'.seen {
      if f < |s.submitted| && Watched(rest, f) && f != w.future {
        var i :| 0 <= i < |rest| && rest[i].future == f;
        assert rest[1..][i - 1].future == f;
      }
    }
  }

  /** The connector has failed in one of the first i places of a sweep. */
  ghost predicate SomeConnectorFailed(script: Script, sweep: nat, i: nat) {
    exists j :: 0 <= j < i && script(sweep, j) == ConnectorFailed
  }

  /** What has happened since a state when the first i workers of its sweep have been looked at. */
  ghost predicate SoFar(s: State, s': State, i: nat, failed: bool)
    requires i <= |s.workers|
  {
    && |s'.submitted| <= |s.submitted| + i
    && |s'.submitted| - |s.submitted| <= s'.restarts - s.restarts
    && (if failed then s'.restarts >= RESTART_MAX_NUM
        else Exchanges(s'.workers) == Exchanges(s.workers)[..i] && |s'.submitted| - |s.submitted| == s'.restarts - s.restarts)
  }

  lemma LookedSoFar(s: State, s': State, i: nat, failed: bool, outcome: Outcome)
    requires i < |s.workers| && SoFar(s, s', i, failed)
    ensures SoFar(s, Looked(s', s.workers[i], outcome), i + 1, failed || outcome == ConnectorFailed)
  {
    assert Exchanges(s.workers)[..i + 1] == Exchanges(s.workers)[..i] + [s.workers[i].exchange];
  }

  lemma OneMorePlace(script: Script, sweep: nat, i: nat)
    ensures SomeConnectorFailed(script, sweep, i + 1) <==> SomeConnectorFailed(script, sweep, i) || script(sweep, i) == ConnectorFailed
  {
  }

  lemma {:induction false} SweptSoFar(s: State, script: Script, i: nat)
    requires i <= |s.workers| && NoneAbandoned(s, [])
    ensures NoneAbandoned(Swept(s, script, i), s.workers[i..])
    ensures SoFar(s, Swept(s, script, i), i, SomeConnectorFailed(script, s.sweeps, i))
  {
    if i == 0 {
      forall f | Watched(s.workers, f) ensures Watched(s.workers[0..], f) { assert s.workers[0..] == s.workers; }
    } else {
      SweptSoFar(s, script, i - 1);
      var before, outcome := Swept(s, script, i - 1), script(s.sweeps, i - 1);
      assert Swept(s, script, i) == Looked(before, s.workers[i - 1], outcome);
      assert s.workers[i - 1..][1..] == s.workers[i..];
      LookedAbandonsNone(before, s.workers[i - 1..], outcome);
      OneMorePlace(script, s.sweeps, i - 1);
      LookedSoFar(s, before, i - 1, SomeConnectorFailed(script, s.sweeps, i - 1), outcome);
    }
  }

  /** The exchanges of the workers that ended, one way or another, among the first i looked at. */
  function Ended(workers: seq<Worker>, script: Script, sweep: nat, i: nat): seq<string>
    requires i <= |workers|
  {
    if i == 0 then []
    else
      Ended(workers, script, sweep, i - 1)
      + if script(sweep, i - 1) == Returned || script(sweep, i - 1) == Raised then [workers[i - 1].exchange] else []
  }

  function ConnectorFailures(script: Script, sweep: nat, i: nat): nat {
    if i == 0 then 0 else ConnectorFailures(script, sweep, i - 1) + if script(sweep, i - 1) == ConnectorFailed then 1 else 0
  }

  /** Each worker that ended is replaced by one for its exchange, and counts 1; one whose connector
      failed is not, and counts 10. */
  lemma {:induction false} SweepReplaces(s: State, script: Script, i: nat)
    requires i <= |s.workers|
    ensures var s', ended := Swept(s, script, i), Ended(s.workers, script, s.sweeps, i);
            && s'.submitted == s.submitted + ended
            && s'.restarts == s.restarts + |ended| + 10 * ConnectorFailures(script, s.sweeps, i)
  {
    if i > 0 { SweepReplaces(s, script, i - 1); }
  }

  /** A worker that is still running stays, the same; the result of every other is seen. */
  lemma {:induction false} RunningWorkersStay(s: State, script: Script, i: nat)
    requires i <= |s.workers|
    ensures var s' := Swept(s, script, i);
            && (forall j :: 0 <= j < i && script(s.sweeps, j) == StillRunning ==> s.workers[j] in s'.workers)
            && (forall w :: w in s'.workers ==>
                  w.future >= |s.submitted| || exists j :: 0 <= j < i && script(s.sweeps, j) == StillRunning && s.workers[j] == w)
            && (forall f :: f in s'.seen <==>
                  f in s.seen || exists j :: 0 <= j < i && script(s.sweeps, j) != StillRunning && s.workers[j].future == f)
            && |s.submitted| <= |s'.submitted|
  {
    if i > 0 {
      RunningWorkersStay(s, script, i - 1);
    }
  }

  /** Every sweep starts with exactly one worker for each exchange, in order; whatever the workers
      do, at most 2n + 9 are ever submitted for n exchanges; and none is ever dropped unless its
      result has been seen. */
  lemma {:induction false} SupervisorBound(exchanges: seq<string>, script: Script, k: nat)
    ensures var s := Supervised(exchanges, script, k);
            && NoneAbandoned(s, [])
            && |s.submitted| <= 2 * |exchanges| + 9
            && |s.submitted| - |exchanges| <= s.restarts
            && (s.restarts < 10 ==> Exchanges(s.workers) == exchanges && s.sweeps == k
                                    && |s.submitted| == |exchanges| + s.restarts)
  {
    if k == 0 {
      StartedAll(exchanges);
    } else {
      SupervisorBound(exchanges, script, k - 1);
      var s := Supervised(exchanges, script, k - 1);
      if s.restarts < RESTART_MAX_NUM {
        SweptSoFar(s, script, |s.workers|);
        assert s.workers[|s.workers|..] == [];
        assert Exchanges(s.workers)[..|s.workers|] == exchanges;
      }
    }
  }

  /** A sweep in which the connector fails is the last. */
  lemma ConnectorFailureEnds(exchanges: seq<string>, script: Script, k: nat, later: nat)
    requires Supervised(exchanges, script, k).restarts < 10
    requires SomeConnectorFailed(script, k, |exchanges|) && k < later
    ensures Supervised(exchanges, script, later) == Supervised(exchanges, script, k + 1)
    ensures Supervised(exchanges, script, later).sweeps == k + 1
  {
    FailureSweep(exchanges, script, k);
    NoFurtherSweep(exchanges, script, k + 1, later);
  }

  lemma FailureSweep(exchanges: seq<string>, script: Script, k: nat)
    requires Supervised(exchanges, script, k).restarts < 10 && SomeConnectorFailed(script, k, |exchanges|)
    ensures Supervised(exchanges, script, k + 1).restarts >= 10 && Supervised(exchanges, script, k + 1).sweeps == k + 1
  {
    SupervisorBound(exchanges, script, k);
    FailureCounts(Supervised(exchanges, script, k), script, |exchanges|);
  }

  lemma FailureCounts(s: State, script: Script, i: nat)
    requires i <= |s.workers| && NoneAbandoned(s, []) && SomeConnectorFailed(script, s.sweeps, i)
    ensures Swept(s, script, i).restarts >= 10
  {
    SweptSoFar(s, script, i);
  }

  /** Nine single restarts, then a sweep in which every worker returns. */
  function Worst(sweep: nat, place: nat): Outcome {
    if sweep == RESTART_MAX_NUM - 1 || place == 0 then Returned else StillRunning
  }

  lemma {:induction false} WorstSweep(s: State, i: nat)
    requires i <= |s.workers|
    ensures |Swept(s, Worst, i).submitted|
         == |s.submitted| + (if s.sweeps == RESTART_MAX_NUM - 1 || i == 0 then i else 1)
    ensures Swept(s, Worst, i).restarts == s.restarts + (if s.sweeps == RESTART_MAX_NUM - 1 || i == 0 then i else 1)
  {
    if i > 0 { WorstSweep(s, i - 1); }
  }

  lemma FullSweep(exchanges: seq<string>, script: Script, k: nat, s: State)
    requires s == Supervised(exchanges, script, k) && s.restarts < 10
    ensures |s.workers| == |exchanges| && s.sweeps == k
  {
    SupervisorBound(exchanges, script, k);
  }

  lemma {:induction false} WorstRun(exchanges: seq<string>, k: nat, s: State)
    requires exchanges != [] && k < RESTART_MAX_NUM && s == Supervised(exchanges, Worst, k)
    ensures s.restarts == k
  {
    if k == 0 {
      StartedAll(exchanges);
    } else {
      var before := Supervised(exchanges, Worst, k - 1);
      WorstRun(exchanges, k - 1, before);
      FullSweep(exchanges, Worst, k - 1, before);
      WorstSweep(before, |before.workers|);
    }
  }

  /** The bound is exact. */
  lemma BoundReached(exchanges: seq<string>)
    requires exchanges != []
    ensures |Supervised(exchanges, Worst, 10).submitted| == 2 * |exchanges| + 9
  {
    var k := RESTART_MAX_NUM - 1;
    var s := Supervised(exchanges, Worst, k);
    WorstRun(exchanges, k, s);
    SupervisorBound(exchanges, Worst, k);
    WorstSweep(s, |s.workers|);
  }

  // ---------- the loops themselves ----------

  /** Supervises for as many sweeps as are observed, which may be fewer than it would make: with
      workers that never end, it never ends either. */
  method Supervise(exchanges: seq<string>, script: Script, observed: nat) returns (s: State)
    ensures s == Supervised(exchanges, script, observed)
  {
    var fs: seq<Worker>, submitted: seq<string>, seen: seq<nat> := [], [], [];
    for i := 0 to |exchanges|
      invariant State(fs, submitted, seen, 0, 0) == Started(exchanges[..i])
    {
      fs := fs + [Worker(|submitted|, exchanges[i])];
      submitted := submitted + [exchanges[i]];
      assert exchanges[..i + 1][..i] == exchanges[..i];
    }
    assert exchanges[..|exchanges|] == exchanges;
    var restartCount: nat, sweep: nat := 0, 0;
    while restartCount < RESTART_MAX_NUM && sweep < observed
      invariant sweep <= observed
      invariant State(fs, submitted, seen, restartCount, sweep) == Supervised(exchanges, script, sweep)
      decreases observed - sweep
    {
      ghost var before := State(fs, submitted, seen, restartCount, sweep);
      var nextFs: seq<Worker> := [];
      for i := 0 to |fs|
        invariant State(nextFs, submitted, seen, restartCount, sweep) == Swept(before, script, i)
      {
        var w := fs[i];
        match script(sweep, i) {
          case StillRunning =>
            nextFs := nextFs + [w];
          case ConnectorFailed =>
            seen := seen + [w.future];
            restartCount := restartCount + RESTART_MAX_NUM;
          case _ =>
            seen := seen + [w.future];
            nextFs := nextFs + [Worker(|submitted|, w.exchange)];
            submitted := submitted + [w.exchange];
            restartCount := restartCount + 1;
        }
      }
      fs := nextFs;
      sweep := sweep + 1;
    }
    s := State(fs, submitted, seen, restartCount, sweep);
    NoFurtherSweep(exchanges, script, sweep, observed);
  }

  lemma {:induction false} NoFurtherSweep(exchanges: seq<string>, script: Script, k: nat, later: nat)
    requires k <= later && (Supervised(exchanges, script, k).restarts >= RESTART_MAX_NUM || k == later)
    ensures Supervised(exchanges, script, later) == Supervised(exchanges, script, k)
  {
    if k < later { NoFurtherSweep(exchanges, script, k, later - 1); }
  }
}
