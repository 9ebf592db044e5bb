/** A single worker: the double-checked channel loop refines a plain scan, and the scan is described
    without reference to either. */
module WorkerPoolScan {
  import opened Credentials
  import opened WorkerPools
  import opened WorkerPoolProtocol
  import opened WorkerPoolTheorems

  // ---------- The protocol with one worker is the scan ----------

  function Scan(env: Env, oracle: Credential -> Outcome): (Shared, bool) {
    ScanFrom(env.cfg, env.creds, oracle, 0, START)
  }

  /** What the scan still has to do from a state of the one worker is the whole scan. */
  ghost predicate Simulates(env: Env, oracle: Credential -> Outcome, s: State) {
    && |s.workers| == 1 && s.next <= |env.creds|
    && var pc, p := s.workers[0], s.shared;
    && (Holding(pc) ==> s.next == pc.idx + 1)
    && match pc
       case Receive => ScanFrom(env.cfg, env.creds, oracle, s.next, p) == Scan(env, oracle)
       case Call(i) => AfterClaim(env.cfg, env.creds, oracle, i, p) == Scan(env, oracle)
       case Testing(i) => AfterClaim(env.cfg, env.creds, oracle, i, p) == Scan(env, oracle)
       case Record(i) => ScanFrom(env.cfg, env.creds, oracle, i + 1, RecordMatch(p, i)) == Scan(env, oracle)
       case Stopped(failed) => !failed ==> (p, false) == Scan(env, oracle)
       case _ =>
         && ScanFrom(env.cfg, env.creds, oracle, pc.idx, p) == Scan(env, oracle)
         && (!BeforeChecks(pc) ==> !Done(env.cfg, p))
         && (!BeforeUserCheck(pc) ==> !UserDone(env.creds, p.matched, env.creds[pc.idx].username))
         && (pc.Wait? || pc.SecondDone? || pc.SecondUserDone? || pc.Claim? ==> !OverBudget(env.cfg, p))
  }

  lemma SimulateFirstRound(env: Env, oracle: Credential -> Outcome, s: State, choice: Choice)
    requires Follows(env, oracle) && Simulates(env, oracle, s) && Enabled(env, s, Move(0, choice))
    requires var pc := s.workers[0]; pc.CheckContext? || pc.FirstDone? || pc.FirstUserDone? || pc.Budget?
    ensures Simulates(env, oracle, Apply(env, s, Move(0, choice)))
  {
  }

  lemma SimulateSecondRound(env: Env, oracle: Credential -> Outcome, s: State, choice: Choice)
    requires Follows(env, oracle) && Simulates(env, oracle, s) && Enabled(env, s, Move(0, choice))
    requires var pc := s.workers[0]; pc.Wait? || pc.SecondDone? || pc.SecondUserDone? || pc.Claim?
    ensures Simulates(env, oracle, Apply(env, s, Move(0, choice)))
  {
  }

  lemma SimulateReceive(env: Env, oracle: Credential -> Outcome, s: State, choice: Choice)
    requires Follows(env, oracle) && Simulates(env, oracle, s) && Enabled(env, s, Move(0, choice))
    requires var pc := s.workers[0]; pc.Receive? || pc.Call?
    ensures Simulates(env, oracle, Apply(env, s, Move(0, choice)))
  {
  }

  lemma SimulateTest(env: Env, oracle: Credential -> Outcome, s: State, choice: Choice)
    requires Follows(env, oracle) && Simulates(env, oracle, s) && Enabled(env, s, Move(0, choice))
    requires var pc := s.workers[0]; pc.Testing? || pc.Record?
    ensures Simulates(env, oracle, Apply(env, s, Move(0, choice)))
  {
  }

  lemma SimulationStep(env: Env, oracle: Credential -> Outcome, s: State, a: Action)
    requires Follows(env, oracle) && Simulates(env, oracle, s) && Enabled(env, s, a)
    ensures Simulates(env, oracle, Apply(env, s, a))
  {
    if a.Move? {
      assert a.w == 0;
      var pc := s.workers[0];
      if pc.CheckContext? || pc.FirstDone? || pc.FirstUserDone? || pc.Budget? {
        SimulateFirstRound(env, oracle, s, a.choice);
      } else if pc.Wait? || pc.SecondDone? || pc.SecondUserDone? || pc.Claim? {
        SimulateSecondRound(env, oracle, s, a.choice);
      } else if pc.Receive? || pc.Call? {
        SimulateReceive(env, oracle, s, a.choice);
      } else {
        SimulateTest(env, oracle, s, a.choice);
      }
    }
  }

  lemma {:induction false} SimulationRun(env: Env, oracle: Credential -> Outcome, s: State, acts: seq<Action>, t: State)
    requires Follows(env, oracle) && Simulates(env, oracle, s) && Runs(env, s, acts, t)
    ensures Simulates(env, oracle, t)
    decreases acts
  {
    if acts == [] {
    } else {
      SimulationStep(env, oracle, s, acts[0]);
      SimulationRun(env, oracle, Apply(env, s, acts[0]), acts[1..], t);
    }
  }

  /** With one worker every successful run ends in the state the scan computes. */
  lemma OneWorkerRefinesScan(env: Env, oracle: Credential -> Outcome, s: State)
    requires Reachable(env, s) && Succeeded(s) && Follows(env, oracle)
    requires NumWorkers(env.cfg, |env.creds|) == 1
    ensures Scan(env, oracle) == (s.shared, false)
  {
    var acts :| Runs(env, Init(env), acts, s);
    assert Init(env).workers == [Receive];
    SimulationRun(env, oracle, Init(env), acts, s);
    ReachableInv(env, s);
    assert s.workers[0].Stopped?;
  }

  // ---------- What the scan computes, declaratively ----------

  /** Candidate `k` is not skipped: no earlier candidate of its user is valid. */
  ghost predicate Live(creds: seq<Credential>, oracle: Credential -> Outcome, k: nat)
    requires k < |creds|
  {
    forall j :: 0 <= j < k && creds[j].username == creds[k].username ==> oracle(creds[j]) != Valid
  }

  /** How many of the first `k` candidates are not skipped. */
  ghost function LiveBelow(creds: seq<Credential>, oracle: Credential -> Outcome, k: nat): nat
    requires k <= |creds|
  {
    if k == 0 then 0
    else LiveBelow(creds, oracle, k - 1) + if Live(creds, oracle, k - 1) then 1 else 0
  }

  ghost predicate Affordable(cfg: Config, creds: seq<Credential>, oracle: Credential -> Outcome, k: nat)
    requires k < |creds|
  {
    Live(creds, oracle, k) && (cfg.maxAttempts > 0 ==> LiveBelow(creds, oracle, k) < cfg.maxAttempts)
  }

  /** The first valid candidate of its user, within the budget. */
  ghost predicate Hit(cfg: Config, creds: seq<Credential>, oracle: Credential -> Outcome, k: nat)
    requires k < |creds|
  {
    Affordable(cfg, creds, oracle, k) && oracle(creds[k]) == Valid
  }

  /** The hits among the first `k` candidates, in candidate order. */
  ghost function HitsBelow(cfg: Config, creds: seq<Credential>, oracle: Credential -> Outcome, k: nat): seq<nat>
    requires k <= |creds|
  {
    if k == 0 then []
    else HitsBelow(cfg, creds, oracle, k - 1) + if Hit(cfg, creds, oracle, k - 1) then [k - 1] else []
  }

  lemma {:induction false} HitsBelowMembers(cfg: Config, creds: seq<Credential>, oracle: Credential -> Outcome, k: nat)
    requires k <= |creds|
    ensures forall i: nat :: i in HitsBelow(cfg, creds, oracle, k) <==> i < k && Hit(cfg, creds, oracle, i)
    ensures StrictlyIncreasing(HitsBelow(cfg, creds, oracle, k))
  {
    if k == 0 {
    } else {
      HitsBelowMembers(cfg, creds, oracle, k - 1);
      var before := HitsBelow(cfg, creds, oracle, k - 1);
      assert forall j :: 0 <= j < |before| ==> before[j] in before;
    }
  }

  /** With stop-at-first an earlier hit ends the scan. */
  ghost predicate Cut(cfg: Config, creds: seq<Credential>, oracle: Credential -> Outcome, k: nat)
    requires k <= |creds|
  {
    cfg.stopAtFirst && |HitsBelow(cfg, creds, oracle, k)| > 0
  }

  ghost predicate FailsAt(cfg: Config, creds: seq<Credential>, oracle: Credential -> Outcome, k: nat)
    requires k < |creds|
  {
    Affordable(cfg, creds, oracle, k) && oracle(creds[k]) == Failure && !Cut(cfg, creds, oracle, k)
  }

  /** The result of a scan without error. */
  ghost predicate Declared(cfg: Config, creds: seq<Credential>, oracle: Credential -> Outcome, p: Shared) {
    var n := |creds|;
    var hits, live := HitsBelow(cfg, creds, oracle, n), LiveBelow(creds, oracle, n);
    if Cut(cfg, creds, oracle, n) then
      && p.matched == [hits[0]]
      && hits[0] < n && p.attempts == LiveBelow(creds, oracle, hits[0]) + 1
      && !p.budgetExhausted
    else
      && p.matched == hits
      && p.attempts == (if cfg.maxAttempts > 0 then Min(cfg.maxAttempts, live) else live)
      && (p.budgetExhausted <==> cfg.maxAttempts > 0 && live > cfg.maxAttempts)
  }

  /** The scan has passed the first `k` candidates and none of them stopped it. */
  ghost predicate Passed(cfg: Config, creds: seq<Credential>, oracle: Credential -> Outcome, k: nat, p: Shared)
    requires k <= |creds|
  {
    && !p.budgetExhausted
    && p.attempts == LiveBelow(creds, oracle, k)
    && (cfg.maxAttempts > 0 ==> p.attempts <= cfg.maxAttempts)
    && p.matched == HitsBelow(cfg, creds, oracle, k)
    && (forall j :: 0 <= j < k ==> !FailsAt(cfg, creds, oracle, j))
  }

  lemma {:induction false} LiveBelowMonotone(creds: seq<Credential>, oracle: Credential -> Outcome, j: nat, k: nat)
    requires j <= k <= |creds|
    ensures LiveBelow(creds, oracle, j) <= LiveBelow(creds, oracle, k)
  {
    if j < k {
      LiveBelowMonotone(creds, oracle, j, k - 1);
    }
  }

  /** A valid candidate below `k` has a live valid one of the same user at or before it. */
  lemma {:induction false} FirstValid(creds: seq<Credential>, oracle: Credential -> Outcome, j: nat) returns (i: nat)
    requires j < |creds| && oracle(creds[j]) == Valid
    ensures i <= j && creds[i].username == creds[j].username && oracle(creds[i]) == Valid && Live(creds, oracle, i)
  {
    if Live(creds, oracle, j) {
      i := j;
    } else {
      var e :| 0 <= e < j && creds[e].username == creds[j].username && oracle(creds[e]) == Valid;
      i := FirstValid(creds, oracle, e);
    }
  }

  /** While within budget, a candidate is skipped by the loop exactly when it is not live. */
  lemma SkippedIsNotLive(cfg: Config, creds: seq<Credential>, oracle: Credential -> Outcome, k: nat, p: Shared)
    requires k < |creds| && Passed(cfg, creds, oracle, k, p)
    ensures UserDone(creds, p.matched, creds[k].username) <==> !Live(creds, oracle, k)
  {
    HitsBelowMembers(cfg, creds, oracle, k);
    if UserDone(creds, p.matched, creds[k].username) {
      var m :| 0 <= m < |p.matched| && p.matched[m] < |creds| && creds[p.matched[m]].username == creds[k].username;
      assert p.matched[m] in p.matched;
    }
    if !Live(creds, oracle, k) {
      var j :| 0 <= j < k && creds[j].username == creds[k].username && oracle(creds[j]) == Valid;
      var i := FirstValid(creds, oracle, j);
      LiveBelowMonotone(creds, oracle, i + 1, k);
      assert Hit(cfg, creds, oracle, i) && i in p.matched;
      var m :| 0 <= m < |p.matched| && p.matched[m] == i;
    }
  }

  lemma {:induction false} HitsPrefix(cfg: Config, creds: seq<Credential>, oracle: Credential -> Outcome, j: nat,
                                      k: nat)
    requires j <= k <= |creds|
    ensures HitsBelow(cfg, creds, oracle, j) <= HitsBelow(cfg, creds, oracle, k)
    ensures (forall i :: j <= i < k ==> !Hit(cfg, creds, oracle, i)) ==>
              HitsBelow(cfg, creds, oracle, j) == HitsBelow(cfg, creds, oracle, k)
  {
    if j < k {
      HitsPrefix(cfg, creds, oracle, j, k - 1);
    }
  }

  ghost predicate SomeFailure(cfg: Config, creds: seq<Credential>, oracle: Credential -> Outcome) {
    exists j :: 0 <= j < |creds| && FailsAt(cfg, creds, oracle, j)
  }

  /** What a scan says in the end: whether a candidate it reached failed, and else its result. */
  ghost predicate Says(cfg: Config, creds: seq<Credential>, oracle: Credential -> Outcome, r: (Shared, bool)) {
    && (r.1 <==> SomeFailure(cfg, creds, oracle))
    && (!r.1 ==> Declared(cfg, creds, oracle, r.0))
  }

  /** What the scan returns from candidate `k` on, given what the first `k` candidates left. */
  lemma {:induction false} ScanMeaning(cfg: Config, creds: seq<Credential>, oracle: Credential -> Outcome, k: nat,
                                       p: Shared)
    requires k <= |creds| && Passed(cfg, creds, oracle, k, p)
    requires Cut(cfg, creds, oracle, k) ==> k > 0 && p.matched == [k - 1] && Live(creds, oracle, k - 1)
    ensures Says(cfg, creds, oracle, ScanFrom(cfg, creds, oracle, k, p))
    decreases |creds| - k
  {
    if Cut(cfg, creds, oracle, k) || k == |creds| {
      ScanEnds(cfg, creds, oracle, k, p);
    } else {
      SkippedIsNotLive(cfg, creds, oracle, k, p);
      if !Live(creds, oracle, k) {
        ScanMeaning(cfg, creds, oracle, k + 1, p);
      } else if OverBudget(cfg, p) {
        ScanRunsOut(cfg, creds, oracle, k, p);
      } else {
        var claimed := ClaimAttempt(cfg, p);
        PassedOne(cfg, creds, oracle, k, p);
        match oracle(creds[k])
        case Failure => assert FailsAt(cfg, creds, oracle, k);
        case Invalid => ScanMeaning(cfg, creds, oracle, k + 1, claimed);
        case Valid => ScanMeaning(cfg, creds, oracle, k + 1, RecordMatch(claimed, k));
      }
    }
  }

  /** A live candidate tested within the budget, without failing. */
  lemma PassedOne(cfg: Config, creds: seq<Credential>, oracle: Credential -> Outcome, k: nat, p: Shared)
    requires k < |creds| && Passed(cfg, creds, oracle, k, p)
    requires Live(creds, oracle, k) && !OverBudget(cfg, p)
    ensures oracle(creds[k]) == Invalid ==> Passed(cfg, creds, oracle, k + 1, ClaimAttempt(cfg, p))
    ensures oracle(creds[k]) == Valid ==> Passed(cfg, creds, oracle, k + 1, RecordMatch(ClaimAttempt(cfg, p), k))
  {
  }

  lemma ScanEnds(cfg: Config, creds: seq<Credential>, oracle: Credential -> Outcome, k: nat, p: Shared)
    requires k <= |creds| && Passed(cfg, creds, oracle, k, p)
    requires Cut(cfg, creds, oracle, k) ==> k > 0 && p.matched == [k - 1] && Live(creds, oracle, k - 1)
    requires Cut(cfg, creds, oracle, k) || k == |creds|
    ensures Declared(cfg, creds, oracle, p) && !SomeFailure(cfg, creds, oracle)
  {
    HitsPrefix(cfg, creds, oracle, k, |creds|);
    forall j | k <= j < |creds| ensures !FailsAt(cfg, creds, oracle, j) {
      HitsPrefix(cfg, creds, oracle, k, j);
    }
  }

  lemma ScanRunsOut(cfg: Config, creds: seq<Credential>, oracle: Credential -> Outcome, k: nat, p: Shared)
    requires k < |creds| && Passed(cfg, creds, oracle, k, p) && !Cut(cfg, creds, oracle, k)
    requires Live(creds, oracle, k) && OverBudget(cfg, p)
    ensures Declared(cfg, creds, oracle, CheckBudget(cfg, p)) && !SomeFailure(cfg, creds, oracle)
  {
    forall j | k <= j < |creds| ensures !Affordable(cfg, creds, oracle, j) {
      LiveBelowMonotone(creds, oracle, k, j);
    }
    HitsPrefix(cfg, creds, oracle, k, |creds|);
    LiveBelowMonotone(creds, oracle, k + 1, |creds|);
  }

  /** The scan fails exactly when a candidate it reaches fails; otherwise it matches the first valid
      candidate of each user among the first `maxAttempts` it does not skip, in candidate order,
      cut after the first hit when asked to, and says exactly when the budget ran out. */
  lemma ScanDeclared(cfg: Config, creds: seq<Credential>, oracle: Credential -> Outcome)
    ensures var (p, failed) := ScanFrom(cfg, creds, oracle, 0, START);
            && (failed <==> SomeFailure(cfg, creds, oracle))
            && (!failed ==> Declared(cfg, creds, oracle, p))
  {
    ScanMeaning(cfg, creds, oracle, 0, START);
  }

  /** The protocol with one worker, described declaratively. */
  lemma OneWorkerDeclared(env: Env, oracle: Credential -> Outcome, s: State)
    requires Reachable(env, s) && Succeeded(s) && Follows(env, oracle)
    requires NumWorkers(env.cfg, |env.creds|) == 1
    ensures !SomeFailure(env.cfg, env.creds, oracle)
    ensures Declared(env.cfg, env.creds, oracle, s.shared)
  {
    OneWorkerRefinesScan(env, oracle, s);
    ScanDeclared(env.cfg, env.creds, oracle);
  }

  // ---------- The loop of a worker ----------

  function Everything(n: nat): seq<nat> {
    seq(n, i => i)
  }

  /** Nothing happens meanwhile. */
  function Quiet(): nat -> Moment {
    _ => Moment(false, false, 0, false, [])
  }

  /** Alone, receiving every candidate, the loop is the scan: the second round of checks changes nothing. */
  lemma {:induction false} AloneIsScan(cfg: Config, creds: seq<Credential>, oracle: Credential -> Outcome, k: nat,
                                       p: Shared)
    requires k <= |creds|
    ensures WorkFrom(cfg, creds, oracle, Everything(|creds|), Quiet(), k, p) == ScanFrom(cfg, creds, oracle, k, p)
    decreases |creds| - k
  {
    if k < |creds| {
      var claimed := ClaimAttempt(cfg, p);
      assert Joined(p, Quiet()(k)) == p;
      AloneIsScan(cfg, creds, oracle, k + 1, p);
      AloneIsScan(cfg, creds, oracle, k + 1, claimed);
      AloneIsScan(cfg, creds, oracle, k + 1, RecordMatch(claimed, k));
    }
  }

  /** Candidate number `k` gets as far as the limiter. */
  ghost predicate WaitsFor(cfg: Config, creds: seq<Credential>, received: seq<nat>, m: Moment, k: nat, p: Shared)
    requires k < |received| && InRange(received, |creds|)
  {
    && !m.cancelled && !p.budgetExhausted && !(cfg.stopAtFirst && p.matched != [])
    && (forall i :: i in p.matched && i < |creds| ==> creds[i].username != creds[received[k]].username)
    && (cfg.maxAttempts > 0 ==> p.attempts < cfg.maxAttempts)
  }

  /** A context that is over or a limiter that fails ends the loop with an error, without a test. */
  lemma EndsWithError(cfg: Config, creds: seq<Credential>, oracle: Credential -> Outcome, received: seq<nat>,
                      moments: nat -> Moment, k: nat, p: Shared)
    requires k < |received| && InRange(received, |creds|)
    ensures var m, r := moments(k), WorkFrom(cfg, creds, oracle, received, moments, k, p);
            && (m.cancelled ==> r == (p, true))
            && (m.limiterFails && WaitsFor(cfg, creds, received, m, k, p) ==>
                  r == (Shared(p.attempts + m.attempts, m.exhausted, p.matched + m.matched), true))
  {
    var m := moments(k);
    assert m.limiterFails && WaitsFor(cfg, creds, received, m, k, p) ==>
        !UserDone(creds, p.matched, creds[received[k]].username) && !OverBudget(cfg, p) && !Done(cfg, p);
  }

  /** If meanwhile another worker found a credential under stop-at-first, or the budget ran out or was
      spent, the worker returns without a test; if it found one of the same user, the candidate alone is
      passed over. */
  lemma SecondRoundMatters(cfg: Config, creds: seq<Credential>, oracle: Credential -> Outcome, received: seq<nat>,
                           moments: nat -> Moment, k: nat, p: Shared)
    requires k < |received| && InRange(received, |creds|)
    requires WaitsFor(cfg, creds, received, moments(k), k, p) && !moments(k).limiterFails
    ensures var m, r := moments(k), WorkFrom(cfg, creds, oracle, received, moments, k, p);
            var q := Shared(p.attempts + m.attempts, m.exhausted, p.matched + m.matched);
            && (m.exhausted || (cfg.stopAtFirst && m.matched != []) ==> r == (q, false))
            && (!m.exhausted && !cfg.stopAtFirst && SameUserMatched(creds, m.matched, received[k]) ==>
                  r == WorkFrom(cfg, creds, oracle, received, moments, k + 1, q))
            && (!m.exhausted && !cfg.stopAtFirst && !SameUserMatched(creds, m.matched, received[k])
                && cfg.maxAttempts > 0 && q.attempts >= cfg.maxAttempts ==>
                  r == (q.(budgetExhausted := true), false))
  {
    assert forall i :: i in moments(k).matched ==> i in p.matched + moments(k).matched;
  }

  ghost predicate SameUserMatched(creds: seq<Credential>, matched: seq<nat>, idx: nat)
    requires idx < |creds|
  {
    exists i :: i in matched && i < |creds| && creds[i].username == creds[idx].username
  }

  /** testCredentials with one worker: what it reports. */
  method TestCredentialsAlone(cfg: Config, creds: seq<Credential>, oracle: Credential -> Outcome)
      returns (result: PoolResult, failed: bool, ghost p: Shared)
    requires NumWorkers(cfg, |creds|) <= 1
    ensures failed <==> SomeFailure(cfg, creds, oracle)
    ensures !failed ==>
              && Declared(cfg, creds, oracle, p)
              && StrictlyIncreasing(p.matched) && (forall k :: 0 <= k < |p.matched| ==> p.matched[k] < |creds|)
              && result.validCreds == Pick(creds, p.matched) && result.attempts == p.attempts
              && result.budgetExhausted == (p.budgetExhausted && !(cfg.stopAtFirst && |p.matched| > 0))
  {
    var pool := new WorkerPool(cfg, creds);
    AloneIsScan(cfg, creds, oracle, 0, START);
    failed := pool.RunWorker(oracle, Everything(|creds|), Quiet());
    p := pool.View();
    ScanDeclared(cfg, creds, oracle);
    if failed {
      result := PoolResult([], 0, false);
    } else {
      HitsBelowMembers(cfg, creds, oracle, |creds|);
      assert StrictlyIncreasing(p.matched);
      SortedIdentity(p.matched);
      result := pool.Result();
    }
  }
}
