/** What every run of the worker pool guarantees, over all interleavings. */
module WorkerPoolTheorems {
  import opened Sequences
  import opened Credentials
  import opened WorkerPools
  import opened WorkerPoolProtocol

  /** Every worker has returned: `group.Wait` is over. */
  predicate Finished(s: State) {
    forall w :: 0 <= w < |s.workers| ==> s.workers[w].Stopped?
  }

  /** ... and no worker returned an error, so the result is reported. */
  predicate Succeeded(s: State) {
    Finished(s) && !s.failed
  }

  predicate TestedAs(s: State, i: nat, outcome: Outcome) {
    i in s.ended && s.ended[i] == Tested(outcome)
  }

  // ---------- Completeness ----------

  /** A run that ends without error and without a stop reason has dealt with every candidate: each
      was tested, or skipped because its user already had a match. */
  lemma Completeness(env: Env, s: State)
    requires Reachable(env, s) && Succeeded(s) && !Done(env.cfg, s.shared)
    ensures forall i: nat :: i < |env.creds| ==>
              || TestedAs(s, i, Valid) || TestedAs(s, i, Invalid)
              || (i in s.ended && s.ended[i] == Skipped
                  && UserDone(env.creds, s.shared.matched, env.creds[i].username))
  {
    ReachableInv(env, s);
    if |env.creds| > 0 {
      assert s.workers[0] == Stopped(false);
      assert s.next == |env.creds|;
      forall i: nat | i < |env.creds|
        ensures || TestedAs(s, i, Valid) || TestedAs(s, i, Invalid)
                || (i in s.ended && s.ended[i] == Skipped
                    && UserDone(env.creds, s.shared.matched, env.creds[i].username))
      {
        assert i in s.holder;
        assert !Holds(s.workers[s.holder[i]], i);
        assert i in s.ended && s.ended[i] != Dropped && s.ended[i] != Tested(Failure);
        match s.ended[i]
        case Tested(outcome) => assert outcome == Valid || outcome == Invalid;
        case Skipped => assert UserDone(env.creds, s.shared.matched, UserOf(env, i));
        case Dropped =>
      }
    }
  }

  ghost predicate Follows(env: Env, oracle: Credential -> Outcome) {
    forall c :: env.answers(c) == {oracle(c)}
  }

  /** A match comes from a valid candidate of its user. */
  lemma MatchIsValid(env: Env, oracle: Credential -> Outcome, s: State, user: string)
    requires Reachable(env, s) && Follows(env, oracle) && UserDone(env.creds, s.shared.matched, user)
    ensures exists i :: 0 <= i < |env.creds| && env.creds[i].username == user && oracle(env.creds[i]) == Valid
  {
    ReachableInv(env, s);
    var k :| 0 <= k < |s.shared.matched| && s.shared.matched[k] < |env.creds|
             && env.creds[s.shared.matched[k]].username == user;
    var i := s.shared.matched[k];
    assert i in s.shared.matched;
    assert env.creds[i].username == user && oracle(env.creds[i]) == Valid;
  }

  /** A valid candidate that was tested, or skipped for its user's sake, leaves its user matched. */
  lemma ValidIsMatched(env: Env, oracle: Credential -> Outcome, s: State, i: nat)
    requires Reachable(env, s) && Succeeded(s) && !Done(env.cfg, s.shared) && Follows(env, oracle)
    requires i < |env.creds| && oracle(env.creds[i]) == Valid
    ensures UserDone(env.creds, s.shared.matched, env.creds[i].username)
  {
    Completeness(env, s);
    ReachableInv(env, s);
    if TestedAs(s, i, Valid) {
      assert i in s.shared.matched;
      var k :| 0 <= k < |s.shared.matched| && s.shared.matched[k] == i;
    }
  }

  /** Against a service that answers consistently, the users with a match are exactly the users
      with a valid candidate. */
  lemma UsersFound(env: Env, oracle: Credential -> Outcome, s: State, user: string)
    requires Reachable(env, s) && Succeeded(s) && !Done(env.cfg, s.shared) && Follows(env, oracle)
    ensures UserDone(env.creds, s.shared.matched, user)
       <==> exists i :: 0 <= i < |env.creds| && env.creds[i].username == user && oracle(env.creds[i]) == Valid
  {
    if UserDone(env.creds, s.shared.matched, user) {
      MatchIsValid(env, oracle, s, user);
    }
    if i :| 0 <= i < |env.creds| && env.creds[i].username == user && oracle(env.creds[i]) == Valid {
      ValidIsMatched(env, oracle, s, i);
    }
  }

  /** Whatever the settings, a run reported without exhausted budget finds something exactly when
      some candidate is valid. */
  lemma SomethingFound(env: Env, oracle: Credential -> Outcome, s: State)
    requires Reachable(env, s) && Succeeded(s) && Follows(env, oracle)
    requires Reportable(env, s) && !ResultOf(env.cfg, env.creds, s.shared).budgetExhausted
    ensures |s.shared.matched| > 0 <==> exists i :: 0 <= i < |env.creds| && oracle(env.creds[i]) == Valid
  {
    ReachableInv(env, s);
    if |s.shared.matched| > 0 {
      var i := s.shared.matched[0];
      assert i in s.shared.matched;
      assert i < |env.creds| && oracle(env.creds[i]) == Valid;
    } else if i :| 0 <= i < |env.creds| && oracle(env.creds[i]) == Valid {
      UsersFound(env, oracle, s, env.creds[i].username);
    }
  }

  // ---------- The reported credentials ----------

  ghost predicate Reportable(env: Env, s: State) {
    forall k :: 0 <= k < |Sorted(s.shared.matched)| ==> Sorted(s.shared.matched)[k] < |env.creds|
  }

  /** The report lists exactly the candidates found valid, in candidate order. */
  lemma ReportedCredentials(env: Env, s: State)
    requires Reachable(env, s)
    ensures Reportable(env, s) && StrictlyIncreasing(Sorted(s.shared.matched))
    ensures forall i: nat :: i in Sorted(s.shared.matched) <==> TestedAs(s, i, Valid)
    ensures ResultOf(env.cfg, env.creds, s.shared).validCreds == Pick(env.creds, Sorted(s.shared.matched))
  {
    ReachableInv(env, s);
    SortedKeeps(s.shared.matched);
    var sorted := Sorted(s.shared.matched);
    forall k | 0 <= k < |sorted| ensures sorted[k] < |env.creds| {
      assert sorted[k] in sorted;
    }
  }

  /** Without stop-at-first and without exhausted budget, the usernames reported by a successful run
      are exactly those with a valid candidate. */
  lemma ReportedUsers(env: Env, oracle: Credential -> Outcome, s: State, user: string)
    requires Reachable(env, s) && Succeeded(s) && Follows(env, oracle)
    requires !env.cfg.stopAtFirst && !s.shared.budgetExhausted
    ensures Reportable(env, s) && !ResultOf(env.cfg, env.creds, s.shared).budgetExhausted
    ensures (exists c :: c in ResultOf(env.cfg, env.creds, s.shared).validCreds && c.username == user)
       <==> exists i :: 0 <= i < |env.creds| && env.creds[i].username == user && oracle(env.creds[i]) == Valid
  {
    ReachableInv(env, s);
    ReportedCredentials(env, s);
    SortedKeeps(s.shared.matched);
    UsersFound(env, oracle, s, user);
    PickedUsers(env.creds, s.shared.matched, Sorted(s.shared.matched), user);
  }

  lemma PickedUsers(creds: seq<Credential>, matched: seq<nat>, sorted: seq<nat>, user: string)
    requires forall i :: i in sorted <==> i in matched
    requires forall k :: 0 <= k < |sorted| ==> sorted[k] < |creds|
    ensures (exists c :: c in Pick(creds, sorted) && c.username == user) <==> UserDone(creds, matched, user)
  {
    var picked := Pick(creds, sorted);
    if c :| c in picked && c.username == user {
      var k :| 0 <= k < |picked| && picked[k] == c;
      assert sorted[k] in matched;
      var j :| 0 <= j < |matched| && matched[j] == sorted[k];
    }
    if UserDone(creds, matched, user) {
      var j :| 0 <= j < |matched| && matched[j] < |creds| && creds[matched[j]].username == user;
      assert matched[j] in sorted;
      var k :| 0 <= k < |sorted| && sorted[k] == matched[j];
      assert picked[k] in picked;
    }
  }

  // ---------- The attempt budget ----------

  /** At every moment: no candidate is tested twice, the budget is never exceeded, and the counter
      runs ahead of the tests only by workers about to test. */
  lemma BudgetAccounting(env: Env, s: State)
    requires Reachable(env, s)
    ensures Distinct(s.calls) && forall i :: i in s.calls ==> i < |env.creds|
    ensures |s.calls| <= s.shared.attempts <= |env.creds|
    ensures env.cfg.maxAttempts > 0 ==> s.shared.attempts <= env.cfg.maxAttempts
    ensures Finished(s) ==> |s.calls| == s.shared.attempts && Elements(s.calls) == Elements(s.claims)
  {
    ReachableInv(env, s);
    DistinctBounded(s.claims, |env.creds|);
    DistinctLength(s.claims);
    DistinctLength(s.calls);
    forall i: nat | i in s.calls ensures i in s.claims {
      assert PastCall(s, i) && PastClaim(s, i);
    }
    SubsetSize(Elements(s.calls), Elements(s.claims));
    if Finished(s) {
      forall i: nat | i in s.claims ensures i in s.calls {
        assert PastClaim(s, i) && PastCall(s, i);
      }
      assert Elements(s.calls) == Elements(s.claims);
    }
  }

  /** An exhausted budget is spent to the last attempt and left a candidate untested; so a budget
      of at least the number of candidates is never reported exhausted. */
  lemma ExhaustedBudget(env: Env, s: State)
    requires Reachable(env, s) && s.shared.budgetExhausted
    ensures env.cfg.maxAttempts > 0 && s.shared.attempts == env.cfg.maxAttempts < |env.creds|
    ensures exists i: nat :: i < |env.creds| && i in s.ended && s.ended[i] == Dropped && i !in s.calls
  {
    ReachableInv(env, s);
    var i :| i in s.ended && s.ended[i] == Dropped;
    assert !PastClaim(s, i) && !PastCall(s, i);
    assert i !in s.claims && i !in s.calls;
    forall j: nat | j in s.claims ensures j < |env.creds| {
      assert PastClaim(s, j);
    }
    DistinctBounded(s.claims + [i], |env.creds|);
  }

  // ---------- Overshoot after a match ----------

  /** With stop-at-first: at most one match per worker, and after the first match is recorded at
      most the other workers can still start one test each. */
  lemma StopAtFirstOvershoot(env: Env, s: State)
    requires Reachable(env, s) && env.cfg.stopAtFirst
    ensures |s.shared.matched| <= |s.workers|
    ensures |s.late| > 0 ==> |s.late| <= |s.workers| - 1
  {
    ReachableInv(env, s);
    forall x | x in s.recorders ensures x < |s.workers| {
      var k :| 0 <= k < |s.recorders| && s.recorders[k] == x;
    }
    DistinctBounded(s.recorders, |s.workers|);
    if |s.late| > 0 {
      var ids := s.late + [s.recorders[0]];
      forall x | x in ids ensures x < |s.workers| {
        var k :| 0 <= k < |ids| && ids[k] == x;
      }
      DistinctBounded(ids, |s.workers|);
    }
  }

  /** The workers that recorded a match of `user`, in order. */
  function RecordersOf(env: Env, matched: seq<nat>, recorders: seq<nat>, user: string): seq<nat>
    requires |matched| == |recorders|
  {
    if matched == [] then []
    else
      var last := |matched| - 1;
      RecordersOf(env, matched[..last], recorders[..last], user)
        + if UserOf(env, matched[last]) == user then [recorders[last]] else []
  }

  /** How many reported credentials have this username. */
  function MatchesOf(env: Env, matched: seq<nat>, user: string): nat {
    if matched == [] then 0
    else
      var last := |matched| - 1;
      MatchesOf(env, matched[..last], user) + if UserOf(env, matched[last]) == user then 1 else 0
  }

  lemma {:induction false} RecordersOfDistinct(env: Env, matched: seq<nat>, recorders: seq<nat>, user: string)
    requires |matched| == |recorders|
    requires forall j, k :: 0 <= j < k < |recorders| && recorders[j] == recorders[k]
               ==> UserOf(env, matched[j]) != UserOf(env, matched[k])
    ensures Distinct(RecordersOf(env, matched, recorders, user))
    ensures |RecordersOf(env, matched, recorders, user)| == MatchesOf(env, matched, user)
    ensures forall x :: x in RecordersOf(env, matched, recorders, user) ==>
              exists k :: 0 <= k < |recorders| && recorders[k] == x && UserOf(env, matched[k]) == user
  {
    if matched == [] {
    } else {
      var last := |matched| - 1;
      RecordersOfDistinct(env, matched[..last], recorders[..last], user);
      forall x | x in RecordersOf(env, matched[..last], recorders[..last], user)
        ensures exists k :: 0 <= k < last && recorders[k] == x && UserOf(env, matched[k]) == user
      {
        var k :| 0 <= k < last && recorders[..last][k] == x && UserOf(env, matched[..last][k]) == user;
        assert recorders[k] == x && UserOf(env, matched[k]) == user;
      }
      assert UserOf(env, matched[last]) == user ==>
        recorders[last] !in RecordersOf(env, matched[..last], recorders[..last], user);
    }
  }

  /** No username is reported more often than there are workers. */
  lemma MatchesPerUser(env: Env, s: State, user: string)
    requires Reachable(env, s)
    ensures MatchesOf(env, s.shared.matched, user) <= |s.workers|
  {
    ReachableInv(env, s);
    var ids := RecordersOf(env, s.shared.matched, s.recorders, user);
    RecordersOfDistinct(env, s.shared.matched, s.recorders, user);
    forall x | x in ids ensures x < |s.workers| {
      var k :| 0 <= k < |s.recorders| && s.recorders[k] == x && UserOf(env, s.shared.matched[k]) == user;
    }
    DistinctBounded(ids, |s.workers|);
  }

  // ---------- Termination ----------

  function RankSum(workers: seq<Pc>): nat {
    if workers == [] then 0 else Rank(workers[0]) + RankSum(workers[1..])
  }

  lemma {:induction false} RankSumUpdate(workers: seq<Pc>, w: nat, pc: Pc)
    requires w < |workers|
    ensures RankSum(workers[w := pc]) == RankSum(workers) - Rank(workers[w]) + Rank(pc)
  {
    if w == 0 {
      assert workers[w := pc][1..] == workers[1..];
    } else {
      assert workers[w := pc][1..] == workers[1..][w - 1 := pc];
      RankSumUpdate(workers[1..], w - 1, pc);
    }
  }

  /** What is left to do: bounded, and smaller after every step of every worker. */
  function Measure(env: Env, s: State): nat
    requires s.next <= |env.creds|
  {
    12 * (|env.creds| - s.next) + RankSum(s.workers) + if s.cancelled then 0 else 1
  }

  lemma StepDecreases(env: Env, s: State, a: Action)
    requires Ownership(env, s) && Enabled(env, s, a)
    ensures var t := Apply(env, s, a); t.next <= |env.creds| && Measure(env, t) < Measure(env, s)
  {
    if a.Move? {
      var t, shape := Apply(env, s, a), ShapeOf(env, s, a.w, a.choice);
      StepShape(env, s, a.w, a.choice);
      ShapeDecreases(env, s, t, a.w, shape);
    }
  }

  lemma ShapeDecreases(env: Env, s: State, t: State, w: nat, shape: Shape)
    requires Ownership(env, s) && HasShape(env, s, t, w, shape)
    ensures t.next <= |env.creds| && Measure(env, t) < Measure(env, s)
  {
    RankSumUpdate(s.workers, w, t.workers[w]);
    assert t.workers == s.workers[w := t.workers[w]];
  }

  lemma {:induction false} RunBounded(env: Env, s: State, acts: seq<Action>, t: State)
    requires Inv(env, s) && Runs(env, s, acts, t)
    ensures Inv(env, t) && |acts| + Measure(env, t) <= Measure(env, s)
    decreases acts
  {
    if acts == [] {
    } else {
      StepInv(env, s, acts[0]);
      StepDecreases(env, s, acts[0]);
      RunBounded(env, Apply(env, s, acts[0]), acts[1..], t);
    }
  }

  lemma {:induction false} ReceiveRanks(n: nat)
    ensures RankSum(seq(n, _ => Receive)) == n
  {
    if n == 0 {
    } else {
      var workers: seq<Pc> := seq(n, _ => Receive);
      assert workers[1..] == seq(n - 1, _ => Receive);
      ReceiveRanks(n - 1);
    }
  }

  /** Every run, however interleaved, is at most this long; and a worker that has not returned can
      always take a step, so no run gets stuck. */
  lemma Terminates(env: Env, acts: seq<Action>, t: State)
    requires Runs(env, Init(env), acts, t)
    ensures |acts| <= 12 * |env.creds| + NumWorkers(env.cfg, |env.creds|) + 1
    ensures !Finished(t) && (forall c :: env.answers(c) != {}) ==> exists a: Action :: a.Move? && Enabled(env, t, a)
  {
    InitInv(env);
    RunBounded(env, Init(env), acts, t);
    ReceiveRanks(NumWorkers(env.cfg, |env.creds|));
    if !Finished(t) && forall c :: env.answers(c) != {} {
      var w: nat :| w < |t.workers| && !t.workers[w].Stopped?;
      if t.workers[w].Testing? {
        var outcome :| outcome in env.answers(env.creds[t.workers[w].idx]);
        assert Enabled(env, t, Move(w, Reply(outcome)));
      } else {
        assert Enabled(env, t, Move(w, Go));
      }
    }
  }
}
