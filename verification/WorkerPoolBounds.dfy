/** The bounds on matches and late tests cannot be improved: runs that attain them. */
module WorkerPoolBounds {
  import opened Credentials
  import opened WorkerPools
  import opened WorkerPoolProtocol
  import opened WorkerPoolTheorems

  lemma {:induction false} RunsAppend(env: Env, s: State, acts: seq<Action>, t: State, a: Action)
    requires Runs(env, s, acts, t) && Enabled(env, t, a)
    ensures Runs(env, s, acts + [a], Apply(env, t, a))
    decreases acts
  {
    if acts == [] {
      assert acts + [a] == [a] && [a][1..] == [];
    } else {
      assert (acts + [a])[1..] == acts[1..] + [a];
      RunsAppend(env, Apply(env, s, acts[0]), acts[1..], t, a);
    }
  }

  lemma Reach(env: Env, s: State, a: Action) returns (t: State)
    requires Reachable(env, s) && Enabled(env, s, a)
    ensures t == Apply(env, s, a) && Reachable(env, t)
  {
    t := Apply(env, s, a);
    var acts :| Runs(env, Init(env), acts, s);
    RunsAppend(env, Init(env), acts, s, a);
  }

  // ---------- One worker ----------

  /** Nothing stops a worker, and no user has a match. */
  predicate Clear(env: Env, s: State) {
    !s.cancelled && !s.shared.budgetExhausted && s.shared.matched == [] && !OverBudget(env.cfg, s.shared)
  }

  /** A worker receives a candidate and gets past the first checks ... */
  lemma Arrive(env: Env, s: State, w: nat) returns (t: State)
    requires Reachable(env, s) && Clear(env, s) && w < |s.workers| && s.workers[w].Receive? && s.next < |env.creds|
    ensures Reachable(env, t)
    ensures t == s.(next := s.next + 1, holder := s.holder[s.next := w], workers := s.workers[w := Budget(s.next)])
  {
    t := Reach(env, s, Move(w, Go));
    t := Reach(env, t, Move(w, Go));
    t := Reach(env, t, Move(w, Go));
    t := Reach(env, t, Move(w, Go));
  }

  /** ... the limiter and the second checks ... */
  lemma Pass(env: Env, s: State, w: nat, idx: nat) returns (t: State)
    requires Reachable(env, s) && Clear(env, s) && w < |s.workers| && s.workers[w] == Budget(idx)
    ensures Reachable(env, t) && t == s.(workers := s.workers[w := Claim(idx)])
  {
    t := Reach(env, s, Move(w, Go));
    t := Reach(env, t, Move(w, Go));
    t := Reach(env, t, Move(w, Go));
    t := Reach(env, t, Move(w, Go));
  }

  /** ... and claims an attempt. */
  lemma Prepare(env: Env, s: State, w: nat) returns (t: State)
    requires Reachable(env, s) && Clear(env, s) && w < |s.workers| && s.workers[w].Receive? && s.next < |env.creds|
    ensures Reachable(env, t)
    ensures t.workers == s.workers[w := Call(s.next)] && t.next == s.next + 1
    ensures t.shared == s.shared.(attempts := s.shared.attempts + 1)
    ensures t.cancelled == s.cancelled && t.failed == s.failed && t.late == s.late
  {
    t := Arrive(env, s, w);
    t := Pass(env, t, w, s.next);
    t := Reach(env, t, Move(w, Go));
  }

  /** A prepared worker tests its candidate, records it and is free again. */
  lemma Succeed(env: Env, s: State, w: nat, idx: nat) returns (t: State)
    requires Reachable(env, s) && w < |s.workers| && s.workers[w] == Call(idx)
    requires idx < |env.creds| && Valid in env.answers(env.creds[idx])
    ensures Reachable(env, t)
    ensures t.workers == s.workers[w := Receive] && t.next == s.next
    ensures t.shared == s.shared.(matched := s.shared.matched + [idx])
    ensures t.late == if s.shared.matched == [] then s.late else s.late + [w]
    ensures t.cancelled == s.cancelled && t.failed == s.failed
  {
    t := Reach(env, s, Move(w, Go));
    t := Reach(env, t, Move(w, Reply(Valid)));
    t := Reach(env, t, Move(w, Go));
  }

  // ---------- All workers ----------

  function Upto(k: nat): seq<nat> {
    seq(k, i => i)
  }

  /** The first `k` workers are about to test, the others have not started. */
  ghost predicate Prepared(env: Env, s: State, k: nat) {
    && Reachable(env, s) && !s.cancelled && !s.failed && k <= |s.workers| == NumWorkers(env.cfg, |env.creds|)
    && s.next == k && s.shared == Shared(k, false, []) && s.late == []
    && forall w :: 0 <= w < |s.workers| ==> s.workers[w] == if w < k then Call(w) else Receive
  }

  lemma {:induction false} PrepareAll(env: Env, k: nat) returns (s: State)
    requires k <= NumWorkers(env.cfg, |env.creds|)
    ensures Prepared(env, s, k)
  {
    if k == 0 {
      s := Init(env);
      assert Runs(env, Init(env), [], s);
    } else {
      s := PrepareAll(env, k - 1);
      s := Prepare(env, s, k - 1);
    }
  }

  /** All were, and the first `k` of them found their candidate valid. */
  ghost predicate Matched(env: Env, s: State, k: nat) {
    && Reachable(env, s) && !s.cancelled && !s.failed && k <= |s.workers| == NumWorkers(env.cfg, |env.creds|)
    && s.next == |s.workers| && !s.shared.budgetExhausted && s.shared.matched == Upto(k)
    && |s.late| == (if k == 0 then 0 else k - 1)
    && forall w :: 0 <= w < |s.workers| ==> s.workers[w] == if w < k then Receive else Call(w)
  }

  ghost predicate AllValid(env: Env) {
    forall i :: 0 <= i < |env.creds| ==> Valid in env.answers(env.creds[i])
  }

  /** Whatever the settings: when all workers are about to test before the first match is recorded, each
      of them can record one, and all but the first test late. */
  lemma {:induction false} MatchAll(env: Env, k: nat) returns (s: State)
    requires AllValid(env) && k <= NumWorkers(env.cfg, |env.creds|)
    ensures Matched(env, s, k)
  {
    if k == 0 {
      s := PrepareAll(env, NumWorkers(env.cfg, |env.creds|));
    } else {
      s := MatchAll(env, k - 1);
      s := Succeed(env, s, k - 1, k - 1);
      assert Upto(k) == Upto(k - 1) + [k - 1];
    }
  }

  /** No candidate is left: the first `k` workers have returned. */
  ghost predicate Leaving(env: Env, s: State, k: nat) {
    && Reachable(env, s) && !s.failed && k <= |s.workers| == NumWorkers(env.cfg, |env.creds|)
    && s.next == |env.creds| == |s.workers| && s.shared.matched == Upto(|s.workers|)
    && |s.late| == |s.workers| - 1
    && forall w :: 0 <= w < |s.workers| ==> s.workers[w] == if w < k then Stopped(false) else Receive
  }

  lemma {:induction false} LeaveAll(env: Env, k: nat) returns (s: State)
    requires AllValid(env) && 1 <= |env.creds| == NumWorkers(env.cfg, |env.creds|) && k <= |env.creds|
    ensures Leaving(env, s, k)
  {
    if k == 0 {
      s := MatchAll(env, |env.creds|);
    } else {
      s := LeaveAll(env, k - 1);
      s := Reach(env, s, Move(k - 1, Go));
    }
  }

  // ---------- The bounds are exact ----------

  function Guesses(n: nat, user: string): seq<Credential> {
    seq(n, i requires 0 <= i < n => Credential(user, seq(i, _ => 'x')))
  }

  /** Different candidates of one user, all of them valid, one worker each. */
  function Easy(n: nat, stopAtFirst: bool, user: string): Env {
    Env(Config(n, 0, stopAtFirst), Guesses(n, user), _ => {Valid})
  }

  lemma {:induction false} AllOfOneUser(env: Env, matched: seq<nat>, user: string)
    requires forall k :: 0 <= k < |matched| ==> UserOf(env, matched[k]) == user
    ensures MatchesOf(env, matched, user) == |matched|
  {
    if matched == [] {
    } else {
      AllOfOneUser(env, matched[..|matched| - 1], user);
    }
  }

  lemma Attained(n: nat, stopAtFirst: bool, user: string) returns (s: State)
    requires n >= 1
    ensures var env := Easy(n, stopAtFirst, user);
            && Reachable(env, s) && Succeeded(s) && |s.workers| == n && |s.late| == n - 1
            && |s.shared.matched| == n == MatchesOf(env, s.shared.matched, user)
  {
    var env := Easy(n, stopAtFirst, user);
    s := LeaveAll(env, n);
    AllOfOneUser(env, s.shared.matched, user);
  }

  ghost predicate MatchesAtMost(n: nat, bound: nat) {
    forall env: Env, s: State | env.cfg.stopAtFirst && Reachable(env, s) && Succeeded(s) && |s.workers| == n ::
      |s.shared.matched| <= bound
  }

  ghost predicate LateAtMost(n: nat, bound: nat) {
    forall env: Env, s: State | env.cfg.stopAtFirst && Reachable(env, s) && Succeeded(s) && |s.workers| == n ::
      |s.late| <= bound
  }

  /** With stop-at-first, `n` workers report up to `n` matches, `n - 1` of them tested after the first
      match was recorded, and these bounds are exact. */
  lemma OvershootIff(n: nat, bound: nat)
    requires n >= 1
    ensures MatchesAtMost(n, bound) <==> n <= bound
    ensures LateAtMost(n, bound) <==> n - 1 <= bound
  {
    var env := Easy(n, true, "");
    var t := Attained(n, true, "");
    assert env.cfg.stopAtFirst;
    forall env: Env, s: State | env.cfg.stopAtFirst && Reachable(env, s) && Succeeded(s) && |s.workers| == n
      ensures |s.shared.matched| <= n && |s.late| <= n - 1
    {
      StopAtFirstOvershoot(env, s);
    }
  }

  ghost predicate SameUserAtMost(n: nat, stopAtFirst: bool, bound: nat) {
    forall env: Env, s: State, user: string |
      env.cfg.stopAtFirst == stopAtFirst && Reachable(env, s) && Succeeded(s) && |s.workers| == n ::
      MatchesOf(env, s.shared.matched, user) <= bound
  }

  /** With or without stop-at-first, one username is reported up to once per worker. */
  lemma MatchesPerUserIff(n: nat, stopAtFirst: bool, bound: nat)
    requires n >= 1
    ensures SameUserAtMost(n, stopAtFirst, bound) <==> n <= bound
  {
    var env := Easy(n, stopAtFirst, "");
    var t := Attained(n, stopAtFirst, "");
    assert env.cfg.stopAtFirst == stopAtFirst;
    forall env: Env, s: State, user: string |
      env.cfg.stopAtFirst == stopAtFirst && Reachable(env, s) && Succeeded(s) && |s.workers| == n
      ensures MatchesOf(env, s.shared.matched, user) <= n
    {
      MatchesPerUser(env, s, user);
    }
  }
}
