/** The checks a candidate has to pass before it is tested, over whole runs: once the reason to stop is
    there, no candidate that has not passed the check is ever tested. */
module WorkerPoolGates {
  import opened WorkerPools
  import opened WorkerPoolProtocol
  import opened WorkerPoolTheorems

  /** The seven checks of the loop, in order. */
  datatype Gate = Context | FirstStop | FirstUser | HasBudget | SecondStop | SecondUser | ClaimBudget

  /** The reason a check turns a candidate of this user away. */
  ghost predicate Closed(env: Env, s: State, gate: Gate, user: string) {
    match gate
    case Context => s.cancelled
    case FirstStop => s.shared.budgetExhausted || (env.cfg.stopAtFirst && s.shared.matched != [])
    case SecondStop => s.shared.budgetExhausted || (env.cfg.stopAtFirst && s.shared.matched != [])
    case FirstUser => SomeMatchOf(env, s, user)
    case SecondUser => SomeMatchOf(env, s, user)
    case HasBudget => env.cfg.maxAttempts > 0 && s.shared.attempts >= env.cfg.maxAttempts
    case ClaimBudget => env.cfg.maxAttempts > 0 && s.shared.attempts >= env.cfg.maxAttempts
  }

  ghost predicate SomeMatchOf(env: Env, s: State, user: string) {
    exists m :: m in s.shared.matched && m < |env.creds| && env.creds[m].username == user
  }

  /** How many checks a worker holding a candidate has passed. */
  function Passed(pc: Pc): nat {
    match pc
    case FirstDone(_) => 1
    case FirstUserDone(_) => 2
    case Budget(_) => 3
    case Wait(_) => 4
    case SecondDone(_) => 4
    case SecondUserDone(_) => 5
    case Claim(_) => 6
    case Call(_) => 7
    case Testing(_) => 7
    case Record(_) => 7
    case _ => 0
  }

  function Number(gate: Gate): nat {
    match gate
    case Context => 0
    case FirstStop => 1
    case FirstUser => 2
    case HasBudget => 3
    case SecondStop => 4
    case SecondUser => 5
    case ClaimBudget => 6
  }

  /** Whoever holds the candidate has yet to pass the check. */
  ghost predicate HeldBefore(s: State, gate: Gate, idx: nat) {
    forall w :: 0 <= w < |s.workers| && Holds(s.workers[w], idx) ==> Passed(s.workers[w]) <= Number(gate)
  }

  /** What a step of worker `w` leaves of its candidate, if it had this one. */
  ghost predicate StillBefore(env: Env, s: State, t: State, gate: Gate, idx: nat, w: nat) {
    && w < |s.workers| == |t.workers| && t.workers == s.workers[w := t.workers[w]]
    && (Holds(t.workers[w], idx) ==> Passed(t.workers[w]) <= Number(gate))
    && (idx !in s.calls ==> idx !in t.calls)
  }

  ghost predicate CanStep(env: Env, s: State, gate: Gate, idx: nat, w: nat, choice: Choice) {
    && idx < |env.creds| && Closed(env, s, gate, env.creds[idx].username) && Enabled(env, s, Move(w, choice))
    && (Holds(s.workers[w], idx) ==> Passed(s.workers[w]) <= Number(gate))
  }

  lemma AtContext(env: Env, s: State, gate: Gate, idx: nat, w: nat, choice: Choice)
    requires CanStep(env, s, gate, idx, w, choice) && (s.workers[w].CheckContext? || s.workers[w].FirstDone?)
    ensures StillBefore(env, s, Apply(env, s, Move(w, choice)), gate, idx, w)
  {
    ClosedMeans(env, s, gate, idx);
  }

  lemma AtFirstUser(env: Env, s: State, gate: Gate, idx: nat, w: nat, choice: Choice)
    requires CanStep(env, s, gate, idx, w, choice) && s.workers[w].FirstUserDone?
    ensures StillBefore(env, s, Apply(env, s, Move(w, choice)), gate, idx, w)
  {
    ClosedMeans(env, s, gate, idx);
  }

  lemma AtBudget(env: Env, s: State, gate: Gate, idx: nat, w: nat, choice: Choice)
    requires CanStep(env, s, gate, idx, w, choice) && s.workers[w].Budget?
    ensures StillBefore(env, s, Apply(env, s, Move(w, choice)), gate, idx, w)
  {
    ClosedMeans(env, s, gate, idx);
  }

  lemma AtWait(env: Env, s: State, gate: Gate, idx: nat, w: nat, choice: Choice)
    requires CanStep(env, s, gate, idx, w, choice) && (s.workers[w].Wait? || s.workers[w].SecondDone?)
    ensures StillBefore(env, s, Apply(env, s, Move(w, choice)), gate, idx, w)
  {
    ClosedMeans(env, s, gate, idx);
  }

  lemma AtSecondUser(env: Env, s: State, gate: Gate, idx: nat, w: nat, choice: Choice)
    requires CanStep(env, s, gate, idx, w, choice) && s.workers[w].SecondUserDone?
    ensures StillBefore(env, s, Apply(env, s, Move(w, choice)), gate, idx, w)
  {
    ClosedMeans(env, s, gate, idx);
  }

  lemma AtClaim(env: Env, s: State, gate: Gate, idx: nat, w: nat, choice: Choice)
    requires CanStep(env, s, gate, idx, w, choice) && s.workers[w].Claim?
    ensures StillBefore(env, s, Apply(env, s, Move(w, choice)), gate, idx, w)
  {
    ClosedMeans(env, s, gate, idx);
  }

  lemma AtCall(env: Env, s: State, gate: Gate, idx: nat, w: nat, choice: Choice)
    requires CanStep(env, s, gate, idx, w, choice) && (s.workers[w].Call? || s.workers[w].Record?)
    ensures StillBefore(env, s, Apply(env, s, Move(w, choice)), gate, idx, w)
  {
  }

  lemma AtTest(env: Env, s: State, gate: Gate, idx: nat, w: nat, choice: Choice)
    requires CanStep(env, s, gate, idx, w, choice) && s.workers[w].Testing?
    ensures StillBefore(env, s, Apply(env, s, Move(w, choice)), gate, idx, w)
  {
  }

  lemma AtReceive(env: Env, s: State, gate: Gate, idx: nat, w: nat, choice: Choice)
    requires CanStep(env, s, gate, idx, w, choice) && !Holding(s.workers[w])
    ensures StillBefore(env, s, Apply(env, s, Move(w, choice)), gate, idx, w)
  {
  }

  lemma ClosedMeans(env: Env, s: State, gate: Gate, idx: nat)
    requires idx < |env.creds| && Closed(env, s, gate, env.creds[idx].username)
    ensures gate.Context? ==> s.cancelled
    ensures gate.FirstStop? || gate.SecondStop? ==> Done(env.cfg, s.shared)
    ensures gate.FirstUser? || gate.SecondUser? ==> UserDone(env.creds, s.shared.matched, UserOf(env, idx))
    ensures gate.HasBudget? || gate.ClaimBudget? ==> OverBudget(env.cfg, s.shared)
  {
  }

  lemma BarredStep(env: Env, s: State, gate: Gate, idx: nat, a: Action)
    requires idx < |env.creds| && Closed(env, s, gate, env.creds[idx].username)
    requires HeldBefore(s, gate, idx) && idx !in s.calls && Enabled(env, s, a)
    ensures HeldBefore(Apply(env, s, a), gate, idx) && idx !in Apply(env, s, a).calls
  {
    if a.Move? {
      match s.workers[a.w]
      case CheckContext(_) => AtContext(env, s, gate, idx, a.w, a.choice);
      case FirstDone(_) => AtContext(env, s, gate, idx, a.w, a.choice);
      case FirstUserDone(_) => AtFirstUser(env, s, gate, idx, a.w, a.choice);
      case Budget(_) => AtBudget(env, s, gate, idx, a.w, a.choice);
      case Wait(_) => AtWait(env, s, gate, idx, a.w, a.choice);
      case SecondDone(_) => AtWait(env, s, gate, idx, a.w, a.choice);
      case SecondUserDone(_) => AtSecondUser(env, s, gate, idx, a.w, a.choice);
      case Claim(_) => AtClaim(env, s, gate, idx, a.w, a.choice);
      case Call(_) => AtCall(env, s, gate, idx, a.w, a.choice);
      case Record(_) => AtCall(env, s, gate, idx, a.w, a.choice);
      case Testing(_) => AtTest(env, s, gate, idx, a.w, a.choice);
      case Receive => AtReceive(env, s, gate, idx, a.w, a.choice);
      case Stopped(_) =>
    }
  }

  lemma SharedGrows(env: Env, s: State, a: Action)
    requires Ownership(env, s) && Enabled(env, s, a)
    ensures var t := Apply(env, s, a);
            && (s.cancelled ==> t.cancelled) && s.shared.matched <= t.shared.matched
            && (s.shared.budgetExhausted ==> t.shared.budgetExhausted) && s.shared.attempts <= t.shared.attempts
  {
    if a.Move? {
      StepShape(env, s, a.w, a.choice);
    }
  }

  lemma ClosedStep(env: Env, s: State, gate: Gate, user: string, a: Action)
    requires Ownership(env, s) && Closed(env, s, gate, user) && Enabled(env, s, a)
    ensures Closed(env, Apply(env, s, a), gate, user)
  {
    SharedGrows(env, s, a);
    assert forall m :: m in s.shared.matched ==> m in Apply(env, s, a).shared.matched;
  }

  lemma {:induction false} BarredRuns(env: Env, s: State, gate: Gate, idx: nat, acts: seq<Action>, t: State)
    requires Inv(env, s) && idx < |env.creds| && Closed(env, s, gate, env.creds[idx].username)
    requires HeldBefore(s, gate, idx) && idx !in s.calls && Runs(env, s, acts, t)
    ensures HeldBefore(t, gate, idx) && idx !in t.calls
    decreases acts
  {
    if acts == [] {
    } else {
      BarredStep(env, s, gate, idx, acts[0]);
      ClosedStep(env, s, gate, env.creds[idx].username, acts[0]);
      StepInv(env, s, acts[0]);
      BarredRuns(env, Apply(env, s, acts[0]), gate, idx, acts[1..], t);
    }
  }

  /** The candidate is still in the channel, or with a worker that has yet to pass the check. */
  ghost predicate Ahead(s: State, gate: Gate, idx: nat) {
    || s.next <= idx
    || exists w :: 0 <= w < |s.workers| && Holds(s.workers[w], idx) && Passed(s.workers[w]) <= Number(gate)
  }

  lemma AheadIsUntested(env: Env, s: State, gate: Gate, idx: nat)
    requires Reachable(env, s) && Ahead(s, gate, idx)
    ensures HeldBefore(s, gate, idx) && idx !in s.calls
  {
    ReachableInv(env, s);
    assert !PastCall(s, idx);
  }

  /** Once the reason is there, a candidate ahead of the check never passes it and is never tested,
      whatever happens next. */
  lemma ClosedGateHolds(env: Env, s: State, gate: Gate, idx: nat, acts: seq<Action>, t: State)
    requires Reachable(env, s) && Runs(env, s, acts, t)
    requires idx < |env.creds| && Closed(env, s, gate, env.creds[idx].username) && Ahead(s, gate, idx)
    ensures HeldBefore(t, gate, idx) && idx !in t.calls
  {
    ReachableInv(env, s);
    AheadIsUntested(env, s, gate, idx);
    BarredRuns(env, s, gate, idx, acts, t);
  }

  // ---------- Errors ----------

  /** A worker whose limiter or test returns an error. */
  predicate Errs(env: Env, s: State, w: nat, choice: Choice) {
    Enabled(env, s, Move(w, choice)) && (choice == LimiterError || choice == Reply(Failure))
  }

  predicate GaveUp(s: State, w: nat) {
    w < |s.workers| && s.workers[w] == Stopped(true) && s.failed
  }

  lemma GaveUpStep(env: Env, s: State, w: nat, a: Action)
    requires GaveUp(s, w) && Ownership(env, s) && Enabled(env, s, a)
    ensures GaveUp(Apply(env, s, a), w)
  {
    if a.Move? {
      var t := Apply(env, s, a);
      StepShape(env, s, a.w, a.choice);
      ShapeMoves(env, s, t, a.w, ShapeOf(env, s, a.w, a.choice));
    }
  }

  lemma ShapeMoves(env: Env, s: State, t: State, w: nat, shape: Shape)
    requires HasShape(env, s, t, w, shape)
    ensures Moved(s, t, w) && (s.failed ==> t.failed) && s.next <= t.next && !s.workers[w].Stopped?
    ensures Holding(t.workers[w]) ==>
              if s.workers[w].Receive? then t.workers[w].idx == s.next else t.workers[w].idx == s.workers[w].idx
    ensures forall i :: i in t.calls ==> i in s.calls || Holds(s.workers[w], i)
  {
  }

  lemma {:induction false} GaveUpRuns(env: Env, s: State, w: nat, acts: seq<Action>, t: State)
    requires Inv(env, s) && GaveUp(s, w) && Runs(env, s, acts, t)
    ensures GaveUp(t, w)
    decreases acts
  {
    if acts == [] {
    } else {
      GaveUpStep(env, s, w, acts[0]);
      StepInv(env, s, acts[0]);
      GaveUpRuns(env, Apply(env, s, acts[0]), w, acts[1..], t);
    }
  }

  /** An error of the limiter or of a test ends its worker and fails the run; a candidate whose limiter
      failed is never tested. */
  lemma ErrorsEndTheRun(env: Env, s: State, w: nat, choice: Choice, acts: seq<Action>, t: State)
    requires Reachable(env, s) && Errs(env, s, w, choice) && Runs(env, Apply(env, s, Move(w, choice)), acts, t)
    ensures GaveUp(t, w) && !Succeeded(t)
    ensures choice == LimiterError ==> s.workers[w].idx !in t.calls
  {
    var next := Apply(env, s, Move(w, choice));
    ReachableInv(env, s);
    StepInv(env, s, Move(w, choice));
    assert GaveUp(next, w);
    GaveUpRuns(env, next, w, acts, t);
    if choice == LimiterError {
      LimiterErrorBars(env, s, w, acts, t);
    }
  }

  /** Nobody holds the candidate any more, and nobody will. */
  ghost predicate Gone(s: State, idx: nat) {
    && idx < s.next && idx !in s.calls
    && forall w :: 0 <= w < |s.workers| ==> !Holds(s.workers[w], idx)
  }

  lemma GoneStep(env: Env, s: State, idx: nat, a: Action)
    requires Gone(s, idx) && Ownership(env, s) && Enabled(env, s, a)
    ensures Gone(Apply(env, s, a), idx)
  {
    if a.Move? {
      StepShape(env, s, a.w, a.choice);
      ShapeMoves(env, s, Apply(env, s, a), a.w, ShapeOf(env, s, a.w, a.choice));
    }
  }

  lemma {:induction false} GoneRuns(env: Env, s: State, idx: nat, acts: seq<Action>, t: State)
    requires Inv(env, s) && Gone(s, idx) && Runs(env, s, acts, t)
    ensures Gone(t, idx)
    decreases acts
  {
    if acts == [] {
    } else {
      GoneStep(env, s, idx, acts[0]);
      StepInv(env, s, acts[0]);
      GoneRuns(env, Apply(env, s, acts[0]), idx, acts[1..], t);
    }
  }

  lemma LimiterErrorBars(env: Env, s: State, w: nat, acts: seq<Action>, t: State)
    requires Reachable(env, s) && Errs(env, s, w, LimiterError)
    requires Runs(env, Apply(env, s, Move(w, LimiterError)), acts, t)
    ensures s.workers[w].Wait? && s.workers[w].idx !in t.calls
  {
    ReachableInv(env, s);
    var idx := s.workers[w].idx;
    StepInv(env, s, Move(w, LimiterError));
    assert !PastCall(s, idx);
    GoneRuns(env, Apply(env, s, Move(w, LimiterError)), idx, acts, t);
  }

  /** In this step a worker returns an error: its context is over, its limiter fails or its test does. */
  predicate ErrorStep(s: State, a: Action) {
    a.Move? && a.w < |s.workers|
    && ((s.workers[a.w].CheckContext? && s.cancelled) || a.choice == LimiterError || a.choice == Reply(Failure))
  }

  ghost predicate SomeError(env: Env, s: State, acts: seq<Action>)
    decreases acts
  {
    acts != [] && Enabled(env, s, acts[0])
    && (ErrorStep(s, acts[0]) || SomeError(env, Apply(env, s, acts[0]), acts[1..]))
  }

  lemma CheckFails(env: Env, s: State, w: nat, choice: Choice)
    requires Enabled(env, s, Move(w, choice)) && Holding(s.workers[w]) && Passed(s.workers[w]) <= 3
    ensures Apply(env, s, Move(w, choice)).failed <==> s.failed || ErrorStep(s, Move(w, choice))
  {
  }

  lemma WaitFails(env: Env, s: State, w: nat, choice: Choice)
    requires Enabled(env, s, Move(w, choice)) && 4 <= Passed(s.workers[w]) <= 6
    ensures Apply(env, s, Move(w, choice)).failed <==> s.failed || ErrorStep(s, Move(w, choice))
  {
  }

  lemma TestFails(env: Env, s: State, w: nat, choice: Choice)
    requires Enabled(env, s, Move(w, choice)) && (!Holding(s.workers[w]) || Passed(s.workers[w]) == 7)
    ensures Apply(env, s, Move(w, choice)).failed <==> s.failed || ErrorStep(s, Move(w, choice))
  {
  }

  lemma {:induction false} RunsFail(env: Env, s: State, acts: seq<Action>, t: State)
    requires Runs(env, s, acts, t)
    ensures t.failed <==> s.failed || SomeError(env, s, acts)
    decreases acts
  {
    if acts == [] {
    } else {
      var a := acts[0];
      if a.Move? {
        var pc := s.workers[a.w];
        if !Holding(pc) || Passed(pc) == 7 {
          TestFails(env, s, a.w, a.choice);
        } else if Passed(pc) <= 3 {
          CheckFails(env, s, a.w, a.choice);
        } else {
          WaitFails(env, s, a.w, a.choice);
        }
      }
      RunsFail(env, Apply(env, s, a), acts[1..], t);
    }
  }

  /** A run fails exactly when some worker saw its context over, or an error of the limiter or of a test:
      stopping early is no error. */
  lemma FailsIff(env: Env, acts: seq<Action>, t: State)
    requires Runs(env, Init(env), acts, t)
    ensures t.failed <==> SomeError(env, Init(env), acts)
  {
    RunsFail(env, Init(env), acts, t);
  }
}
