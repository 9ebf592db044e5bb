/** Every interleaving of the brute-force workers (common/bruteforce/worker.go): each channel
    receive, critical section, limiter return and credential test is one atomic step. */
module WorkerPoolProtocol {
  import opened Sequences
  import opened Credentials
  import opened WorkerPools

  /** `answers` is what the tested service may reply: several outcomes make it nondeterministic. */
  datatype Env = Env(cfg: Config, creds: seq<Credential>, answers: Credential -> set<Outcome>)

  /** Where a worker stands; the argument is the candidate it has received. */
  datatype Pc =
    | Receive
    | CheckContext(idx: nat)
    | FirstDone(idx: nat)
    | FirstUserDone(idx: nat)
    | Budget(idx: nat)
    | Wait(idx: nat)
    | SecondDone(idx: nat)
    | SecondUserDone(idx: nat)
    | Claim(idx: nat)
    | Call(idx: nat)
    | Testing(idx: nat)
    | Record(idx: nat)
    | Stopped(failed: bool)

  /** What became of a candidate nobody holds any more. */
  datatype Ending = Tested(outcome: Outcome) | Skipped | Dropped

  /** The channel is pre-filled and closed, so `next` says what is left in it; `failed` is the error
      kept by the group. The fields from `holder` on are history: who received each candidate, what
      became of it, the claimed and the tested candidates in order, which worker recorded each match,
      and which worker started a test after a match was recorded. */
  datatype State = State(
    next: nat,
    shared: Shared,
    workers: seq<Pc>,
    cancelled: bool,
    failed: bool,
    holder: map<nat, nat>,
    ended: map<nat, Ending>,
    claims: seq<nat>,
    calls: seq<nat>,
    recorders: seq<nat>,
    late: seq<nat>)

  datatype Choice = Go | LimiterError | Reply(outcome: Outcome)

  datatype Action = Cancel | Move(w: nat, choice: Choice)

  function Init(env: Env): State {
    State(0, START, seq(NumWorkers(env.cfg, |env.creds|), _ => Receive), false, false, map[], map[], [], [], [], [])
  }

  predicate Enabled(env: Env, s: State, a: Action) {
    match a
    case Cancel => !s.cancelled
    case Move(w, choice) =>
      w < |s.workers| &&
      match s.workers[w]
      case Stopped(_) => false
      case Wait(_) => choice == Go || choice == LimiterError
      case Testing(idx) => idx < |env.creds| && choice.Reply? && choice.outcome in env.answers(env.creds[idx])
      case _ => choice == Go
  }

  function To(s: State, w: nat, pc: Pc): State
    requires w < |s.workers|
  {
    s.(workers := s.workers[w := pc])
  }

  function End(s: State, idx: nat, ending: Ending): State {
    s.(ended := s.ended[idx := ending])
  }

  function Quit(s: State, w: nat, idx: nat, ending: Ending, failed: bool): State
    requires w < |s.workers|
  {
    End(To(s, w, Stopped(failed)), idx, ending).(failed := s.failed || failed)
  }

  function UserOf(env: Env, idx: nat): string {
    if idx < |env.creds| then env.creds[idx].username else ""
  }

  function Apply(env: Env, s: State, a: Action): State
    requires Enabled(env, s, a)
  {
    match a
    case Cancel => s.(cancelled := true)
    case Move(w, choice) =>
      var p := s.shared;
      match s.workers[w]
      case Receive =>
        if s.next < |env.creds| then
          To(s.(next := s.next + 1, holder := s.holder[s.next := w]), w, CheckContext(s.next))
        else To(s, w, Stopped(false))
      case CheckContext(idx) =>
        if s.cancelled then Quit(s, w, idx, Dropped, true) else To(s, w, FirstDone(idx))
      case FirstDone(idx) =>
        if Done(env.cfg, p) then Quit(s, w, idx, Dropped, false) else To(s, w, FirstUserDone(idx))
      case FirstUserDone(idx) =>
        if UserDone(env.creds, p.matched, UserOf(env, idx)) then End(To(s, w, Receive), idx, Skipped)
        else To(s, w, Budget(idx))
      case Budget(idx) =>
        var s' := s.(shared := CheckBudget(env.cfg, p));
        if OverBudget(env.cfg, p) then Quit(s', w, idx, Dropped, false) else To(s', w, Wait(idx))
      case Wait(idx) =>
        if choice == LimiterError then Quit(s, w, idx, Dropped, true) else To(s, w, SecondDone(idx))
      case SecondDone(idx) =>
        if Done(env.cfg, p) then Quit(s, w, idx, Dropped, false) else To(s, w, SecondUserDone(idx))
      case SecondUserDone(idx) =>
        if UserDone(env.creds, p.matched, UserOf(env, idx)) then End(To(s, w, Receive), idx, Skipped)
        else To(s, w, Claim(idx))
      case Claim(idx) =>
        var s' := s.(shared := ClaimAttempt(env.cfg, p));
        if OverBudget(env.cfg, p) then Quit(s', w, idx, Dropped, false)
        else To(s', w, Call(idx)).(claims := s.claims + [idx])
      case Call(idx) =>
        To(s, w, Testing(idx)).(calls := s.calls + [idx], late := if |p.matched| > 0 then s.late + [w] else s.late)
      case Testing(idx) =>
        if choice.outcome == Valid then To(s, w, Record(idx))
        else if choice.outcome == Failure then Quit(s, w, idx, Tested(Failure), true)
        else End(To(s, w, Receive), idx, Tested(Invalid))
      case Record(idx) =>
        End(To(s, w, Receive), idx, Tested(Valid)).(shared := RecordMatch(p, idx), recorders := s.recorders + [w])
  }

  ghost predicate Runs(env: Env, s: State, acts: seq<Action>, t: State)
    decreases acts
  {
    if acts == [] then s == t
    else Enabled(env, s, acts[0]) && Runs(env, Apply(env, s, acts[0]), acts[1..], t)
  }

  ghost predicate Reachable(env: Env, t: State) {
    exists acts :: Runs(env, Init(env), acts, t)
  }

  // ---------- The invariant ----------

  predicate Holding(pc: Pc) {
    !pc.Receive? && !pc.Stopped?
  }

  predicate Holds(pc: Pc, idx: nat) {
    Holding(pc) && pc.idx == idx
  }

  predicate Claimed(pc: Pc) {
    pc.Call? || pc.Testing? || pc.Record?
  }

  predicate Started(pc: Pc) {
    pc.Testing? || pc.Record?
  }

  /** Each received candidate is in the hands of the worker that received it, or has ended. */
  ghost predicate Ownership(env: Env, s: State) {
    && s.next <= |env.creds|
    && (forall i: nat :: i in s.holder <==> i < s.next)
    && (forall i :: i in s.holder ==> s.holder[i] < |s.workers|)
    && (forall i :: i in s.ended ==> i < s.next)
    && (forall w :: 0 <= w < |s.workers| && Holding(s.workers[w]) ==>
          var i := s.workers[w].idx; i < s.next && i !in s.ended && i in s.holder && s.holder[i] == w)
    && (forall i :: i in s.holder ==> i in s.ended || Holds(s.workers[s.holder[i]], i))
  }

  /** Candidate `i` is past the claim: tested, or held by a worker beyond that point. */
  predicate PastClaim(s: State, i: nat) {
    || (i in s.ended && s.ended[i].Tested?)
    || (i in s.holder && s.holder[i] < |s.workers| && Holds(s.workers[s.holder[i]], i)
        && Claimed(s.workers[s.holder[i]]))
  }

  predicate PastCall(s: State, i: nat) {
    || (i in s.ended && s.ended[i].Tested?)
    || (i in s.holder && s.holder[i] < |s.workers| && Holds(s.workers[s.holder[i]], i)
        && Started(s.workers[s.holder[i]]))
  }

  /** The claim and call histories hold each candidate once, exactly those past that point. */
  ghost predicate Accounting(s: State) {
    && Distinct(s.claims) && |s.claims| == s.shared.attempts
    && Distinct(s.calls)
    && (forall i: nat :: i in s.claims <==> PastClaim(s, i))
    && (forall i: nat :: i in s.calls <==> PastCall(s, i))
  }

  /** The matches are the candidates found valid; outcomes come from the service. */
  ghost predicate Findings(env: Env, s: State) {
    && Distinct(s.shared.matched)
    && (forall i :: i in s.shared.matched <==> i in s.ended && s.ended[i] == Tested(Valid))
    && (forall i :: i in s.ended && s.ended[i].Tested? && i < |env.creds| ==>
          s.ended[i].outcome in env.answers(env.creds[i]))
    && (forall w :: 0 <= w < |s.workers| && s.workers[w].Record? && s.workers[w].idx < |env.creds|
          ==> Valid in env.answers(env.creds[s.workers[w].idx]))
  }

  /** Why candidates are skipped or dropped, and why workers stop. */
  ghost predicate Reasons(env: Env, s: State) {
    && (env.cfg.maxAttempts > 0 ==> s.shared.attempts <= env.cfg.maxAttempts)
    && (s.shared.budgetExhausted ==> OverBudget(env.cfg, s.shared) && exists i :: i in s.ended && s.ended[i] == Dropped)
    && (forall i :: i in s.ended && s.ended[i] == Skipped ==> UserDone(env.creds, s.shared.matched, UserOf(env, i)))
    && (forall i :: i in s.ended && s.ended[i] == Dropped ==> Done(env.cfg, s.shared) || s.failed)
    && (forall i :: i in s.ended && s.ended[i] == Tested(Failure) ==> s.failed)
    && (forall w :: 0 <= w < |s.workers| && s.workers[w] == Stopped(true) ==> s.failed)
    && (forall w :: 0 <= w < |s.workers| && s.workers[w] == Stopped(false) ==>
          s.next == |env.creds| || Done(env.cfg, s.shared))
  }

  /** Before the first stop checks of its current candidate are over. */
  predicate BeforeChecks(pc: Pc) {
    pc.Receive? || pc.CheckContext? || pc.FirstDone? || pc.Stopped?
  }

  predicate BeforeUserCheck(pc: Pc) {
    BeforeChecks(pc) || pc.FirstUserDone?
  }

  /** Who recorded which match: no worker records the same user twice. */
  ghost predicate Recorders(env: Env, s: State) {
    && |s.recorders| == |s.shared.matched|
    && (forall k :: 0 <= k < |s.recorders| ==> s.recorders[k] < |s.workers|)
    && (forall k :: 0 <= k < |s.recorders| ==>
          var pc := s.workers[s.recorders[k]];
          BeforeUserCheck(pc) || UserOf(env, pc.idx) != UserOf(env, s.shared.matched[k]))
    && (forall j, k :: 0 <= j < k < |s.recorders| && s.recorders[j] == s.recorders[k]
          ==> UserOf(env, s.shared.matched[j]) != UserOf(env, s.shared.matched[k]))
  }

  /** With stop-at-first: who recorded a match or tested late never gets past the checks again. */
  ghost predicate Overshoot(s: State) {
    && |s.recorders| == |s.shared.matched|
    && Distinct(s.recorders) && Distinct(s.late)
    && (forall k :: 0 <= k < |s.recorders| ==> s.recorders[k] < |s.workers| && BeforeChecks(s.workers[s.recorders[k]]))
    && (|s.late| > 0 ==> |s.recorders| > 0)
    && (forall k :: 0 <= k < |s.late| ==>
          && s.late[k] < |s.workers| && s.late[k] != s.recorders[0]
          && (BeforeChecks(s.workers[s.late[k]]) || Started(s.workers[s.late[k]])))
  }

  ghost predicate Inv(env: Env, s: State) {
    && |s.workers| == NumWorkers(env.cfg, |env.creds|)
    && Ownership(env, s)
    && Accounting(s)
    && Findings(env, s)
    && Reasons(env, s)
    && Recorders(env, s)
    && (env.cfg.stopAtFirst ==> Overshoot(s))
  }

  lemma InitInv(env: Env)
    ensures Inv(env, Init(env))
  {
  }

  // ---------- The shapes a step can have ----------

  /** How far a worker is from returning. */
  function Rank(pc: Pc): nat {
    match pc
    case Stopped(_) => 0
    case Receive => 1
    case Record(_) => 2
    case Testing(_) => 3
    case Call(_) => 4
    case Claim(_) => 5
    case SecondUserDone(_) => 6
    case SecondDone(_) => 7
    case Wait(_) => 8
    case Budget(_) => 9
    case FirstUserDone(_) => 10
    case FirstDone(_) => 11
    case CheckContext(_) => 12
  }

  /** Only worker `w` moved. */
  predicate Moved(s: State, t: State, w: nat) {
    && w < |s.workers| == |t.workers|
    && t.workers == s.workers[w := t.workers[w]]
    && t.cancelled == s.cancelled
  }

  predicate SameRecords(s: State, t: State) {
    s.recorders == t.recorders && s.shared.matched == t.shared.matched
  }

  predicate SameHistory(s: State, t: State) {
    s.claims == t.claims && s.calls == t.calls && s.late == t.late && s.shared.attempts == t.shared.attempts
  }

  /** A candidate is received, or the channel is empty and the worker leaves. */
  predicate TakeShape(env: Env, s: State, t: State, w: nat) {
    && Moved(s, t, w) && s.workers[w].Receive?
    && t.ended == s.ended && t.shared == s.shared && t.failed == s.failed
    && SameHistory(s, t) && SameRecords(s, t)
    && (if s.next < |env.creds| then
          t.workers[w] == CheckContext(s.next) && t.next == s.next + 1 && t.holder == s.holder[s.next := w]
        else
          t.workers[w] == Stopped(false) && t.next == s.next && t.holder == s.holder)
  }

  /** The worker keeps its candidate and goes on to the next check. */
  predicate AdvanceShape(env: Env, s: State, t: State, w: nat) {
    && Moved(s, t, w) && Holding(s.workers[w]) && Holding(t.workers[w])
    && t.workers[w].idx == s.workers[w].idx && Rank(t.workers[w]) < Rank(s.workers[w])
    && t.next == s.next && t.holder == s.holder && t.ended == s.ended && t.failed == s.failed
    && t.shared.budgetExhausted == s.shared.budgetExhausted && SameRecords(s, t)
    && (t.workers[w].Record? ==> s.workers[w].Testing?)
  }

  /** The three ways of advancing, by what they add to the history. */
  predicate ClaimShape(env: Env, s: State, t: State, w: nat) {
    && AdvanceShape(env, s, t, w) && s.workers[w].Claim? && t.workers[w].Call?
    && !OverBudget(env.cfg, s.shared) && t.shared.attempts == s.shared.attempts + 1
    && t.claims == s.claims + [s.workers[w].idx] && t.calls == s.calls && t.late == s.late
  }

  predicate CallShape(env: Env, s: State, t: State, w: nat) {
    && AdvanceShape(env, s, t, w) && s.workers[w].Call? && t.workers[w].Testing?
    && t.shared.attempts == s.shared.attempts
    && t.claims == s.claims && t.calls == s.calls + [s.workers[w].idx]
    && t.late == if |s.shared.matched| > 0 then s.late + [w] else s.late
  }

  predicate CheckShape(env: Env, s: State, t: State, w: nat) {
    && AdvanceShape(env, s, t, w) && SameHistory(s, t)
    && Claimed(t.workers[w]) == Claimed(s.workers[w])
    && Started(t.workers[w]) == Started(s.workers[w])
    && (t.workers[w].Record? ==> s.workers[w].idx < |env.creds| && Valid in env.answers(env.creds[s.workers[w].idx]))
    && (!BeforeChecks(t.workers[w]) ==> !BeforeChecks(s.workers[w]) || !Done(env.cfg, s.shared))
    && (!BeforeUserCheck(t.workers[w]) ==>
          !BeforeUserCheck(s.workers[w]) || !UserDone(env.creds, s.shared.matched, UserOf(env, s.workers[w].idx)))
  }

  /** The worker lets go of its candidate. */
  predicate FinishShape(env: Env, s: State, t: State, w: nat) {
    && Moved(s, t, w) && Holding(s.workers[w]) && BeforeChecks(t.workers[w]) && !Holding(t.workers[w])
    && s.workers[w].idx in t.ended
    && t.ended == s.ended[s.workers[w].idx := t.ended[s.workers[w].idx]]
    && t.next == s.next && t.holder == s.holder && SameHistory(s, t)
    && (s.failed ==> t.failed)
  }

  predicate DropShape(env: Env, s: State, t: State, w: nat) {
    && FinishShape(env, s, t, w) && !Claimed(s.workers[w])
    && t.ended[s.workers[w].idx] == Dropped && t.workers[w].Stopped? && SameRecords(s, t)
    && (if t.workers[w].failed then t.failed else Done(env.cfg, t.shared))
    && (t.shared.budgetExhausted <==> s.shared.budgetExhausted || t.shared != s.shared)
    && (t.shared != s.shared ==> OverBudget(env.cfg, s.shared))
  }

  predicate SkipShape(env: Env, s: State, t: State, w: nat) {
    && FinishShape(env, s, t, w) && !Claimed(s.workers[w]) && t.shared == s.shared && SameRecords(s, t)
    && t.ended[s.workers[w].idx] == Skipped && t.workers[w].Receive?
    && UserDone(env.creds, s.shared.matched, UserOf(env, s.workers[w].idx))
  }

  predicate TestedShape(env: Env, s: State, t: State, w: nat) {
    && FinishShape(env, s, t, w) && Started(s.workers[w])
    && s.workers[w].idx < |env.creds|
    && t.ended[s.workers[w].idx].Tested?
    && t.shared.budgetExhausted == s.shared.budgetExhausted
    && var outcome := t.ended[s.workers[w].idx].outcome;
    && (s.workers[w].Record? <==> outcome == Valid)
    && (s.workers[w].Testing? ==> outcome in env.answers(env.creds[s.workers[w].idx]))
    && (outcome == Failure ==> t.workers[w] == Stopped(true) && t.failed)
    && (outcome != Failure ==> t.workers[w] == Receive)
    && (outcome == Valid ==> t.shared == RecordMatch(s.shared, s.workers[w].idx) && t.recorders == s.recorders + [w])
    && (outcome != Valid ==> t.shared == s.shared && SameRecords(s, t))
  }

  datatype Shape = TakesOne | Checks | Claims | Calls | Drops | Skips | Tests

  predicate HasShape(env: Env, s: State, t: State, w: nat, shape: Shape) {
    match shape
    case TakesOne => TakeShape(env, s, t, w)
    case Checks => CheckShape(env, s, t, w)
    case Claims => ClaimShape(env, s, t, w)
    case Calls => CallShape(env, s, t, w)
    case Drops => DropShape(env, s, t, w)
    case Skips => SkipShape(env, s, t, w)
    case Tests => TestedShape(env, s, t, w)
  }

  /** Which shape a step has: read off the branch the worker takes. */
  function ShapeOf(env: Env, s: State, w: nat, choice: Choice): Shape
    requires Enabled(env, s, Move(w, choice))
  {
    match s.workers[w]
    case Receive => TakesOne
    case CheckContext(_) => if s.cancelled then Drops else Checks
    case FirstDone(_) => if Done(env.cfg, s.shared) then Drops else Checks
    case FirstUserDone(idx) => if UserDone(env.creds, s.shared.matched, UserOf(env, idx)) then Skips else Checks
    case Budget(_) => if OverBudget(env.cfg, s.shared) then Drops else Checks
    case Wait(_) => if choice == LimiterError then Drops else Checks
    case SecondDone(_) => if Done(env.cfg, s.shared) then Drops else Checks
    case SecondUserDone(idx) => if UserDone(env.creds, s.shared.matched, UserOf(env, idx)) then Skips else Checks
    case Claim(_) => if OverBudget(env.cfg, s.shared) then Drops else Claims
    case Call(_) => Calls
    case Testing(_) => if choice.outcome == Valid then Checks else Tests
    case Record(_) => Tests
  }

  lemma ContextShape(env: Env, s: State, w: nat, choice: Choice)
    requires Enabled(env, s, Move(w, choice))
    requires var pc := s.workers[w]; pc.CheckContext? || pc.FirstDone?
    ensures HasShape(env, s, Apply(env, s, Move(w, choice)), w, ShapeOf(env, s, w, choice))
  {
  }

  lemma FirstUserShape(env: Env, s: State, w: nat, choice: Choice)
    requires Enabled(env, s, Move(w, choice))
    requires s.workers[w].FirstUserDone?
    ensures HasShape(env, s, Apply(env, s, Move(w, choice)), w, ShapeOf(env, s, w, choice))
  {
  }

  lemma BudgetShape(env: Env, s: State, w: nat, choice: Choice)
    requires Enabled(env, s, Move(w, choice))
    requires s.workers[w].Budget?
    ensures HasShape(env, s, Apply(env, s, Move(w, choice)), w, ShapeOf(env, s, w, choice))
  {
  }

  lemma WaitShape(env: Env, s: State, w: nat, choice: Choice)
    requires Enabled(env, s, Move(w, choice))
    requires var pc := s.workers[w]; pc.Wait? || pc.SecondDone?
    ensures HasShape(env, s, Apply(env, s, Move(w, choice)), w, ShapeOf(env, s, w, choice))
  {
  }

  lemma SecondUserShape(env: Env, s: State, w: nat, choice: Choice)
    requires Enabled(env, s, Move(w, choice))
    requires s.workers[w].SecondUserDone?
    ensures HasShape(env, s, Apply(env, s, Move(w, choice)), w, ShapeOf(env, s, w, choice))
  {
  }

  lemma ClaimingShape(env: Env, s: State, w: nat, choice: Choice)
    requires Enabled(env, s, Move(w, choice))
    requires s.workers[w].Claim?
    ensures HasShape(env, s, Apply(env, s, Move(w, choice)), w, ShapeOf(env, s, w, choice))
  {
  }

  lemma CallingShape(env: Env, s: State, w: nat, choice: Choice)
    requires Enabled(env, s, Move(w, choice))
    requires var pc := s.workers[w]; pc.Receive? || pc.Call?
    requires Holding(s.workers[w]) ==> s.workers[w].idx < |env.creds|
    ensures HasShape(env, s, Apply(env, s, Move(w, choice)), w, ShapeOf(env, s, w, choice))
  {
  }

  lemma FoundShape(env: Env, s: State, w: nat, choice: Choice)
    requires Enabled(env, s, Move(w, choice))
    requires s.workers[w].Testing? && choice.outcome == Valid
    requires s.workers[w].idx < |env.creds|
    ensures CheckShape(env, s, Apply(env, s, Move(w, choice)), w)
  {
  }

  lemma RejectedShape(env: Env, s: State, w: nat, choice: Choice)
    requires Enabled(env, s, Move(w, choice))
    requires s.workers[w].Testing? && choice.outcome != Valid
    requires s.workers[w].idx < |env.creds|
    ensures TestedShape(env, s, Apply(env, s, Move(w, choice)), w)
  {
  }

  lemma RecordShape(env: Env, s: State, w: nat, choice: Choice)
    requires Enabled(env, s, Move(w, choice))
    requires s.workers[w].Record?
    requires s.workers[w].idx < |env.creds|
    ensures HasShape(env, s, Apply(env, s, Move(w, choice)), w, ShapeOf(env, s, w, choice))
  {
  }

  /** Every step of a worker has the shape its branch says. */
  lemma StepShape(env: Env, s: State, w: nat, choice: Choice)
    requires Enabled(env, s, Move(w, choice)) && Ownership(env, s)
    ensures HasShape(env, s, Apply(env, s, Move(w, choice)), w, ShapeOf(env, s, w, choice))
  {
    match s.workers[w]
    case CheckContext(_) => ContextShape(env, s, w, choice);
    case FirstDone(_) => ContextShape(env, s, w, choice);
    case FirstUserDone(_) => FirstUserShape(env, s, w, choice);
    case Budget(_) => BudgetShape(env, s, w, choice);
    case Wait(_) => WaitShape(env, s, w, choice);
    case SecondDone(_) => WaitShape(env, s, w, choice);
    case SecondUserDone(_) => SecondUserShape(env, s, w, choice);
    case Claim(_) => ClaimingShape(env, s, w, choice);
    case Receive => CallingShape(env, s, w, choice);
    case Call(_) => CallingShape(env, s, w, choice);
    case Testing(_) =>
      if choice.outcome == Valid {
        FoundShape(env, s, w, choice);
      } else {
        RejectedShape(env, s, w, choice);
      }
    case Record(_) => RecordShape(env, s, w, choice);
  }

  // ---------- Each part of the invariant survives every shape ----------

  lemma OwnershipKept(env: Env, s: State, t: State, w: nat, shape: Shape)
    requires Ownership(env, s) && HasShape(env, s, t, w, shape)
    ensures Ownership(env, t)
  {
  }

  lemma AccountingKept(env: Env, s: State, t: State, w: nat, shape: Shape)
    requires Ownership(env, s) && Accounting(s) && HasShape(env, s, t, w, shape)
    ensures Accounting(t)
  {
    match shape
    case Claims => ClaimAccounting(env, s, t, w);
    case Calls => CallAccounting(env, s, t, w);
    case _ => assert forall i: nat :: PastClaim(s, i) == PastClaim(t, i) && PastCall(s, i) == PastCall(t, i);
  }

  lemma ClaimAccounting(env: Env, s: State, t: State, w: nat)
    requires Ownership(env, s) && Accounting(s) && ClaimShape(env, s, t, w)
    ensures Accounting(t)
  {
    var idx := s.workers[w].idx;
    assert !PastClaim(s, idx) && PastClaim(t, idx);
    assert forall i: nat :: i != idx ==> PastClaim(s, i) == PastClaim(t, i);
    assert forall i: nat :: PastCall(s, i) == PastCall(t, i);
  }

  lemma CallAccounting(env: Env, s: State, t: State, w: nat)
    requires Ownership(env, s) && Accounting(s) && CallShape(env, s, t, w)
    ensures Accounting(t)
  {
    var idx := s.workers[w].idx;
    assert !PastCall(s, idx) && PastCall(t, idx);
    assert forall i: nat :: i != idx ==> PastCall(s, i) == PastCall(t, i);
    assert forall i: nat :: PastClaim(s, i) == PastClaim(t, i);
  }

  lemma FindingsKept(env: Env, s: State, t: State, w: nat, shape: Shape)
    requires Ownership(env, s) && Findings(env, s) && HasShape(env, s, t, w, shape)
    ensures Findings(env, t)
  {
  }

  lemma UserDoneGrows(creds: seq<Credential>, matched: seq<nat>, idx: nat, user: string)
    requires UserDone(creds, matched, user)
    ensures UserDone(creds, matched + [idx], user)
  {
    var k :| 0 <= k < |matched| && matched[k] < |creds| && creds[matched[k]].username == user;
    assert (matched + [idx])[k] == matched[k];
  }

  lemma ReasonsKept(env: Env, s: State, t: State, w: nat, shape: Shape)
    requires Ownership(env, s) && Reasons(env, s) && HasShape(env, s, t, w, shape)
    ensures Reasons(env, t)
  {
    if s.shared.budgetExhausted {
      var i :| i in s.ended && s.ended[i] == Dropped;
      assert i in t.ended && t.ended[i] == Dropped;
    }
    if shape.Tests? && t.ended[s.workers[w].idx].outcome == Valid {
      SkipsStayJustified(env, s, t, w);
    }
  }

  lemma SkipsStayJustified(env: Env, s: State, t: State, w: nat)
    requires Ownership(env, s) && Reasons(env, s) && TestedShape(env, s, t, w)
    requires t.ended[s.workers[w].idx].outcome == Valid
    ensures forall i :: i in t.ended && t.ended[i] == Skipped ==> UserDone(env.creds, t.shared.matched, UserOf(env, i))
  {
    forall i | i in t.ended && t.ended[i] == Skipped
      ensures UserDone(env.creds, t.shared.matched, UserOf(env, i))
    {
      UserDoneGrows(env.creds, s.shared.matched, s.workers[w].idx, UserOf(env, i));
    }
  }

  lemma RecordersKept(env: Env, s: State, t: State, w: nat, shape: Shape)
    requires Ownership(env, s) && Findings(env, s) && Recorders(env, s) && HasShape(env, s, t, w, shape)
    ensures Recorders(env, t)
  {
    match shape
    case Checks => CheckRecorders(env, s, t, w);
    case Tests => TestRecorders(env, s, t, w);
    case _ =>
  }

  lemma CheckRecorders(env: Env, s: State, t: State, w: nat)
    requires Ownership(env, s) && Findings(env, s) && Recorders(env, s) && CheckShape(env, s, t, w)
    ensures Recorders(env, t)
  {
    if !BeforeUserCheck(t.workers[w]) && BeforeUserCheck(s.workers[w]) {
      forall k | 0 <= k < |s.recorders| && s.recorders[k] == w
        ensures UserOf(env, s.workers[w].idx) != UserOf(env, s.shared.matched[k])
      {
        var i := s.shared.matched[k];
        assert i in s.shared.matched && i in s.ended && i < |env.creds|;
      }
    }
  }

  lemma TestRecorders(env: Env, s: State, t: State, w: nat)
    requires Ownership(env, s) && Findings(env, s) && Recorders(env, s) && TestedShape(env, s, t, w)
    ensures Recorders(env, t)
  {
  }

  lemma OvershootKept(env: Env, s: State, t: State, w: nat, shape: Shape)
    requires env.cfg.stopAtFirst && Overshoot(s) && HasShape(env, s, t, w, shape)
    ensures Overshoot(t)
  {
    match shape
    case Checks => CheckOvershoot(env, s, t, w);
    case Calls => CallOvershoot(env, s, t, w);
    case Tests => TestOvershoot(env, s, t, w);
    case _ =>
  }

  lemma CheckOvershoot(env: Env, s: State, t: State, w: nat)
    requires env.cfg.stopAtFirst && Overshoot(s) && CheckShape(env, s, t, w)
    ensures Overshoot(t)
  {
  }

  lemma CallOvershoot(env: Env, s: State, t: State, w: nat)
    requires env.cfg.stopAtFirst && Overshoot(s) && CallShape(env, s, t, w)
    ensures Overshoot(t)
  {
  }

  lemma TestOvershoot(env: Env, s: State, t: State, w: nat)
    requires env.cfg.stopAtFirst && Overshoot(s) && TestedShape(env, s, t, w)
    ensures Overshoot(t)
  {
  }

  lemma StepInv(env: Env, s: State, a: Action)
    requires Inv(env, s) && Enabled(env, s, a)
    ensures Inv(env, Apply(env, s, a))
  {
    match a
    case Cancel => CancelInv(env, s);
    case Move(w, choice) =>
      var t, shape := Apply(env, s, a), ShapeOf(env, s, w, choice);
      StepShape(env, s, w, choice);
      OwnershipKept(env, s, t, w, shape);
      AccountingKept(env, s, t, w, shape);
      FindingsKept(env, s, t, w, shape);
      ReasonsKept(env, s, t, w, shape);
      RecordersKept(env, s, t, w, shape);
      if env.cfg.stopAtFirst {
        OvershootKept(env, s, t, w, shape);
      }
  }

  lemma CancelInv(env: Env, s: State)
    requires Inv(env, s)
    ensures Inv(env, s.(cancelled := true))
  {
    var t := s.(cancelled := true);
    assert forall i: nat :: PastClaim(s, i) == PastClaim(t, i) && PastCall(s, i) == PastCall(t, i);
  }

  lemma {:induction false} RunsInv(env: Env, s: State, acts: seq<Action>, t: State)
    requires Inv(env, s) && Runs(env, s, acts, t)
    ensures Inv(env, t)
    decreases acts
  {
    if acts == [] {
    } else {
      StepInv(env, s, acts[0]);
      RunsInv(env, Apply(env, s, acts[0]), acts[1..], t);
    }
  }

  /** The invariant holds in every state any interleaving can reach. */
  lemma ReachableInv(env: Env, t: State)
    requires Reachable(env, t)
    ensures Inv(env, t)
  {
    var acts :| Runs(env, Init(env), acts, t);
    InitInv(env);
    RunsInv(env, Init(env), acts, t);
  }
}
