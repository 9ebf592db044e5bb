/** The mutex-guarded state of a brute-force worker pool (common/bruteforce/worker.go). */
module WorkerPools {
  import opened Sequences
  import opened Sorting
  import opened Credentials

  /** `maxAttempts` of zero or less means no budget. */
  datatype Config = Config(maxConcurrency: int, maxAttempts: int, stopAtFirst: bool)

  datatype Outcome = Valid | Invalid | Failure

  /** The fields every worker shares under the mutex. */
  datatype Shared = Shared(attempts: nat, budgetExhausted: bool, matched: seq<nat>)

  datatype PoolResult = PoolResult(validCreds: seq<Credential>, attempts: nat, budgetExhausted: bool)

  const START := Shared(0, false, [])

  function Min(a: int, b: int): int { if a < b then a else b }

  function Max(a: int, b: int): int { if a < b then b else a }

  /** How many workers testCredentials starts for `n` candidates. */
  function NumWorkers(cfg: Config, n: nat): (w: nat)
    ensures w <= n
    ensures w > 0 <==> n > 0
    ensures cfg.maxAttempts > 0 ==> w <= cfg.maxAttempts
    ensures n > 0 ==> w <= Max(1, cfg.maxConcurrency)
    ensures w == n || w == Max(1, cfg.maxConcurrency) || (cfg.maxAttempts > 0 && w == cfg.maxAttempts)
  {
    var w := Min(Max(1, cfg.maxConcurrency), n);
    if cfg.maxAttempts > 0 then Min(w, cfg.maxAttempts) else w
  }

  // ---------- The critical sections on values ----------

  predicate OverBudget(cfg: Config, p: Shared) {
    cfg.maxAttempts > 0 && p.attempts >= cfg.maxAttempts
  }

  function ClaimAttempt(cfg: Config, p: Shared): Shared {
    if OverBudget(cfg, p) then p.(budgetExhausted := true) else p.(attempts := p.attempts + 1)
  }

  function CheckBudget(cfg: Config, p: Shared): Shared {
    if OverBudget(cfg, p) then p.(budgetExhausted := true) else p
  }

  function RecordMatch(p: Shared, idx: nat): Shared {
    p.(matched := p.matched + [idx])
  }

  predicate Done(cfg: Config, p: Shared) {
    p.budgetExhausted || (cfg.stopAtFirst && |p.matched| > 0)
  }

  predicate UserDone(creds: seq<Credential>, matched: seq<nat>, user: string) {
    exists k :: 0 <= k < |matched| && matched[k] < |creds| && creds[matched[k]].username == user
  }

  // ---------- Sorting the matches ----------

  predicate StrictlyIncreasing(s: seq<nat>) {
    forall i, j :: 0 <= i < j < |s| ==> s[i] < s[j]
  }

  predicate Less(x: nat, y: nat) {
    x < y
  }

  function Sorted(s: seq<nat>): seq<nat> {
    Sort(s, Less)
  }

  /** Sorting distinct indices yields exactly those indices in strictly increasing order. */
  lemma SortedKeeps(s: seq<nat>)
    requires Distinct(s)
    ensures StrictlyIncreasing(Sorted(s))
    ensures forall y :: y in Sorted(s) <==> y in s
    ensures |Sorted(s)| == |s|
  {
    SortIsSorted(s, Less);
    assert multiset(Sorted(s)) == multiset(s);
    assert |multiset(Sorted(s))| == |Sorted(s)| && |multiset(s)| == |s|;
    forall y ensures y in Sorted(s) <==> y in s {
      assert y in multiset(Sorted(s)) <==> y in multiset(s);
    }
    assert forall i, j :: 0 <= i < j < |Sorted(s)| ==> Less(Sorted(s)[i], Sorted(s)[j]);
  }

  lemma SortedIdentity(s: seq<nat>)
    requires StrictlyIncreasing(s)
    ensures Sorted(s) == s
  {
    SortedKeeps(s);
    OrderedOnce(s, Sorted(s), Less);
  }

  function Pick(creds: seq<Credential>, indices: seq<nat>): (picked: seq<Credential>)
    requires forall k :: 0 <= k < |indices| ==> indices[k] < |creds|
    ensures |picked| == |indices|
    ensures forall k :: 0 <= k < |indices| ==> picked[k] == creds[indices[k]]
  {
    seq(|indices|, k requires 0 <= k < |indices| => creds[indices[k]])
  }

  function ResultOf(cfg: Config, creds: seq<Credential>, p: Shared): PoolResult
    requires forall k :: 0 <= k < |Sorted(p.matched)| ==> Sorted(p.matched)[k] < |creds|
  {
    PoolResult(Pick(creds, Sorted(p.matched)), p.attempts,
               p.budgetExhausted && !(cfg.stopAtFirst && |p.matched| > 0))
  }

  // ---------- One worker alone ----------

  /** What one worker without interference does from candidate `k` on; the flag reports an error. */
  function ScanFrom(cfg: Config, creds: seq<Credential>, oracle: Credential -> Outcome, k: nat, p: Shared)
      : (Shared, bool)
    requires k <= |creds|
    decreases |creds| - k
  {
    if k == |creds| || Done(cfg, p) then (p, false)
    else if UserDone(creds, p.matched, creds[k].username) then ScanFrom(cfg, creds, oracle, k + 1, p)
    else if OverBudget(cfg, p) then (CheckBudget(cfg, p), false)
    else AfterClaim(cfg, creds, oracle, k, ClaimAttempt(cfg, p))
  }

  function AfterClaim(cfg: Config, creds: seq<Credential>, oracle: Credential -> Outcome, k: nat, p: Shared)
      : (Shared, bool)
    requires k < |creds|
    decreases |creds| - k, 0
  {
    match oracle(creds[k])
    case Failure => (p, true)
    case Invalid => ScanFrom(cfg, creds, oracle, k + 1, p)
    case Valid => ScanFrom(cfg, creds, oracle, k + 1, RecordMatch(p, k))
  }

  // ---------- One worker among others ----------

  /** What happens around one received candidate: whether the context is over by then, whether the limiter
      fails, and what the other workers do to the shared state while this one waits for the limiter. */
  datatype Moment = Moment(cancelled: bool, limiterFails: bool, attempts: nat, exhausted: bool, matched: seq<nat>)

  predicate InRange(indices: seq<nat>, n: nat) {
    forall k :: 0 <= k < |indices| ==> indices[k] < n
  }

  function Joined(p: Shared, m: Moment): Shared {
    Shared(p.attempts + m.attempts, p.budgetExhausted || m.exhausted, p.matched + m.matched)
  }

  /** What a worker does that receives these candidates, from number `k` on; the flag reports an error. */
  function WorkFrom(cfg: Config, creds: seq<Credential>, oracle: Credential -> Outcome, received: seq<nat>,
                    moments: nat -> Moment, k: nat, p: Shared): (Shared, bool)
    requires k <= |received| && InRange(received, |creds|)
    decreases |received| - k, 1
  {
    if k == |received| then (p, false)
    else if moments(k).cancelled then (p, true)
    else if Done(cfg, p) then (p, false)
    else if UserDone(creds, p.matched, creds[received[k]].username) then
      WorkFrom(cfg, creds, oracle, received, moments, k + 1, p)
    else if OverBudget(cfg, p) then (CheckBudget(cfg, p), false)
    else if moments(k).limiterFails then (Joined(p, moments(k)), true)
    else WorkAfterWait(cfg, creds, oracle, received, moments, k, Joined(p, moments(k)))
  }

  function WorkAfterWait(cfg: Config, creds: seq<Credential>, oracle: Credential -> Outcome, received: seq<nat>,
                         moments: nat -> Moment, k: nat, p: Shared): (Shared, bool)
    requires k < |received| && InRange(received, |creds|)
    decreases |received| - k, 0
  {
    if Done(cfg, p) then (p, false)
    else if UserDone(creds, p.matched, creds[received[k]].username) then
      WorkFrom(cfg, creds, oracle, received, moments, k + 1, p)
    else if OverBudget(cfg, p) then (CheckBudget(cfg, p), false)
    else
      var claimed := ClaimAttempt(cfg, p);
      match oracle(creds[received[k]])
      case Failure => (claimed, true)
      case Invalid => WorkFrom(cfg, creds, oracle, received, moments, k + 1, claimed)
      case Valid => WorkFrom(cfg, creds, oracle, received, moments, k + 1, RecordMatch(claimed, received[k]))
  }

  // ---------- The class ----------

  class WorkerPool {
    const cfg: Config
    const creds: seq<Credential>
    var attempts: nat
    var budgetExhausted: bool
    var matched: seq<nat>

    function View(): Shared
      reads this
    {
      Shared(attempts, budgetExhausted, matched)
    }

    /** Matches are indices of candidates. */
    ghost predicate Ok()
      reads this
    {
      InRange(matched, |creds|)
    }

    constructor (cfg: Config, creds: seq<Credential>)
      ensures this.cfg == cfg && this.creds == creds && Ok() && View() == START
    {
      this.cfg := cfg;
      this.creds := creds;
      attempts := 0;
      budgetExhausted := false;
      matched := [];
    }

    method HasBudget() returns (ok: bool)
      modifies this`budgetExhausted
      ensures ok == !OverBudget(cfg, old(View()))
      ensures View() == CheckBudget(cfg, old(View()))
    {
      if cfg.maxAttempts > 0 && attempts >= cfg.maxAttempts {
        budgetExhausted := true;
        return false;
      }
      return true;
    }

    method TryClaimAttempt() returns (ok: bool)
      modifies this`budgetExhausted, this`attempts
      ensures ok == !OverBudget(cfg, old(View()))
      ensures View() == ClaimAttempt(cfg, old(View()))
    {
      if cfg.maxAttempts > 0 && attempts >= cfg.maxAttempts {
        budgetExhausted := true;
        return false;
      }
      attempts := attempts + 1;
      return true;
    }

    method AddMatch(idx: nat)
      requires Ok() && idx < |creds|
      modifies this`matched
      ensures Ok() && View() == RecordMatch(old(View()), idx)
    {
      matched := matched + [idx];
    }

    method IsDone() returns (done: bool)
      ensures done == Done(cfg, View())
    {
      if budgetExhausted {
        return true;
      }
      return cfg.stopAtFirst && |matched| > 0;
    }

    method IsUserDone(user: string) returns (done: bool)
      requires Ok()
      ensures done == UserDone(creds, matched, user)
    {
      for k := 0 to |matched|
        invariant forall j :: 0 <= j < k ==> creds[matched[j]].username != user
      {
        if creds[matched[k]].username == user {
          return true;
        }
      }
      return false;
    }

    /** The matches sorted in place, and the credentials they stand for. */
    method Result() returns (r: PoolResult)
      requires Ok() && Distinct(matched)
      modifies this`matched
      ensures Ok() && StrictlyIncreasing(matched) && Elements(matched) == Elements(old(matched))
      ensures matched == Sorted(old(matched))
      ensures forall k :: 0 <= k < |matched| ==> matched[k] < |creds|
      ensures r == ResultOf(cfg, creds, old(View()))
      ensures r.validCreds == Pick(creds, matched)
      ensures r.attempts == attempts
      ensures r.budgetExhausted == (budgetExhausted && !(cfg.stopAtFirst && |matched| > 0))
    {
      SortedKeeps(matched);
      assert forall y :: y in matched ==> y < |creds|;
      matched := Sorted(matched);
      assert forall k :: 0 <= k < |matched| ==> matched[k] in matched;
      var valid := [];
      for k := 0 to |matched|
        invariant |valid| == k
        invariant forall j :: 0 <= j < k ==> valid[j] == creds[matched[j]]
      {
        valid := valid + [creds[matched[k]]];
      }
      assert valid == Pick(creds, matched);
      var stoppedAtFirst := cfg.stopAtFirst && |matched| > 0;
      r := PoolResult(valid, attempts, budgetExhausted && !stoppedAtFirst);
    }

    /** `limiter.Wait`: other workers go on meanwhile. */
    method WaitForLimiter(m: Moment) returns (ok: bool)
      requires Ok() && InRange(m.matched, |creds|)
      modifies this
      ensures Ok() && ok == !m.limiterFails && View() == Joined(old(View()), m)
    {
      attempts := attempts + m.attempts;
      budgetExhausted := budgetExhausted || m.exhausted;
      matched := matched + m.matched;
      return !m.limiterFails;
    }

    /** The loop of a worker over the candidates it receives, whatever other workers do while it waits. */
    method RunWorker(oracle: Credential -> Outcome, received: seq<nat>, moments: nat -> Moment) returns (failed: bool)
      requires Ok() && InRange(received, |creds|)
      requires forall k :: 0 <= k < |received| ==> InRange(moments(k).matched, |creds|)
      modifies this
      ensures Ok()
      ensures (View(), failed) == WorkFrom(cfg, creds, oracle, received, moments, 0, old(View()))
    {
      ghost var was := View();
      var next := 0;
      while next < |received|
        invariant next <= |received| && Ok()
        invariant WorkFrom(cfg, creds, oracle, received, moments, next, View())
               == WorkFrom(cfg, creds, oracle, received, moments, 0, was)
      {
        var idx, moment := received[next], moments(next);
        next := next + 1;
        if moment.cancelled {
          return true;
        }
        var done := IsDone();
        if done {
          return false;
        }
        var cred := creds[idx];
        var userDone := IsUserDone(cred.username);
        if userDone {
          continue;
        }
        var ok := HasBudget();
        if !ok {
          return false;
        }
        ok := WaitForLimiter(moment);
        if !ok {
          return true;
        }
        done := IsDone();
        if done {
          return false;
        }
        userDone := IsUserDone(cred.username);
        if userDone {
          continue;
        }
        ok := TryClaimAttempt();
        if !ok {
          return false;
        }
        var outcome := oracle(cred);
        if outcome == Failure {
          return true;
        }
        if outcome == Valid {
          AddMatch(idx);
        }
      }
      return false;
    }
  }
}
