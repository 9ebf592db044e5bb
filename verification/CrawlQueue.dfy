/** How many pages the queue holds. */
module CrawlQueue {
  import opened CrawlRuns
  import opened CrawlProtocol
  import opened CrawlSteps
  import opened CrawlTheorems
  import opened CrawlDuplicates

  lemma {:induction false} RunsQueue(env: Env, s: State, acts: seq<Action>, t: State)
    requires CloseInv(env, s) && |s.queue| <= 500 && Runs(env, s, acts, t)
    ensures |t.queue| <= 500
    decreases acts
  {
    if acts == [] {
    } else {
      CloseStep(env, s, acts[0]);
      if s.workCount == 0 {
        ZeroMeansIdle(s);
      }
      RunsQueue(env, Apply(env, s, acts[0]), acts[1..], t);
    }
  }

  /** Before any page is received, `k` senders put their pages into the queue. */
  lemma {:induction false} SendAll(env: Env, s: State, k: nat) returns (t: State)
    requires ReachableFrom(env, 0, s) && s.queue == [] && k <= |s.sending| && k <= 500
    ensures ReachableFrom(env, 0, t) && |t.queue| == k && |t.sending| == |s.sending| - k
  {
    t := s;
    if k > 0 {
      t := SendAll(env, s, k - 1);
      t := ReachStep(env, 0, t, Send(0));
    }
  }

  ghost predicate CanHold(n: nat) {
    exists env: Env, s: State :: ReachableFrom(env, 0, s) && |s.queue| == n
  }

  /** A queue of `n` pages is reached in some crawl exactly when `n` is at most 500: beyond, senders wait. */
  lemma QueueHoldsIff(n: nat)
    ensures CanHold(n) <==> n <= 500
  {
    if n <= 500 {
      var env := SameLink(1, n, 1, 1);
      var s := SeedAll(1, n, 1, 1, n);
      SmoothlyIsReachable(env, AllLink(), 0, s);
      s := SendAll(env, s, n);
    }
    if env: Env, s: State :| ReachableFrom(env, 0, s) && |s.queue| == n {
      var acts :| Runs(env, Init(env, 0), acts, s);
      RunsQueue(env, Init(env, 0), acts, s);
    }
  }
}
