/** How often one link can be queued: the bound on duplicates is attained. */
module CrawlDuplicates {
  import opened ByteStrings
  import opened UrlNormalization
  import opened CrawlRuns
  import opened CrawlProtocol
  import opened CrawlSteps
  import opened CrawlTheorems

  // ---------- Many pages with the same link ----------

  const LINK: Bytes := [98]

  function AllLink(): Bytes -> seq<Bytes> {
    _ => [LINK]
  }

  function Pages(n: nat): seq<Page> {
    seq(n, i requires 0 <= i < n => Page(Url(i), 0))
  }

  /** `n` seeds that all link to one more page, each of which takes `cost` requests. */
  function SameLink(maxConcurrency: int, n: nat, maxRequests: int, cost: nat): Env {
    Env(1, maxConcurrency, maxRequests, 1, _ => InScope, _ => false, Urls(n), _ => cost)
  }

  /** So many pages can be crawled at once. */
  predicate Fits(maxConcurrency: int, n: nat) {
    maxConcurrency < 0 || n <= maxConcurrency
  }

  /** So many requests are granted to a new crawler. */
  predicate Allows(maxRequests: int, n: nat) {
    n <= maxRequests <= MAX_INT32 || maxRequests == MAX_INT32
  }

  lemma AllowsNext(maxRequests: int, n: nat, k: nat)
    requires Allows(maxRequests, n) && k < n
    ensures Grants(maxRequests, ToInt32(k)) && Raised(ToInt32(k)) == ToInt32(k + 1)
  {
    RaisedTwice(k);
  }

  lemma {:induction false} SeedAll(c: int, n: nat, m: int, cost: nat, k: nat) returns (t: State)
    requires k <= n
    ensures SmoothlyReached(SameLink(c, n, m, cost), AllLink(), 0, t)
    ensures t == State(Seeding(Feed(Urls(n)[k..], 0, Examine)), NotStarted, [], k, Fresh(Urls(n)[..k]), Pages(n)[..k],
                       [], 0, false, Urls(n)[..k], [], [])
  {
    var env := SameLink(c, n, m, cost);
    if k == 0 {
      t := Init(env, 0);
      SmoothStart(env, AllLink(), 0);
      assert Urls(n)[0..] == Urls(n);
    } else {
      t := SeedAll(c, n, m, cost, k - 1);
      UrlsDiffer(n, k - 1);
      assert Urls(n)[k - 1..][0] == Url(k - 1) && Urls(n)[k - 1..][1..] == Urls(n)[k..];
      assert Urls(n)[..k] == Urls(n)[..k - 1] + [Url(k - 1)];
      assert Pages(n)[..k] == Pages(n)[..k - 1] + [Page(Url(k - 1), 0)];
      assert Fresh(Urls(n)[..k]) == Fresh(Urls(n)[..k - 1]) + {Url(k - 1)};
      t := SeedOne(env, AllLink(), 0, t);
    }
  }

  function Started(n: nat): seq<Proc> {
    seq(n, i requires 0 <= i < n => Fetching(Page(Url(i), 0)))
  }

  lemma {:induction false} ActiveBound(procs: seq<Proc>)
    ensures Sum(Active, procs) <= |procs|
  {
    if procs == [] {
    } else {
      ActiveBound(procs[1..]);
    }
  }

  lemma {:induction false} StartAll(c: int, n: nat, m: int, cost: nat, k: nat) returns (t: State)
    requires k <= n && Fits(c, n)
    ensures SmoothlyReached(SameLink(c, n, m, cost), AllLink(), 0, t)
    ensures t == State(Ranging, Polling, Started(k), n, Fresh(Urls(n)), Pages(n)[k..], [], 0, false, Urls(n), [], [])
  {
    var env := SameLink(c, n, m, cost);
    if k == 0 {
      t := SeedAll(c, n, m, cost, n);
      assert Urls(n)[n..] == [] && Urls(n)[..n] == Urls(n) && Pages(n)[..n] == Pages(n) == Pages(n)[0..];
      t := SmoothStep(env, AllLink(), 0, t, Seed);
    } else {
      t := StartAll(c, n, m, cost, k - 1);
      ActiveBound(t.procs);
      assert Pages(n)[k - 1..][0] == Page(Url(k - 1), 0) && Pages(n)[k - 1..][1..] == Pages(n)[k..];
      assert Started(k) == Started(k - 1) + [Fetching(Page(Url(k - 1), 0))];
      t := StartOne(env, AllLink(), 0, t);
    }
  }

  /** The first `k` pages have found the link unvisited. */
  function Found(n: nat, k: nat): seq<Proc>
    requires k <= n
  {
    seq(n, i requires 0 <= i < n => if i < k then Feeding(Feed([LINK], 1, Unvisited)) else Fetching(Page(Url(i), 0)))
  }

  lemma LinkIsNew(n: nat)
    ensures NormalizeURL(LINK) == LINK && LINK !in Fresh(Urls(n)) && LINK !in Urls(n)
  {
    PlainKey(LINK);
    forall u | u in Urls(n) ensures u != LINK {
      var i :| 0 <= i < n && Urls(n)[i] == u;
      assert Url(i)[0] == 97;
    }
  }

  lemma {:induction false} FindAll(c: int, n: nat, m: int, cost: nat, k: nat) returns (t: State)
    requires k <= n && Fits(c, n) && Allows(m, n)
    ensures SmoothlyReached(SameLink(c, n, m, cost), AllLink(), 0, t)
    ensures t == State(Ranging, Polling, Found(n, k), n, Fresh(Urls(n)), [], [], ToInt32(k), false, Urls(n),
                       Urls(n)[..k], Pages(n)[..k])
  {
    var env := SameLink(c, n, m, cost);
    if k == 0 {
      t := StartAll(c, n, m, cost, n);
      assert Pages(n)[n..] == [] && Started(n) == Found(n, 0);
    } else {
      t := FindAll(c, n, m, cost, k - 1);
      LinkIsNew(n);
      AllowsNext(m, n, k - 1);
      assert Urls(n)[..k] == Urls(n)[..k - 1] + [Url(k - 1)];
      assert Pages(n)[..k] == Pages(n)[..k - 1] + [Page(Url(k - 1), 0)];
      assert Found(n, k) == Found(n, k - 1)[k - 1 := Feeding(Feed([LINK], 1, Unvisited))];
      t := FindOne(env, AllLink(), 0, t, k - 1, LINK);
    }
  }

  function Copies(k: nat): seq<Bytes> {
    seq(k, _ => LINK)
  }

  lemma {:induction false} QueueAll(c: int, n: nat, m: int, cost: nat, k: nat) returns (t: State)
    requires k <= n && Fits(c, n) && Allows(m, n)
    ensures SmoothlyReached(SameLink(c, n, m, cost), AllLink(), 0, t)
    ensures t.queued == Urls(n) + Copies(k) && t.main == Ranging && !t.failed && t.watcher == Polling
    ensures |t.procs| == n && forall i :: 0 <= i < n ==>
              t.procs[i] == if i < k then Feeding(Feed([], 1, Examine)) else Feeding(Feed([LINK], 1, Unvisited))
  {
    if k == 0 {
      t := FindAll(c, n, m, cost, n);
      assert Urls(n) + Copies(0) == Urls(n);
    } else {
      t := QueueAll(c, n, m, cost, k - 1);
      LinkIsNew(n);
      assert Urls(n) + Copies(k) == Urls(n) + Copies(k - 1) + [LINK];
      assert [LINK][1..] == [];
      t := QueueOne(SameLink(c, n, m, cost), AllLink(), 0, t, k - 1);
    }
  }

  lemma {:induction false} CountCopies(queued: seq<Bytes>, k: nat)
    requires LINK !in queued
    ensures Count(queued + Copies(k), LINK) == k
  {
    if k == 0 {
      assert queued + Copies(0) == queued;
      CountPositive(queued, LINK);
    } else {
      CountCopies(queued, k - 1);
      assert queued + Copies(k) == queued + Copies(k - 1) + [LINK];
      assert (queued + Copies(k))[..|queued| + k - 1] == queued + Copies(k - 1);
    }
  }

  /** Any number of pages that can be crawled at once can all queue the same link. */
  lemma CopiesRun(c: int, n: nat, m: int, cost: nat) returns (t: State)
    requires Fits(c, n) && Allows(m, n)
    ensures ReachableFrom(SameLink(c, n, m, cost), 0, t) && Count(t.queued, LINK) == n
    ensures t.main == Ranging && !t.failed && t.watcher == Polling
    ensures forall i :: 0 <= i < |t.procs| ==> t.procs[i] == Feeding(Feed([], 1, Examine))
  {
    t := QueueAll(c, n, m, cost, n);
    SmoothlyIsReachable(SameLink(c, n, m, cost), AllLink(), 0, t);
    LinkIsNew(n);
    CountCopies(Urls(n), n);
  }

  ghost predicate SomeKeyQueued(maxConcurrency: int, n: nat) {
    exists env: Env, s: State, key: Bytes ::
      env.maxConcurrency == maxConcurrency && Width32(env, 0) && ReachableFrom(env, 0, s) && Count(s.queued, key) == n
  }

  predicate WithinSlots(maxConcurrency: int, n: nat) {
    maxConcurrency < 0 || n <= (if maxConcurrency == 0 then 1 else maxConcurrency)
  }

  lemma QueueTimes(c: int, n: nat)
    requires WithinSlots(c, n)
    ensures SomeKeyQueued(c, n)
  {
    var m := if n <= MAX_INT32 then n else MAX_INT32;
    var env := SameLink(c, n, m, 1);
    assert Width32(env, 0);
    if Fits(c, n) {
      var t := CopiesRun(c, n, m, 1);
      assert env.maxConcurrency == c && Count(t.queued, LINK) == n;
    } else {
      var t := SeedAll(c, 1, m, 1, 1);
      SmoothlyIsReachable(env, AllLink(), 0, t);
      assert t.queued[..0] == [];
      assert env.maxConcurrency == c && Count(t.queued, Url(0)) == n;
    }
  }

  /** A key can be queued `n` times in some crawl with 32-bit limits exactly when the concurrency, or one
      if it is zero, is not exceeded; without a limit it can be queued any number of times. */
  lemma QueuedTimesIff(maxConcurrency: int, n: nat)
    ensures SomeKeyQueued(maxConcurrency, n) <==> WithinSlots(maxConcurrency, n)
  {
    if WithinSlots(maxConcurrency, n) {
      QueueTimes(maxConcurrency, n);
    }
    if env: Env, s: State, key: Bytes :|
        env.maxConcurrency == maxConcurrency && Width32(env, 0) && ReachableFrom(env, 0, s) && Count(s.queued, key) == n
        && maxConcurrency >= 0 {
      assert Reachable(env, s);
      QueuedAtMost(env, s, key);
    }
  }

  /** Each key is queued at most once in every run of every crawl with a given concurrency exactly
      when that concurrency is zero or one. */
  lemma QueuedOnceIff(maxConcurrency: int)
    ensures (forall env: Env, s: State, key: Bytes | env.maxConcurrency == maxConcurrency && Reachable(env, s) ::
              Count(s.queued, key) <= 1)
       <==> 0 <= maxConcurrency <= 1
  {
    if 0 <= maxConcurrency <= 1 {
      forall env: Env, s: State, key: Bytes | env.maxConcurrency == maxConcurrency && Reachable(env, s)
        ensures Count(s.queued, key) <= 1
      {
        QueuedAtMost(env, s, key);
      }
    } else {
      var t := CopiesRun(maxConcurrency, 2, 2, 1);
      var env := SameLink(maxConcurrency, 2, 2, 1);
      assert env.maxConcurrency == maxConcurrency && Reachable(env, t);
    }
  }
}
