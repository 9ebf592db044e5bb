/** A chain of pages, and what happens when both 32-bit limits are the largest int32. */
module CrawlChains {
  import opened ByteStrings
  import opened UrlNormalization
  import opened CrawlRuns
  import opened CrawlProtocol
  import opened CrawlSteps
  import opened CrawlTermination

  /** Every page links to the next one; the depth is not limited. */
  function Chain(maxRequests: int, cost: nat): Env {
    Env(MAX_INT32, 1, maxRequests, 1, _ => InScope, _ => false, [Url(0)], _ => cost)
  }

  function ToNext(): Bytes -> seq<Bytes> {
    url => [Url(|url|)]
  }

  function ChainPages(n: nat): seq<Page> {
    seq(n, i requires 0 <= i < n => Page(Url(i), ToInt32(i)))
  }

  function AllGone(n: nat): seq<Proc> {
    seq(n, _ => Gone)
  }

  predicate Reaches(maxRequests: int, n: nat) {
    MIN_INT32 <= maxRequests <= MAX_INT32 && (maxRequests == MAX_INT32 || n <= maxRequests)
  }

  /** The first `n` pages were crawled one after the other, the next one is about to be sent. */
  function AfterPages(n: nat): State {
    State(Ranging, Polling, AllGone(n), 1, Fresh(Urls(n + 1)), [Page(Url(n), ToInt32(n))], [], ToInt32(n), false,
          Urls(n + 1), Urls(n), ChainPages(n))
  }

  lemma {:induction false} ChainRun(m: int, cost: nat, n: nat)
    requires Reaches(m, n)
    ensures SmoothlyReached(Chain(m, cost), ToNext(), 0, AfterPages(n))
  {
    if n == 0 {
      ChainSeed(m, cost);
    } else {
      ChainRun(m, cost, n - 1);
      ChainStep(m, cost, n - 1);
    }
  }

  lemma ChainSeed(m: int, cost: nat)
    ensures SmoothlyReached(Chain(m, cost), ToNext(), 0, AfterPages(0))
  {
    var env := Chain(m, cost);
    SmoothStart(env, ToNext(), 0);
    UrlsDiffer(1, 0);
    var t := SeedOne(env, ToNext(), 0, Init(env, 0));
    assert [Url(0)][1..] == [] && Urls(1) == [Url(0)] && Fresh([Url(0)]) == {Url(0)};
    t := SmoothStep(env, ToNext(), 0, t, Seed);
    assert t == AfterPages(0);
  }

  lemma ChainGrows(n: nat)
    ensures Urls(n + 1) == Urls(n) + [Url(n)]
    ensures ChainPages(n + 1) == ChainPages(n) + [Page(Url(n), ToInt32(n))]
    ensures AllGone(n + 1) == AllGone(n) + [Gone]
    ensures Fresh(Urls(n + 1)) == Fresh(Urls(n)) + {Url(n)}
  {
  }

  lemma NextIsNew(m: int, cost: nat, n: nat)
    requires Reaches(m, n + 1)
    ensures var env, s := Chain(m, cost), AfterPages(n);
            && Quiet(env, s) && Grants(m, s.sent) && Raised(s.sent) == ToInt32(n + 1)
            && NextDepth(ToInt32(n)) == ToInt32(n + 1) && NormalizeURL(Url(n + 1)) == Url(n + 1)
            && IsNew(env, s, Url(n + 1), ToInt32(n + 1))
  {
    RaisedTwice(n);
    UrlsDiffer(n + 2, n + 1);
    assert Urls(n + 2)[..n + 1] == Urls(n + 1);
  }

  lemma NextState(m: int, cost: nat, n: nat)
    requires Reaches(m, n + 1)
    ensures PageVisited(Chain(m, cost), AfterPages(n), 0, Url(n + 1)) == AfterPages(n + 1)
  {
    NextIsNew(m, cost, n);
    ChainGrows(n);
    ChainGrows(n + 1);
    assert PageVisited(Chain(m, cost), AfterPages(n), 0, Url(n + 1)).sending == AfterPages(n + 1).sending;
  }

  lemma ChainStep(m: int, cost: nat, n: nat)
    requires Reaches(m, n + 1) && SmoothlyReached(Chain(m, cost), ToNext(), 0, AfterPages(n))
    ensures SmoothlyReached(Chain(m, cost), ToNext(), 0, AfterPages(n + 1))
  {
    NextIsNew(m, cost, n);
    NextState(m, cost, n);
    var t := VisitOne(Chain(m, cost), ToNext(), 0, AfterPages(n), 0, Url(n + 1));
  }

  // ---------- Depth ----------

  ghost predicate SomeDepthNegative(maxDepth: int, maxRequests: int) {
    exists env: Env, s: State, page: Page ::
      env.maxDepth == maxDepth && env.maxRequests == maxRequests && Width32(env, 0)
      && ReachableFrom(env, 0, s) && page in s.sending && page.depth < 0
  }

  /** The 32-bit depth wraps in some run, and a page is queued at a negative depth, exactly when the
      maximum depth and the maximum number of requests are both the largest int32. */
  lemma DepthWrapsIff(maxDepth: int, maxRequests: int)
    requires MIN_INT32 <= maxDepth <= MAX_INT32 && MIN_INT32 <= maxRequests <= MAX_INT32
    ensures SomeDepthNegative(maxDepth, maxRequests) <==> maxDepth == MAX_INT32 && maxRequests == MAX_INT32
  {
    if maxDepth == MAX_INT32 && maxRequests == MAX_INT32 {
      var env, s := Chain(MAX_INT32, 1), AfterPages(MAX_INT32 + 1);
      ChainRun(MAX_INT32, 1, MAX_INT32 + 1);
      SmoothlyIsReachable(env, ToNext(), 0, s);
      assert s.sending[0] in s.sending && s.sending[0].depth == MIN_INT32;
      assert env.maxDepth == maxDepth && env.maxRequests == maxRequests && Width32(env, 0);
    } else if env: Env, s: State, page: Page :|
        env.maxDepth == maxDepth && env.maxRequests == maxRequests && Width32(env, 0)
        && ReachableFrom(env, 0, s) && page in s.sending && page.depth < 0 {
      var acts :| Runs(env, Init(env, 0), acts, s);
      Terminates(env, 0, acts, s);
    }
  }

  // ---------- Length of runs ----------

  lemma {:induction false} QueuedPerStep(env: Env, s: State, acts: seq<Action>, t: State)
    requires Runs(env, s, acts, t)
    ensures |t.queued| <= |s.queued| + |acts|
    decreases acts
  {
    if acts == [] {
    } else {
      QueuedPerStep(env, Apply(env, s, acts[0]), acts[1..], t);
    }
  }

  ghost predicate NoLonger(env: Env, bound: nat) {
    forall acts, t | Runs(env, Init(env, 0), acts, t) :: |acts| <= bound
  }

  /** The runs of every crawl with these limits are bounded exactly when one of the limits is below the
      largest int32. */
  lemma RunsBoundedIff(maxDepth: int, maxRequests: int)
    requires MIN_INT32 <= maxDepth <= MAX_INT32 && MIN_INT32 <= maxRequests <= MAX_INT32
    ensures (forall env: Env | env.maxDepth == maxDepth && env.maxRequests == maxRequests ::
              exists bound :: NoLonger(env, bound))
       <==> !(maxDepth == MAX_INT32 && maxRequests == MAX_INT32)
  {
    if maxDepth == MAX_INT32 && maxRequests == MAX_INT32 {
      var env := Chain(MAX_INT32, 1);
      assert env.maxDepth == maxDepth && env.maxRequests == maxRequests;
      forall bound ensures !NoLonger(env, bound) {
        ChainRun(MAX_INT32, 1, bound);
        SmoothlyIsReachable(env, ToNext(), 0, AfterPages(bound));
        var acts :| Runs(env, Init(env, 0), acts, AfterPages(bound));
        QueuedPerStep(env, Init(env, 0), acts, AfterPages(bound));
      }
    } else {
      forall env: Env | env.maxDepth == maxDepth && env.maxRequests == maxRequests
        ensures exists bound :: NoLonger(env, bound)
      {
        forall acts, t | Runs(env, Init(env, 0), acts, t)
          ensures |acts| <= 8 + Times(|env.seeds|, LinkCost(env, 0))
        {
          Terminates(env, 0, acts, t);
        }
        assert NoLonger(env, 8 + Times(|env.seeds|, LinkCost(env, 0)));
      }
    }
  }

  // ---------- The limit on requests ----------

  /** How many requests the client made for these URLs. */
  function Requests(env: Env, fetched: seq<Bytes>): nat {
    if fetched == [] then 0
    else Requests(env, fetched[..|fetched| - 1]) + env.cost(fetched[|fetched| - 1])
  }

  ghost predicate CostsIn(env: Env, costs: set<nat>) {
    forall url :: env.cost(url) in costs
  }

  lemma {:induction false} RequestsAtMost(env: Env, fetched: seq<Bytes>, most: nat)
    requires most <= 1 && forall url :: env.cost(url) <= most
    ensures Requests(env, fetched) <= if most == 0 then 0 else |fetched|
  {
    if fetched == [] {
    } else {
      RequestsAtMost(env, fetched[..|fetched| - 1], most);
    }
  }

  lemma {:induction false} RequestsAtLeast(env: Env, fetched: seq<Bytes>)
    requires forall url :: env.cost(url) >= 1
    ensures Requests(env, fetched) >= |fetched|
    ensures fetched != [] && (forall url :: env.cost(url) >= 2) ==> Requests(env, fetched) > |fetched|
  {
    if fetched == [] {
    } else {
      RequestsAtLeast(env, fetched[..|fetched| - 1]);
    }
  }

  /** The requests stay within the limit in all crawls of a new crawler. */
  ghost predicate LimitHolds(maxRequests: int, costs: set<nat>) {
    forall env: Env, s: State |
      env.maxRequests == maxRequests && CostsIn(env, costs) && Width32(env, 0) && ReachableFrom(env, 0, s) ::
      Requests(env, s.fetched) <= AtLeastZero(maxRequests)
  }

  lemma LimitBroken(m: int, cost: nat, n: nat)
    requires Reaches(m, n) && cost >= 1 && m > 0 && (n > m || (n == m && cost >= 2))
    ensures forall costs: set<nat> | cost in costs :: !LimitHolds(m, costs)
  {
    var env, s := Chain(m, cost), AfterPages(n);
    ChainRun(m, cost, n);
    SmoothlyIsReachable(env, ToNext(), 0, s);
    RequestsAtLeast(env, s.fetched);
    forall costs: set<nat> | cost in costs ensures !LimitHolds(m, costs) {
      assert env.maxRequests == m && CostsIn(env, costs) && Width32(env, 0) && ReachableFrom(env, 0, s);
    }
  }

  lemma LimitKept(env: Env, s: State, costs: set<nat>)
    requires CostsIn(env, costs) && Width32(env, 0) && ReachableFrom(env, 0, s)
    requires costs <= {0} || env.maxRequests <= 0 || (env.maxRequests < MAX_INT32 && costs <= {0, 1})
    ensures Requests(env, s.fetched) <= AtLeastZero(env.maxRequests)
  {
    if costs <= {0} {
      RequestsAtMost(env, s.fetched, 0);
    } else {
      var acts :| Runs(env, Init(env, 0), acts, s);
      Terminates(env, 0, acts, s);
      if costs <= {0, 1} {
        RequestsAtMost(env, s.fetched, 1);
      }
    }
  }

  /** `max_requests` is documented as a hard limit on the requests made. With client costs out of a given
      set it is one exactly when pages cost none, nothing is granted, or it is below the largest int32
      and no redirect is followed. */
  lemma LimitHoldsIff(maxRequests: int, costs: set<nat>)
    requires MIN_INT32 <= maxRequests <= MAX_INT32
    ensures LimitHolds(maxRequests, costs)
       <==> costs <= {0} || maxRequests <= 0 || (maxRequests < MAX_INT32 && costs <= {0, 1})
  {
    if costs <= {0} || maxRequests <= 0 || (maxRequests < MAX_INT32 && costs <= {0, 1}) {
      forall env: Env, s: State |
        env.maxRequests == maxRequests && CostsIn(env, costs) && Width32(env, 0) && ReachableFrom(env, 0, s)
        ensures Requests(env, s.fetched) <= AtLeastZero(maxRequests)
      {
        LimitKept(env, s, costs);
      }
    } else if maxRequests == MAX_INT32 {
      var cost :| cost in costs && cost != 0;
      LimitBroken(maxRequests, cost, MAX_INT32 + 1);
    } else {
      var cost :| cost in costs && cost != 0 && cost != 1;
      LimitBroken(maxRequests, cost, maxRequests);
    }
  }
}
