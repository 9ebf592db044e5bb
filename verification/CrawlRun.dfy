/** The state of one crawl (common/clients/httpcrawler/crawlrun.go) and the checks before a page is
    queued (common/clients/httpcrawler/httpcrawler.go). */
module CrawlRuns {
  import opened ByteStrings
  import opened UrlNormalization

  const MAX_INT32 := 0x7fff_ffff
  const MIN_INT32 := -0x8000_0000

  datatype Page = Page(url: Bytes, depth: int)

  datatype Scope = InScope | OutOfScope | ScopeError

  /** `maxLinks` bounds how many links one page yields; a negative concurrency is unlimited and zero
      lets no page be crawled. `cost` is how many requests the client makes when asked for a URL: one
      more than the redirects it follows, or none if it gives up before sending. */
  datatype Env = Env(
    maxDepth: int,
    maxConcurrency: int,
    maxRequests: int,
    maxLinks: nat,
    scope: Bytes -> Scope,
    excluded: Bytes -> bool,
    seeds: seq<Bytes>,
    cost: Bytes -> nat)

  /** A number cut to 32 bits. */
  function ToInt32(x: int): (r: int)
    ensures MIN_INT32 <= x <= MAX_INT32 ==> r == x
    ensures MIN_INT32 <= r <= MAX_INT32
  {
    (x + 0x8000_0000) % 0x1_0000_0000 - 0x8000_0000
  }

  /** It is the number of that width that differs by a multiple of 2^32. */
  lemma ToInt32Wraps(x: int)
    ensures (x - ToInt32(x)) % 0x1_0000_0000 == 0
  {
    var q := (x + 0x8000_0000) / 0x1_0000_0000;
    assert x - ToInt32(x) == q * 0x1_0000_0000;
  }

  /** `page.Depth + 1` in 32 bits. */
  function NextDepth(depth: int): int {
    ToInt32(depth + 1)
  }

  function AtLeastZero(x: int): nat {
    if x < 0 then 0 else x
  }

  /** Whether the counter of requests grants one more, and what it is then: the sum is taken in 32 bits
      before it is compared. */
  predicate Grants(maxRequests: int, sent: int) {
    ToInt32(sent + 1) <= maxRequests
  }

  function Raised(sent: int): int {
    ToInt32(sent + 1)
  }

  /** A value the counter can have: it starts at zero and is raised only when it grants. */
  predicate CounterValue(maxRequests: int, sent: int) {
    && MIN_INT32 <= sent <= MAX_INT32
    && (maxRequests < MAX_INT32 ==> 0 <= sent <= AtLeastZero(maxRequests))
  }

  /** The limits are 32-bit and `sent` is a value of the counter. */
  predicate Width32(env: Env, sent: int) {
    && MIN_INT32 <= env.maxDepth <= MAX_INT32 && MIN_INT32 <= env.maxRequests <= MAX_INT32
    && CounterValue(env.maxRequests, sent)
  }

  lemma CounterStep(env: Env, sent: int)
    requires Width32(env, sent) && Grants(env.maxRequests, sent)
    ensures Width32(env, Raised(sent)) && (env.maxRequests < MAX_INT32 ==> Raised(sent) == sent + 1)
  {
    assert sent < MAX_INT32 ==> ToInt32(sent + 1) == sent + 1;
  }

  /** The counter keeps to the limit, and a raised counter is one more, exactly when the limit is below
      the largest int32: above it the counter wraps and never refuses. */
  lemma CounterKeepsLimitIff(maxRequests: int)
    requires MIN_INT32 <= maxRequests <= MAX_INT32
    ensures CounterValue(maxRequests, 0)
    ensures forall sent :: CounterValue(maxRequests, sent) && Grants(maxRequests, sent) ==>
              CounterValue(maxRequests, Raised(sent))
    ensures (forall sent :: CounterValue(maxRequests, sent) && Grants(maxRequests, sent) ==> Raised(sent) == sent + 1)
       <==> maxRequests < MAX_INT32
    ensures (exists sent :: CounterValue(maxRequests, sent) && !Grants(maxRequests, sent)) <==> maxRequests < MAX_INT32
  {
    if maxRequests == MAX_INT32 {
      assert CounterValue(maxRequests, MAX_INT32) && Grants(maxRequests, MAX_INT32);
      assert Raised(MAX_INT32) == MIN_INT32;
    } else {
      assert CounterValue(maxRequests, AtLeastZero(maxRequests)) && !Grants(maxRequests, AtLeastZero(maxRequests));
    }
  }

  /** The checks of queueForCrawl that look at nothing shared. */
  predicate Eligible(env: Env, url: Bytes, depth: int) {
    depth <= env.maxDepth && env.scope(url) == InScope && !env.excluded(url)
  }

  predicate ScopeFails(env: Env, url: Bytes, depth: int) {
    depth <= env.maxDepth && env.scope(url) == ScopeError
  }

  class CrawlRun {
    var workCount: int
    var visited: set<Bytes>
    /** Pages in goroutines that are about to send them on the queue. */
    var sending: seq<Page>

    constructor ()
      ensures workCount == 0 && visited == {} && sending == []
    {
      workCount := 0;
      visited := {};
      sending := [];
    }

    method QueuePage(url: Bytes, depth: int)
      modifies this`workCount, this`sending
      ensures workCount == old(workCount) + 1
      ensures sending == old(sending) + [Page(url, depth)]
    {
      workCount := workCount + 1;
      sending := sending + [Page(url, depth)];
    }

    method PageDone()
      modifies this`workCount
      ensures workCount == old(workCount) - 1
    {
      workCount := workCount - 1;
    }

    method AlreadyVisited(url: Bytes) returns (seen: bool)
      ensures seen <==> NormalizeURL(url) in visited
    {
      var key := NormalizeURL(url);
      return key in visited;
    }

    method AddToVisited(url: Bytes)
      modifies this`visited
      ensures visited == old(visited) + {NormalizeURL(url)}
    {
      var key := NormalizeURL(url);
      visited := visited + {key};
    }

    method CountVisited() returns (n: int)
      ensures n == ToInt32(|visited|)
    {
      return ToInt32(|visited|);
    }

    /** One call without interference from another goroutine: a page is queued exactly when it is no
        deeper than the maximum, in scope, not excluded and new, and then its key is visited; nothing
        else changes. */
    method QueueForCrawl(env: Env, url: Bytes, depth: int) returns (failed: bool)
      modifies this
      ensures failed <==> depth <= env.maxDepth && env.scope(url) == ScopeError
      ensures var added := depth <= env.maxDepth && env.scope(url) == InScope && !env.excluded(url)
                           && NormalizeURL(url) !in old(visited);
              && visited == old(visited) + (if added then {NormalizeURL(url)} else {})
              && workCount == old(workCount) + (if added then 1 else 0)
              && sending == old(sending) + (if added then [Page(url, depth)] else [])
    {
      if depth > env.maxDepth {
        return false;
      }
      var decision := env.scope(url);
      if decision == ScopeError {
        return true;
      }
      if decision == OutOfScope {
        return false;
      }
      if env.excluded(url) {
        return false;
      }
      var seen := AlreadyVisited(url);
      if seen {
        return false;
      }
      AddToVisited(url);
      QueuePage(url, depth);
      return false;
    }
  }

  class SimpleCrawler {
    const maxRequests: int
    var sentRequests: int

    constructor (maxRequests: int)
      ensures this.maxRequests == maxRequests && sentRequests == 0
    {
      this.maxRequests := maxRequests;
      sentRequests := 0;
    }

    method CheckAndIncreaseRequestCount() returns (ok: bool)
      modifies this`sentRequests
      ensures ok <==> Grants(maxRequests, old(sentRequests))
      ensures sentRequests == if ok then Raised(old(sentRequests)) else old(sentRequests)
    {
      var newcount := ToInt32(sentRequests + 1);
      if newcount > maxRequests {
        return false;
      }
      sentRequests := ToInt32(sentRequests + 1);
      return true;
    }
  }
}
