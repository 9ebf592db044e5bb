/** Which pages a crawl can queue when the links of a page are given: `site` yields the links of each
    URL. */
module CrawlReach {
  import opened ByteStrings
  import opened UrlNormalization
  import opened CrawlRuns
  import opened CrawlProtocol
  import opened CrawlTermination

  /** A page that answers with links answers with those of the site. */
  predicate ServedBy(site: Bytes -> seq<Bytes>, s: State, a: Action) {
    a.Proceed? && a.choice.Links? && a.i < |s.procs| && s.procs[a.i].Requesting? ==>
      a.choice.links == site(s.procs[a.i].page.url)
  }

  ghost predicate RunsOn(env: Env, site: Bytes -> seq<Bytes>, s: State, acts: seq<Action>, t: State)
    decreases acts
  {
    if acts == [] then s == t
    else
      && Enabled(env, s, acts[0]) && ServedBy(site, s, acts[0])
      && RunsOn(env, site, Apply(env, s, acts[0]), acts[1..], t)
  }

  /** A seed, or a link of an eligible page one level up. */
  ghost predicate Linked(env: Env, site: Bytes -> seq<Bytes>, url: Bytes, depth: nat)
    decreases depth, 0
  {
    if depth == 0 then url in env.seeds
    else exists up :: ChainTo(env, site, up, depth - 1) && url in site(up)
  }

  /** A chain of `depth` links leads from a seed to this URL, and every page on it is eligible at its
      depth; so the chain is no longer than the maximum depth. */
  ghost predicate ChainTo(env: Env, site: Bytes -> seq<Bytes>, url: Bytes, depth: nat)
    decreases depth, 1
  {
    Eligible(env, url, depth) && Linked(env, site, url, depth)
  }

  ghost predicate PageReached(env: Env, site: Bytes -> seq<Bytes>, page: Page) {
    page.depth >= 0 && ChainTo(env, site, page.url, page.depth)
  }

  ghost predicate FeedReached(env: Env, site: Bytes -> seq<Bytes>, feed: Feed) {
    && feed.depth >= 0 && WellFormedFeed(feed)
    && (forall url :: url in feed.todo ==> Linked(env, site, url, feed.depth))
    && (!feed.stage.Examine? ==> Eligible(env, feed.todo[0], feed.depth))
  }

  ghost predicate ProcReached(env: Env, site: Bytes -> seq<Bytes>, p: Proc) {
    match p
    case Fetching(page) => PageReached(env, site, page)
    case Requesting(page) => PageReached(env, site, page)
    case Feeding(feed) => FeedReached(env, site, feed)
    case _ => true
  }

  ghost predicate MainReached(env: Env, site: Bytes -> seq<Bytes>, m: Main) {
    match m
    case Seeding(feed) => FeedReached(env, site, feed)
    case Handing(page) => PageReached(env, site, page)
    case _ => true
  }

  /** Some URL with this key is reached by a chain. */
  ghost predicate KeyReached(env: Env, site: Bytes -> seq<Bytes>, key: Bytes) {
    exists page: Page :: NormalizeURL(page.url) == key && PageReached(env, site, page)
  }

  ghost predicate ReachInv(env: Env, site: Bytes -> seq<Bytes>, s: State) {
    && (forall k :: 0 <= k < |s.sending| ==> PageReached(env, site, s.sending[k]))
    && (forall k :: 0 <= k < |s.queue| ==> PageReached(env, site, s.queue[k]))
    && (forall i :: 0 <= i < |s.procs| ==> ProcReached(env, site, s.procs[i]))
    && (forall k :: 0 <= k < |s.queued| ==> KeyReached(env, site, s.queued[k]))
    && MainReached(env, site, s.main)
  }

  /** One URL of a list: it stays reached, and if handed over it is a reached page. */
  lemma FeedKeepsReached(env: Env, site: Bytes -> seq<Bytes>, s: State, feed: Feed)
    requires feed.todo != [] && FeedReached(env, site, feed) && StepFeed(env, s, feed).Fed?
    ensures var r := StepFeed(env, s, feed);
            && FeedReached(env, site, r.feed)
            && (feed.stage.Counted? ==>
                  && PageReached(env, site, Page(feed.todo[0], feed.depth))
                  && KeyReached(env, site, NormalizeURL(feed.todo[0])))
  {
    assert feed.todo[0] in feed.todo;
    assert forall url :: url in feed.todo[1..] ==> url in feed.todo;
    if feed.stage.Counted? {
      assert PageReached(env, site, Page(feed.todo[0], feed.depth));
    }
  }

  lemma ReplyReached(env: Env, site: Bytes -> seq<Bytes>, page: Page)
    requires PageReached(env, site, page) && NextDepth(page.depth) == page.depth + 1
    ensures FeedReached(env, site, Feed(site(page.url), NextDepth(page.depth), Examine))
  {
    forall url | url in site(page.url) ensures Linked(env, site, url, page.depth + 1) {
      assert ChainTo(env, site, page.url, page.depth);
    }
  }

  /** What a page goroutine adds: at most one page, and its key. */
  predicate AddsOne(s: State, t: State, i: nat, page: Page) {
    && i < |s.procs| == |t.procs| && t.procs == s.procs[i := t.procs[i]] && t.queue == s.queue && t.main == s.main
    && ((t.sending == s.sending && t.queued == s.queued)
        || (t.sending == s.sending + [page] && t.queued == s.queued + [NormalizeURL(page.url)]))
  }

  lemma AddedReached(env: Env, site: Bytes -> seq<Bytes>, s: State, t: State, i: nat, page: Page)
    requires ReachInv(env, site, s) && AddsOne(s, t, i, page) && ProcReached(env, site, t.procs[i])
    requires t.sending != s.sending ==> PageReached(env, site, page)
    ensures ReachInv(env, site, t)
  {
    if t.sending != s.sending {
      assert KeyReached(env, site, NormalizeURL(page.url));
    }
  }

  lemma ProceedReached(env: Env, site: Bytes -> seq<Bytes>, s: State, i: nat, choice: Choice)
    requires NoWrap(env) && ReachInv(env, site, s) && DepthInv(env, s)
    requires Enabled(env, s, Proceed(i, choice)) && ServedBy(site, s, Proceed(i, choice))
    ensures ReachInv(env, site, StepProc(env, s, i, choice))
  {
    var t := StepProc(env, s, i, choice);
    assert ProcReached(env, site, s.procs[i]) && ProcShallow(env, |s.fetched|, s.procs[i]);
    match s.procs[i]
    case Requesting(page) =>
      if choice.Links? {
        RoomBelow(env, s, page);
        ReplyReached(env, site, page);
      }
      AddedReached(env, site, s, t, i, page);
    case Feeding(feed) =>
      if feed.todo != [] && StepFeed(env, s, feed).Fed? {
        FeedKeepsReached(env, site, s, feed);
        AddedReached(env, site, s, t, i, Page(feed.todo[0], feed.depth));
      } else {
        AddedReached(env, site, s, t, i, Page([], 0));
      }
    case _ => AddedReached(env, site, s, t, i, Page([], 0));
  }

  lemma CallerReached(env: Env, site: Bytes -> seq<Bytes>, s: State, a: Action)
    requires ReachInv(env, site, s) && Enabled(env, s, a) && !a.Proceed?
    ensures ReachInv(env, site, Apply(env, s, a))
  {
    if a.Seed? && s.main.feed.todo != [] && StepFeed(env, s, s.main.feed).Fed? {
      FeedKeepsReached(env, site, s, s.main.feed);
    }
  }

  lemma {:induction false} RunsReached(env: Env, site: Bytes -> seq<Bytes>, s: State, acts: seq<Action>, t: State)
    requires NoWrap(env) && DepthInv(env, s) && ReachInv(env, site, s) && RunsOn(env, site, s, acts, t)
    ensures ReachInv(env, site, t)
    decreases acts
  {
    if acts == [] {
    } else {
      var a := acts[0];
      if a.Proceed? {
        ProceedDepth(env, s, a.i, a.choice);
        ProceedReached(env, site, s, a.i, a.choice);
      } else {
        CallerDepth(env, s, a);
        CallerReached(env, site, s, a);
      }
      RunsReached(env, site, Apply(env, s, a), acts[1..], t);
    }
  }

  /** Every page queued has a URL to which a chain of at most `maxDepth` eligible links leads from a
      seed, in every run and at any concurrency. */
  lemma QueuedIsReached(env: Env, site: Bytes -> seq<Bytes>, before: int, acts: seq<Action>, t: State, key: Bytes)
    requires NoWrap(env) && Width32(env, before) && RunsOn(env, site, Init(env, before), acts, t) && key in t.queued
    ensures exists url, depth: nat :: NormalizeURL(url) == key && depth <= env.maxDepth
              && ChainTo(env, site, url, depth)
  {
    assert forall url :: url in env.seeds ==> Linked(env, site, url, 0);
    InitMeasure(env, before);
    RunsReached(env, site, Init(env, before), acts, t);
    var k :| 0 <= k < |t.queued| && t.queued[k] == key;
    assert KeyReached(env, site, t.queued[k]);
    var page: Page :| NormalizeURL(page.url) == key && PageReached(env, site, page);
    assert ChainTo(env, site, page.url, page.depth);
  }
}
