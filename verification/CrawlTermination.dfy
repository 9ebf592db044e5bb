/** Every run of a crawl is finite, and what the end of a run looks like. */
module CrawlTermination {
  import opened ByteStrings
  import opened CrawlRuns
  import opened CrawlProtocol
  import opened CrawlTheorems

  // ---------- Depths ----------

  /** One of the two limits is below the largest int32. */
  predicate NoWrap(env: Env) {
    env.maxDepth < MAX_INT32 || env.maxRequests < MAX_INT32
  }

  /** Each level of depth has cost a request: no page is deeper than URLs were fetched. */
  predicate Shallow(env: Env, fetched: nat, page: Page) {
    0 <= page.depth <= env.maxDepth && page.depth <= fetched
  }

  predicate FeedShallow(env: Env, fetched: nat, feed: Feed) {
    0 <= feed.depth <= fetched && (!feed.stage.Examine? ==> feed.depth <= env.maxDepth)
  }

  predicate ProcShallow(env: Env, fetched: nat, p: Proc) {
    match p
    case Fetching(page) => Shallow(env, fetched, page)
    case Requesting(page) => Shallow(env, fetched, page) && page.depth < fetched
    case Feeding(feed) => WellFormedFeed(feed) && FeedShallow(env, fetched, feed)
    case _ => true
  }

  predicate MainShallow(env: Env, fetched: nat, m: Main) {
    match m
    case Seeding(feed) => WellFormedFeed(feed) && FeedShallow(env, fetched, feed)
    case Handing(page) => Shallow(env, fetched, page)
    case _ => true
  }

  /** Below the largest int32 the counter counts every request of this crawl. */
  predicate CounterOk(env: Env, s: State) {
    && Width32(env, s.sent)
    && (env.maxRequests < MAX_INT32 ==> |s.fetched| <= s.sent)
  }

  /** Every page anywhere lies within the maximum depth. */
  predicate DepthInv(env: Env, s: State) {
    && CounterOk(env, s)
    && (forall k :: 0 <= k < |s.sending| ==> Shallow(env, |s.fetched|, s.sending[k]))
    && (forall k :: 0 <= k < |s.queue| ==> Shallow(env, |s.fetched|, s.queue[k]))
    && (forall i :: 0 <= i < |s.procs| ==> ProcShallow(env, |s.fetched|, s.procs[i]))
    && MainShallow(env, |s.fetched|, s.main)
  }

  /** A page that is being requested has a next depth. */
  lemma RoomBelow(env: Env, s: State, page: Page)
    requires NoWrap(env) && CounterOk(env, s) && ProcShallow(env, |s.fetched|, Requesting(page))
    ensures page.depth < MAX_INT32 && NextDepth(page.depth) == page.depth + 1
  {
  }

  lemma FetchCounter(env: Env, s: State, url: Bytes)
    requires CounterOk(env, s)
    ensures Grants(env.maxRequests, s.sent) ==> CounterOk(env, s.(sent := Raised(s.sent), fetched := s.fetched + [url]))
  {
    if Grants(env.maxRequests, s.sent) {
      CounterStep(env, s.sent);
    }
  }

  lemma OwnDepth(env: Env, s: State, i: nat, choice: Choice)
    requires NoWrap(env) && CounterOk(env, s)
    requires Enabled(env, s, Proceed(i, choice)) && ProcShallow(env, |s.fetched|, s.procs[i])
    ensures var t := StepProc(env, s, i, choice);
            && |s.fetched| <= |t.fetched| && CounterOk(env, t) && ProcShallow(env, |t.fetched|, t.procs[i])
            && t.procs == s.procs[i := t.procs[i]] && t.queue == s.queue && t.main == s.main
            && s.sending <= t.sending && |t.sending| <= |s.sending| + 1
            && (t.sending != s.sending ==> Shallow(env, |t.fetched|, t.sending[|s.sending|]))
  {
    match s.procs[i]
    case Fetching(page) => FetchCounter(env, s, page.url);
    case Requesting(page) => RoomBelow(env, s, page);
    case _ =>
  }

  lemma ProceedDepth(env: Env, s: State, i: nat, choice: Choice)
    requires NoWrap(env) && DepthInv(env, s) && Enabled(env, s, Proceed(i, choice))
    ensures DepthInv(env, StepProc(env, s, i, choice))
  {
    assert ProcShallow(env, |s.fetched|, s.procs[i]);
    OwnDepth(env, s, i, choice);
    StillShallow(env, s, StepProc(env, s, i, choice), i);
  }

  lemma StillShallow(env: Env, s: State, t: State, i: nat)
    requires DepthInv(env, s) && |s.fetched| <= |t.fetched| && CounterOk(env, t) && i < |s.procs| == |t.procs|
    requires ProcShallow(env, |t.fetched|, t.procs[i])
    requires t.procs == s.procs[i := t.procs[i]] && t.queue == s.queue && t.main == s.main
    requires s.sending <= t.sending && |t.sending| <= |s.sending| + 1
    requires t.sending != s.sending ==> Shallow(env, |t.fetched|, t.sending[|s.sending|])
    ensures DepthInv(env, t)
  {
  }

  lemma CallerDepth(env: Env, s: State, a: Action)
    requires DepthInv(env, s) && Enabled(env, s, a) && !a.Proceed?
    ensures DepthInv(env, Apply(env, s, a))
  {
  }

  // ---------- The measure ----------

  function Times(n: nat, cost: nat): nat {
    if n == 0 then 0 else cost + Times(n - 1, cost)
  }

  lemma {:induction false} TimesMonotone(m: nat, n: nat, cost: nat)
    requires m <= n
    ensures Times(m, cost) <= Times(n, cost)
  {
    if m < n {
      TimesMonotone(m, n - 1, cost);
    }
  }

  /** Steps a fetched page at this depth can still cause: itself, and its links level by level. */
  function PageCost(env: Env, depth: int): nat
    decreases if depth > env.maxDepth then 0 else env.maxDepth - depth + 1
  {
    5 + if depth >= env.maxDepth then Times(env.maxLinks, 1)
        else Times(env.maxLinks, PageCost(env, depth + 1) + 7)
  }

  function LinkCost(env: Env, depth: int): nat {
    if depth > env.maxDepth then 1 else PageCost(env, depth) + 7
  }

  function FeedCost(env: Env, feed: Feed): nat {
    if feed.todo == [] then 0
    else
      Times(|feed.todo| - 1, LinkCost(env, feed.depth)) +
      match feed.stage
      case Examine => LinkCost(env, feed.depth)
      case Unvisited => PageCost(env, feed.depth) + 6
      case Marked => PageCost(env, feed.depth) + 5
      case Counted => PageCost(env, feed.depth) + 4
  }

  function ProcCost(env: Env): Proc -> nat {
    (p: Proc) =>
      match p
      case Fetching(page) => PageCost(env, page.depth)
      case Requesting(page) => 4 + Times(env.maxLinks, LinkCost(env, page.depth + 1))
      case Feeding(feed) => 3 + FeedCost(env, feed)
      case Finishing(_) => 2
      case Exiting(_) => 1
      case Gone => 0
  }

  function MainCost(env: Env, m: Main): nat {
    match m
    case Seeding(feed) => 5 + FeedCost(env, feed)
    case Aborted => 0
    case Ranging => 2
    case Handing(page) => 2 + PageCost(env, page.depth) + 1
    case Joining => 1
    case Returned(_) => 0
  }

  function WatcherCost(w: Watcher): nat {
    match w
    case NotStarted => 3
    case Polling => 2
    case SawZero => 1
    case Closed => 0
  }

  function SumPages(f: Page -> nat, pages: seq<Page>): nat {
    if pages == [] then 0 else f(pages[0]) + SumPages(f, pages[1..])
  }

  lemma {:induction false} SumPagesConcat(f: Page -> nat, a: seq<Page>, b: seq<Page>)
    ensures SumPages(f, a + b) == SumPages(f, a) + SumPages(f, b)
  {
    if a == [] {
      assert a + b == b;
    } else {
      assert (a + b)[1..] == a[1..] + b;
      SumPagesConcat(f, a[1..], b);
    }
  }

  lemma SumPagesAppend(f: Page -> nat, pages: seq<Page>, page: Page)
    ensures SumPages(f, pages + [page]) == SumPages(f, pages) + f(page)
  {
    SumPagesConcat(f, pages, [page]);
  }

  /** Taking page `j` out of a list. */
  lemma SumPagesRemove(f: Page -> nat, pages: seq<Page>, j: nat)
    requires j < |pages|
    ensures SumPages(f, pages[..j] + pages[j + 1..]) + f(pages[j]) == SumPages(f, pages)
  {
    assert pages == pages[..j] + pages[j..];
    SumPagesConcat(f, pages[..j], pages[j..]);
    SumPagesConcat(f, pages[..j], pages[j + 1..]);
    assert pages[j..][1..] == pages[j + 1..];
  }

  function PageCostPlus(env: Env, extra: nat): Page -> nat {
    (page: Page) => PageCost(env, page.depth) + extra
  }

  function PagesCost(env: Env, pages: seq<Page>, extra: nat): nat {
    SumPages(PageCostPlus(env, extra), pages)
  }

  function Measure(env: Env, s: State): nat {
    MainCost(env, s.main) + WatcherCost(s.watcher) + Sum(ProcCost(env), s.procs)
      + PagesCost(env, s.sending, 3) + PagesCost(env, s.queue, 2)
  }

  /** What a feed step leaves: the same URL one stage on, or the rest of the list. */
  lemma FeedShape(env: Env, s: State, feed: Feed)
    requires feed.todo != [] && FeedShallow(env, |s.fetched|, feed) && StepFeed(env, s, feed).Fed?
    ensures var r := StepFeed(env, s, feed);
            && FeedCost(env, r.feed) + (if feed.stage.Counted? then PageCost(env, feed.depth) + 3 else 0)
               < FeedCost(env, feed)
            && r.state.sending
               == (if feed.stage.Counted? then s.sending + [Page(feed.todo[0], feed.depth)] else s.sending)
            && r.state.queue == s.queue && r.state.procs == s.procs
            && r.state.main == s.main && r.state.watcher == s.watcher
  {
    assert FeedCost(env, Feed(feed.todo[1..], feed.depth, Examine))
        == Times(|feed.todo| - 1, LinkCost(env, feed.depth));
  }

  lemma FeedDecreases(env: Env, s: State, feed: Feed)
    requires feed.todo != [] && FeedShallow(env, |s.fetched|, feed) && StepFeed(env, s, feed).Fed?
    ensures var r := StepFeed(env, s, feed);
            && FeedCost(env, r.feed) + PagesCost(env, r.state.sending, 3)
               < FeedCost(env, feed) + PagesCost(env, s.sending, 3)
            && r.state.queue == s.queue && r.state.procs == s.procs
            && r.state.main == s.main && r.state.watcher == s.watcher
  {
    FeedShape(env, s, feed);
    SumPagesAppend(PageCostPlus(env, 3), s.sending, Page(feed.todo[0], feed.depth));
  }

  lemma ReplyDecreases(env: Env, page: Page, links: seq<Bytes>)
    requires NextDepth(page.depth) == page.depth + 1 && |links| <= env.maxLinks
    ensures FeedCost(env, Feed(links, NextDepth(page.depth), Examine))
         <= Times(env.maxLinks, LinkCost(env, page.depth + 1))
  {
    TimesMonotone(|links|, env.maxLinks, LinkCost(env, page.depth + 1));
  }

  /** What one goroutine and the senders still cost together goes down with every step of it. */
  lemma OwnCostDecreases(env: Env, s: State, i: nat, choice: Choice)
    requires NoWrap(env) && CounterOk(env, s)
    requires Enabled(env, s, Proceed(i, choice)) && ProcShallow(env, |s.fetched|, s.procs[i])
    ensures var t := StepProc(env, s, i, choice);
            ProcCost(env)(t.procs[i]) + PagesCost(env, t.sending, 3)
            < ProcCost(env)(s.procs[i]) + PagesCost(env, s.sending, 3)
  {
    match s.procs[i]
    case Fetching(page) => assert LinkCost(env, page.depth + 1) > 0;
    case Requesting(page) =>
      if choice.Links? {
        RoomBelow(env, s, page);
        ReplyDecreases(env, page, choice.links);
      }
    case Feeding(feed) =>
      if feed.todo != [] && StepFeed(env, s, feed).Fed? {
        FeedDecreases(env, s, feed);
      }
    case _ =>
  }

  lemma ProceedDecreases(env: Env, s: State, i: nat, choice: Choice)
    requires NoWrap(env) && DepthInv(env, s) && Enabled(env, s, Proceed(i, choice))
    ensures Measure(env, StepProc(env, s, i, choice)) < Measure(env, s)
  {
    var t := StepProc(env, s, i, choice);
    OwnCostDecreases(env, s, i, choice);
    ProceedHasEffect(env, s, i, choice);
    SumUpdate(ProcCost(env), s.procs, i, t.procs[i]);
  }

  lemma SeedDecreases(env: Env, s: State)
    requires DepthInv(env, s) && Enabled(env, s, Seed)
    ensures Measure(env, Apply(env, s, Seed)) < Measure(env, s)
  {
    if s.main.feed.todo != [] && StepFeed(env, s, s.main.feed).Fed? {
      FeedDecreases(env, s, s.main.feed);
    }
  }

  lemma SendDecreases(env: Env, s: State, j: nat)
    requires Enabled(env, s, Send(j))
    ensures Measure(env, Apply(env, s, Send(j))) < Measure(env, s)
  {
    SumPagesRemove(PageCostPlus(env, 3), s.sending, j);
    SumPagesAppend(PageCostPlus(env, 2), s.queue, s.sending[j]);
  }

  lemma CallerDecreases(env: Env, s: State, a: Action)
    requires DepthInv(env, s) && Enabled(env, s, a) && !a.Proceed?
    ensures Measure(env, Apply(env, s, a)) < Measure(env, s)
  {
    match a
    case Seed => SeedDecreases(env, s);
    case Send(j) => SendDecreases(env, s, j);
    case Spawn => SumAppend(ProcCost(env), s.procs, Fetching(s.main.page));
    case _ =>
  }

  lemma {:induction false} RunBounded(env: Env, s: State, acts: seq<Action>, t: State)
    requires NoWrap(env) && DepthInv(env, s) && Runs(env, s, acts, t)
    ensures DepthInv(env, t) && |acts| + Measure(env, t) <= Measure(env, s)
    decreases acts
  {
    if acts == [] {
    } else {
      var a := acts[0];
      if a.Proceed? {
        ProceedDepth(env, s, a.i, a.choice);
        ProceedDecreases(env, s, a.i, a.choice);
      } else {
        CallerDepth(env, s, a);
        CallerDecreases(env, s, a);
      }
      RunBounded(env, Apply(env, s, a), acts[1..], t);
    }
  }

  lemma InitMeasure(env: Env, sent: int)
    requires Width32(env, sent)
    ensures DepthInv(env, Init(env, sent))
    ensures Measure(env, Init(env, sent)) <= 8 + Times(|env.seeds|, LinkCost(env, 0))
  {
  }

  /** No run is longer than a bound computed from the seeds, the maximum depth and the number of
      links per page, whatever the concurrency; and no page lies deeper than the maximum. */
  lemma Terminates(env: Env, sent: int, acts: seq<Action>, t: State)
    requires NoWrap(env) && Width32(env, sent) && Runs(env, Init(env, sent), acts, t)
    ensures |acts| <= 8 + Times(|env.seeds|, LinkCost(env, 0))
    ensures DepthInv(env, t)
  {
    InitMeasure(env, sent);
    RunBounded(env, Init(env, sent), acts, t);
  }

  // ---------- Progress ----------

  predicate Over(s: State) {
    s.main.Returned? || s.main.Aborted?
  }

  ghost predicate Stuck(env: Env, s: State) {
    forall a :: !Enabled(env, s, a)
  }

  /** Queueing from a goroutine slot never blocks it: the crawl can always go on until it returns,
      unless it holds a page while no slot exists. */
  lemma Progress(env: Env, s: State)
    requires Reachable(env, s) && !Over(s) && !(env.maxConcurrency == 0 && s.main.Handing?)
    ensures exists a :: Enabled(env, s, a)
  {
    ReachableClose(env, s);
    if s.main.Seeding? {
      assert Enabled(env, s, Seed);
    } else if i: nat :| i < |s.procs| && !s.procs[i].Gone? {
      var choice := if s.procs[i].Requesting? then Stop(false) else Go;
      assert Enabled(env, s, Proceed(i, choice));
    } else {
      SumZero(Active, s.procs);
      SumZero(Work, s.procs);
      IdleProgress(env, s);
    }
  }

  lemma IdleProgress(env: Env, s: State)
    requires CloseInv(env, s) && !Over(s) && !s.main.Seeding? && !(env.maxConcurrency == 0 && s.main.Handing?)
    requires forall i :: 0 <= i < |s.procs| ==> s.procs[i].Gone?
    requires Sum(Active, s.procs) == 0 && Sum(Work, s.procs) == 0
    ensures exists a :: Enabled(env, s, a)
  {
    if s.main.Handing? {
      assert Enabled(env, s, Spawn);
    } else if s.main.Joining? {
      assert Enabled(env, s, Join);
    } else if s.queue != [] {
      assert Enabled(env, s, Receive);
    } else if s.sending != [] {
      assert Enabled(env, s, Send(0));
    } else {
      match s.watcher
      case Polling => assert Enabled(env, s, Poll);
      case SawZero => assert Enabled(env, s, Close);
      case Closed => assert Enabled(env, s, RangeEnds);
    }
  }
}
