/** How many requests a crawl sends, and how that relates to the pages it counts. */
module CrawlRequests {
  import opened Sequences
  import opened ByteStrings
  import opened CrawlRuns
  import opened CrawlProtocol
  import opened CrawlSteps
  import opened CrawlChains
  import opened CrawlTheorems
  import opened CrawlTermination
  import opened CrawlDuplicates
  import opened CrawlSeeds

  // ---------- Requests and queued pages ----------

  function Waits(p: Proc): nat {
    if p.Fetching? then 1 else 0
  }

  /** The pages queued that have not reached the check of the request count. */
  function Waiting(s: State): nat {
    |s.sending| + |s.queue| + (if s.main.Handing? then 1 else 0) + Sum(Waits, s.procs)
  }

  predicate ProcFailed(p: Proc) {
    (p.Finishing? || p.Exiting?) && p.failed
  }

  /** No page has failed, nor was one refused because the crawl was cancelled. */
  predicate Clean(s: State) {
    !s.failed && forall i :: 0 <= i < |s.procs| ==> !ProcFailed(s.procs[i])
  }

  /** While nothing failed, every page past the check was fetched, or the counter refused it; and the
      counter says how many were, unless it wraps. */
  predicate RequestInv(env: Env, before: int, s: State) {
    && Width32(env, s.sent)
    && (env.maxRequests < MAX_INT32 ==> s.sent == before + |s.fetched|)
    && (Clean(s) ==>
          && |s.fetched| <= |s.queued| - Waiting(s)
          && (|s.fetched| < |s.queued| - Waiting(s) ==> !Grants(env.maxRequests, s.sent)))
    && (s.main.Returned? ==> s.main.failed == s.failed && forall i :: 0 <= i < |s.procs| ==> s.procs[i].Gone?)
  }

  lemma CleanBefore(env: Env, s: State, i: nat, choice: Choice)
    requires Enabled(env, s, Proceed(i, choice)) && Clean(StepProc(env, s, i, choice))
    ensures Clean(s)
  {
    var t := StepProc(env, s, i, choice);
    assert !ProcFailed(t.procs[i]);
    forall j | 0 <= j < |s.procs| ensures !ProcFailed(s.procs[j]) {
      if j != i {
        assert t.procs[j] == s.procs[j];
      }
    }
  }

  /** What a page goroutine's step does to the counter and to the pages waiting. */
  predicate RequestEffect(env: Env, s: State, t: State, i: nat) {
    && i < |s.procs| == |t.procs| && t.procs == s.procs[i := t.procs[i]] && t.queue == s.queue && t.main == s.main
    && var past := (|t.queued| - |t.sending| - Waits(t.procs[i])) - (|s.queued| - |s.sending| - Waits(s.procs[i]));
    && 0 <= past <= 1
    && (if t.fetched == s.fetched then
          t.sent == s.sent && (past == 1 ==> ProcFailed(t.procs[i]) || !Grants(env.maxRequests, s.sent))
        else
          && past == 1 && |t.fetched| == |s.fetched| + 1
          && Grants(env.maxRequests, s.sent) && t.sent == Raised(s.sent))
  }

  lemma OwnRequests(env: Env, s: State, i: nat, choice: Choice)
    requires Enabled(env, s, Proceed(i, choice))
    ensures RequestEffect(env, s, StepProc(env, s, i, choice), i)
  {
  }

  lemma ProceedRequests(env: Env, before: int, s: State, i: nat, choice: Choice)
    requires CloseInv(env, s) && RequestInv(env, before, s) && Enabled(env, s, Proceed(i, choice))
    ensures RequestInv(env, before, StepProc(env, s, i, choice))
  {
    var t := StepProc(env, s, i, choice);
    OwnRequests(env, s, i, choice);
    SumUpdate(Waits, s.procs, i, t.procs[i]);
    if t.fetched != s.fetched {
      CounterStep(env, s.sent);
    }
    if Clean(t) {
      CleanBefore(env, s, i, choice);
      assert !ProcFailed(t.procs[i]);
    }
    assert !s.procs[i].Gone? && !s.main.Returned?;
  }

  lemma CallerRequests(env: Env, before: int, s: State, a: Action)
    requires CloseInv(env, s) && RequestInv(env, before, s) && Enabled(env, s, a) && !a.Proceed?
    ensures RequestInv(env, before, Apply(env, s, a))
  {
    if a.Spawn? {
      var t := Apply(env, s, a);
      SumAppend(Waits, s.procs, Fetching(s.main.page));
      assert Clean(t) ==> Clean(s) by {
        assert forall i :: 0 <= i < |s.procs| ==> t.procs[i] == s.procs[i];
      }
    }
  }

  lemma {:induction false} RunsRequests(env: Env, before: int, s: State, acts: seq<Action>, t: State)
    requires CloseInv(env, s) && RequestInv(env, before, s) && Runs(env, s, acts, t)
    ensures RequestInv(env, before, t)
    decreases acts
  {
    if acts == [] {
    } else {
      CloseStep(env, s, acts[0]);
      if acts[0].Proceed? {
        ProceedRequests(env, before, s, acts[0].i, acts[0].choice);
      } else {
        CallerRequests(env, before, s, acts[0]);
      }
      RunsRequests(env, before, Apply(env, s, acts[0]), acts[1..], t);
    }
  }

  /** The counter grants so many more pages: without end if the limit is the largest int32. */
  predicate Granted(env: Env, before: int, n: nat) {
    env.maxRequests == MAX_INT32 || n <= AtLeastZero(env.maxRequests - before)
  }

  /** A crawl that returns without error has fetched every page queued, duplicates included, as far as
      the counter granted them. */
  lemma PagesFetched(env: Env, before: int, s: State)
    requires Width32(env, before) && ReachableFrom(env, before, s) && s.main == Returned(false)
    ensures |s.fetched|
         == if Granted(env, before, |s.queued|) then |s.queued| else AtLeastZero(env.maxRequests - before)
  {
    var acts :| Runs(env, Init(env, before), acts, s);
    RunsRequests(env, before, Init(env, before), acts, s);
    assert Reachable(env, s);
    ReachableClose(env, s);
    CloseIsSafe(env, s);
    assert NoWork(s);
    SumZero(Waits, s.procs);
  }

  // ---------- How many pages a crawl can queue ----------

  /** A page at this depth and all pages its links can lead to, at most. */
  function Subtree(env: Env, depth: int): nat
    decreases if depth > env.maxDepth then 0 else env.maxDepth - depth + 1
  {
    if depth > env.maxDepth then 0 else 1 + Times(env.maxLinks, Subtree(env, depth + 1))
  }

  function PageBound(env: Env): nat {
    Times(|env.seeds|, Subtree(env, 0))
  }

  function LinksRest(env: Env, page: Page): nat {
    Times(env.maxLinks, Subtree(env, page.depth + 1))
  }

  function Below(env: Env): Page -> nat {
    (page: Page) => LinksRest(env, page)
  }

  function FeedRest(env: Env, feed: Feed): nat {
    Times(|feed.todo|, Subtree(env, feed.depth))
  }

  function ProcRest(env: Env): Proc -> nat {
    (p: Proc) =>
      match p
      case Fetching(page) => LinksRest(env, page)
      case Requesting(page) => LinksRest(env, page)
      case Feeding(feed) => FeedRest(env, feed)
      case _ => 0
  }

  function MainRest(env: Env, m: Main): nat {
    match m
    case Seeding(feed) => FeedRest(env, feed)
    case Handing(page) => LinksRest(env, page)
    case _ => 0
  }

  /** The pages queued and those that may still be. */
  function Potential(env: Env, s: State): nat {
    |s.queued| + MainRest(env, s.main) + Sum(ProcRest(env), s.procs)
      + SumPages(Below(env), s.sending) + SumPages(Below(env), s.queue)
  }

  lemma FeedPotential(env: Env, s: State, feed: Feed)
    requires feed.todo != [] && FeedShallow(env, |s.fetched|, feed) && StepFeed(env, s, feed).Fed?
    ensures var r := StepFeed(env, s, feed);
            |r.state.queued| + FeedRest(env, r.feed) + SumPages(Below(env), r.state.sending)
            <= |s.queued| + FeedRest(env, feed) + SumPages(Below(env), s.sending)
  {
    if feed.stage.Counted? {
      SumPagesAppend(Below(env), s.sending, Page(feed.todo[0], feed.depth));
    }
  }

  lemma ReplyPotential(env: Env, page: Page, links: seq<Bytes>)
    requires NextDepth(page.depth) == page.depth + 1 && |links| <= env.maxLinks
    ensures FeedRest(env, Feed(links, NextDepth(page.depth), Examine)) <= LinksRest(env, page)
  {
    TimesMonotone(|links|, env.maxLinks, Subtree(env, page.depth + 1));
  }

  lemma OwnPotential(env: Env, s: State, i: nat, choice: Choice)
    requires NoWrap(env) && CounterOk(env, s)
    requires Enabled(env, s, Proceed(i, choice)) && ProcShallow(env, |s.fetched|, s.procs[i])
    ensures var t := StepProc(env, s, i, choice);
            |t.queued| + ProcRest(env)(t.procs[i]) + SumPages(Below(env), t.sending)
            <= |s.queued| + ProcRest(env)(s.procs[i]) + SumPages(Below(env), s.sending)
  {
    match s.procs[i]
    case Requesting(page) =>
      if choice.Links? {
        RoomBelow(env, s, page);
        ReplyPotential(env, page, choice.links);
      }
    case Feeding(feed) =>
      if feed.todo != [] && StepFeed(env, s, feed).Fed? {
        FeedPotential(env, s, feed);
      }
    case _ =>
  }

  lemma ProceedPotential(env: Env, s: State, i: nat, choice: Choice)
    requires NoWrap(env) && DepthInv(env, s) && Enabled(env, s, Proceed(i, choice))
    ensures Potential(env, StepProc(env, s, i, choice)) <= Potential(env, s)
  {
    var t := StepProc(env, s, i, choice);
    OwnPotential(env, s, i, choice);
    ProceedHasEffect(env, s, i, choice);
    SumUpdate(ProcRest(env), s.procs, i, t.procs[i]);
  }

  lemma CallerPotential(env: Env, s: State, a: Action)
    requires DepthInv(env, s) && Enabled(env, s, a) && !a.Proceed?
    ensures Potential(env, Apply(env, s, a)) <= Potential(env, s)
  {
    match a
    case Seed =>
      if s.main.feed.todo != [] && StepFeed(env, s, s.main.feed).Fed? {
        FeedPotential(env, s, s.main.feed);
      }
    case Send(j) =>
      SumPagesRemove(Below(env), s.sending, j);
      SumPagesAppend(Below(env), s.queue, s.sending[j]);
    case Spawn => SumAppend(ProcRest(env), s.procs, Fetching(s.main.page));
    case _ =>
  }

  lemma {:induction false} RunsPotential(env: Env, s: State, acts: seq<Action>, t: State)
    requires NoWrap(env) && DepthInv(env, s) && Runs(env, s, acts, t)
    ensures Potential(env, t) <= Potential(env, s)
    decreases acts
  {
    if acts == [] {
    } else {
      var a := acts[0];
      if a.Proceed? {
        ProceedDepth(env, s, a.i, a.choice);
        ProceedPotential(env, s, a.i, a.choice);
      } else {
        CallerDepth(env, s, a);
        CallerPotential(env, s, a);
      }
      RunsPotential(env, Apply(env, s, a), acts[1..], t);
    }
  }

  /** No crawl queues more pages than the tree of seeds, links per page and maximum depth has. */
  lemma PagesBounded(env: Env, before: int, s: State)
    requires NoWrap(env) && Width32(env, before) && ReachableFrom(env, before, s)
    ensures |s.queued| <= PageBound(env)
  {
    var acts :| Runs(env, Init(env, before), acts, s);
    InitMeasure(env, before);
    RunsPotential(env, Init(env, before), acts, s);
  }

  // ---------- The count of visited pages ----------

  lemma {:induction false} ElementsSize(s: seq<Bytes>)
    ensures |Elements(s)| <= |s|
    ensures |Elements(s)| == |s| <==> Distinct(s)
  {
    if s == [] {
    } else {
      var rest := s[1..];
      ElementsSize(rest);
      assert s == [s[0]] + rest;
      assert Elements(s) == {s[0]} + Elements(rest);
      if s[0] in rest {
        assert Elements(s) == Elements(rest);
        var i :| 0 <= i < |rest| && rest[i] == s[0];
        assert s[i + 1] == s[0];
      } else {
        assert Distinct(rest) ==> Distinct(s);
        assert Distinct(s) ==> Distinct(rest);
      }
    }
  }

  lemma {:induction false} CountedOnce(queued: seq<Bytes>)
    requires forall key :: Count(queued, key) <= 1
    ensures Distinct(queued)
  {
    if queued == [] {
    } else {
      var init, last := queued[..|queued| - 1], queued[|queued| - 1];
      assert forall key :: Count(init, key) <= Count(queued, key);
      CountedOnce(init);
      CountPositive(init, last);
      assert queued == init + [last];
    }
  }

  /** The visited set counts the queued pages once each; nothing was queued twice exactly when the two
      numbers agree, as they do with one page at a time. */
  lemma VisitedSize(env: Env, s: State)
    requires Reachable(env, s) && s.main.Returned?
    ensures |s.visited| <= |s.queued|
    ensures |s.visited| == |s.queued| <==> Distinct(s.queued)
    ensures 0 <= env.maxConcurrency <= 1 ==> |s.visited| == |s.queued|
  {
    VisitedIsQueued(env, s);
    assert s.visited == Elements(s.queued);
    ElementsSize(s.queued);
    if 0 <= env.maxConcurrency <= 1 {
      forall key ensures Count(s.queued, key) <= 1 {
        QueuedAtMost(env, s, key);
      }
      CountedOnce(s.queued);
    }
  }

  /** Of `n` pages, those the counter refuses. */
  function Refused(env: Env, before: int, n: nat): nat {
    if Granted(env, before, n) then 0 else n - AtLeastZero(env.maxRequests - before)
  }

  /** The requests beyond one for each of these URLs: redirects count up, giving up at once counts down. */
  function Extra(env: Env, fetched: seq<Bytes>): int {
    if fetched == [] then 0
    else Extra(env, fetched[..|fetched| - 1]) + env.cost(fetched[|fetched| - 1]) - 1
  }

  lemma {:induction false} RequestsExtra(env: Env, fetched: seq<Bytes>)
    ensures Requests(env, fetched) == |fetched| + Extra(env, fetched)
  {
    if fetched == [] {
    } else {
      RequestsExtra(env, fetched[..|fetched| - 1]);
    }
  }

  /** CountVisited is documented as the requests sent. One page at a time, a crawl without error has
      made as many requests as it visited pages exactly when the pages the counter refused are as many
      as the extra requests; without redirects, when it refused none. */
  lemma CountIsRequestsIff(env: Env, before: int, s: State)
    requires Width32(env, before) && ReachableFrom(env, before, s) && s.main == Returned(false)
    requires 0 <= env.maxConcurrency <= 1
    ensures |s.visited| == Requests(env, s.fetched) <==> Refused(env, before, |s.visited|) == Extra(env, s.fetched)
    ensures CostsIn(env, {1}) ==>
              (|s.visited| == Requests(env, s.fetched) <==> Granted(env, before, |s.visited|))
  {
    assert Reachable(env, s);
    PagesFetched(env, before, s);
    VisitedSize(env, s);
    RequestsExtra(env, s.fetched);
    if CostsIn(env, {1}) {
      RequestsConstant(env, s.fetched, 1);
    }
  }

  lemma {:induction false} RequestsConstant(env: Env, fetched: seq<Bytes>, cost: nat)
    requires CostsIn(env, {cost})
    ensures Requests(env, fetched) == Times(|fetched|, cost)
    ensures cost == 1 ==> Requests(env, fetched) == |fetched|
    ensures cost == 0 ==> Requests(env, fetched) == 0
    ensures cost > 1 && fetched != [] ==> Requests(env, fetched) > |fetched|
  {
    if fetched == [] {
    } else {
      RequestsConstant(env, fetched[..|fetched| - 1], cost);
      assert env.cost(fetched[|fetched| - 1]) == cost;
    }
  }

  // ---------- Runs that succeed ----------

  ghost predicate ScopeTotal(env: Env) {
    forall url :: env.scope(url) != ScopeError
  }

  lemma CleanProceed(env: Env, s: State, i: nat)
    requires Clean(s) && ScopeTotal(env) && i < |s.procs| && !s.procs[i].Gone?
    ensures var choice := if s.procs[i].Requesting? then Stop(false) else Go;
            Enabled(env, s, Proceed(i, choice)) && Clean(StepProc(env, s, i, choice))
  {
    assert !ProcFailed(s.procs[i]);
  }

  /** A step that fails nothing. */
  lemma CleanMove(env: Env, s: State) returns (a: Action)
    requires Reachable(env, s) && Clean(s) && !Over(s) && env.maxConcurrency != 0 && ScopeTotal(env)
    ensures Enabled(env, s, a) && Clean(Apply(env, s, a)) && !Apply(env, s, a).main.Aborted?
  {
    ReachableClose(env, s);
    if s.main.Seeding? {
      a := Seed;
    } else if i: nat :| i < |s.procs| && !s.procs[i].Gone? {
      a := Proceed(i, if s.procs[i].Requesting? then Stop(false) else Go);
      CleanProceed(env, s, i);
    } else {
      SumZero(Active, s.procs);
      SumZero(Work, s.procs);
      IdleProgress(env, s);
      a :| Enabled(env, s, a);
    }
  }

  /** Unless a page failed, every crawl with a slot can go on to return without error. */
  lemma Completes(env: Env, before: int, s: State) returns (t: State)
    requires NoWrap(env) && Width32(env, before) && ReachableFrom(env, before, s) && Clean(s)
    requires !s.main.Aborted? && env.maxConcurrency != 0 && ScopeTotal(env)
    ensures ReachableFrom(env, before, t) && t.main == Returned(false) && s.queued <= t.queued
    decreases Measure(env, s)
  {
    var acts :| Runs(env, Init(env, before), acts, s);
    if s.main.Returned? {
      RunsRequests(env, before, Init(env, before), acts, s);
      t := s;
    } else {
      assert Reachable(env, s);
      var a := CleanMove(env, s);
      Terminates(env, before, acts, s);
      if a.Proceed? {
        ProceedDecreases(env, s, a.i, a.choice);
      } else {
        CallerDecreases(env, s, a);
      }
      QueuedGrows(env, s, a);
      var next := ReachStep(env, before, s, a);
      t := Completes(env, before, next);
    }
  }

  // ---------- When the count is right ----------

  /** The counter grants every page the crawl can queue. */
  predicate Ample(env: Env, before: int) {
    NoWrap(env) && Width32(env, before) && 0 <= before && PageBound(env) <= env.maxRequests - before
  }

  /** What TotalPagesCrawled is documented to be. */
  predicate CountIsRequests(env: Env, s: State) {
    ToInt32(|s.visited|) == Requests(env, s.fetched)
  }

  lemma AmpleRequests(env: Env, before: int, s: State)
    requires Ample(env, before) && ReachableFrom(env, before, s) && s.main == Returned(false)
    ensures |s.fetched| == |s.queued| <= MAX_INT32
    ensures CostsIn(env, {1}) ==> (CountIsRequests(env, s) <==> Distinct(s.queued))
  {
    assert Reachable(env, s);
    PagesBounded(env, before, s);
    PagesFetched(env, before, s);
    VisitedSize(env, s);
    if CostsIn(env, {1}) {
      RequestsConstant(env, s.fetched, 1);
    }
  }

  /** The count is right in all crawls that return without error, with a given concurrency, client costs
      out of a given set, and as many requests granted as pages queued. */
  ghost predicate CountIsRight(maxConcurrency: int, costs: set<nat>) {
    forall env: Env, before: int, s: State |
      env.maxConcurrency == maxConcurrency && CostsIn(env, costs) && Ample(env, before)
      && ReachableFrom(env, before, s) && s.main == Returned(false) ::
      CountIsRequests(env, s)
  }

  lemma CountRight(env: Env, before: int, s: State)
    requires env.maxConcurrency == 0 || (env.maxConcurrency == 1 && CostsIn(env, {1}))
    requires Ample(env, before) && ReachableFrom(env, before, s) && s.main == Returned(false)
    ensures CountIsRequests(env, s)
  {
    assert Reachable(env, s);
    AmpleRequests(env, before, s);
    VisitedSize(env, s);
    if env.maxConcurrency == 0 {
      NothingQueuedIff(env, s);
      CloseIsSafe(env, s);
      ReachableClose(env, s);
    }
  }

  lemma SameLinkIsAmple(c: int, cost: nat)
    ensures var env := SameLink(c, 2, 4, cost); Ample(env, 0) && ScopeTotal(env) && CostsIn(env, {cost})
  {
    var env := SameLink(c, 2, 4, cost);
    assert Subtree(env, 2) == 0;
    assert Times(1, Subtree(env, 2)) == 0 && Subtree(env, 1) == 1;
    assert Times(1, Subtree(env, 1)) == 1 && Subtree(env, 0) == 2;
    assert Times(1, 2) == 2 && Times(2, 2) == 4;
  }

  /** Two pages crawled at once request the same page twice; it is counted once. */
  lemma CountedTwice(c: int, cost: nat) returns (s: State)
    requires c < 0 || c > 1
    ensures var env := SameLink(c, 2, 4, cost);
            Ample(env, 0) && ReachableFrom(env, 0, s) && s.main == Returned(false) && !CountIsRequests(env, s)
  {
    var env := SameLink(c, 2, 4, cost);
    SameLinkIsAmple(c, cost);
    s := CopiesRun(c, 2, 4, cost);
    var queued := s.queued;
    s := Completes(env, 0, s);
    CountPrefix(queued, s.queued, LINK);
    assert !Distinct(s.queued) by {
      if Distinct(s.queued) {
        DistinctCounts(s.queued, LINK);
      }
    }
    WrongCount(env, 0, s, cost);
  }

  /** One page at a time, a page that takes another number of requests than one makes the count wrong. */
  lemma CountedWithRedirects(cost: nat) returns (s: State)
    requires cost != 1
    ensures var env := SameLink(1, 2, 4, cost);
            Ample(env, 0) && ReachableFrom(env, 0, s) && s.main == Returned(false) && !CountIsRequests(env, s)
  {
    var env := SameLink(1, 2, 4, cost);
    SameLinkIsAmple(1, cost);
    s := SeedAll(1, 2, 4, cost, 2);
    SmoothlyIsReachable(env, AllLink(), 0, s);
    var queued := s.queued;
    s := Completes(env, 0, s);
    assert |queued| == 2;
    WrongCount(env, 0, s, cost);
  }

  lemma WrongCount(env: Env, before: int, s: State, cost: nat)
    requires Ample(env, before) && CostsIn(env, {cost}) && ReachableFrom(env, before, s) && s.main == Returned(false)
    requires s.queued != [] && (cost != 1 || !Distinct(s.queued))
    ensures !CountIsRequests(env, s)
  {
    assert Reachable(env, s);
    AmpleRequests(env, before, s);
    RequestsConstant(env, s.fetched, cost);
    VisitedSize(env, s);
    VisitedIsQueued(env, s);
    assert s.queued[0] in s.visited;
  }

  lemma {:induction false} CountPrefix(a: seq<Bytes>, b: seq<Bytes>, key: Bytes)
    requires a <= b
    ensures Count(a, key) <= Count(b, key)
  {
    if a == b {
    } else {
      CountPrefix(a, b[..|b| - 1], key);
    }
  }

  lemma {:induction false} DistinctCounts(queued: seq<Bytes>, key: Bytes)
    requires Distinct(queued)
    ensures Count(queued, key) <= 1
  {
    if queued == [] {
    } else {
      var init, last := queued[..|queued| - 1], queued[|queued| - 1];
      DistinctCounts(init, key);
      CountPositive(init, key);
    }
  }

  lemma CountIsWrong(maxConcurrency: int, costs: set<nat>, cost: nat)
    requires cost in costs && maxConcurrency != 0 && (maxConcurrency != 1 || cost != 1)
    ensures !CountIsRight(maxConcurrency, costs)
  {
    var env := SameLink(maxConcurrency, 2, 4, cost);
    assert env.maxConcurrency == maxConcurrency && CostsIn(env, costs);
    if maxConcurrency == 1 {
      var s := CountedWithRedirects(cost);
    } else {
      var s := CountedTwice(maxConcurrency, cost);
    }
  }

  lemma NotJustOne(costs: set<nat>)
    requires costs != {}
    ensures costs == {1} || exists cost :: cost in costs && cost != 1
  {
    if forall cost | cost in costs :: cost == 1 {
      var cost :| cost in costs;
      assert costs == {1};
    }
  }

  /** With enough requests for every page, the count is the number of requests made in all crawls that
      return without error exactly when no page is crawled, or one at a time and each takes one request:
      no redirect is followed, and the client never gives up before sending. */
  lemma CountIsRightIff(maxConcurrency: int, costs: set<nat>)
    requires costs != {}
    ensures CountIsRight(maxConcurrency, costs) <==> maxConcurrency == 0 || (maxConcurrency == 1 && costs == {1})
  {
    if maxConcurrency == 0 || (maxConcurrency == 1 && costs == {1}) {
      forall env: Env, before: int, s: State |
        env.maxConcurrency == maxConcurrency && CostsIn(env, costs) && Ample(env, before)
        && ReachableFrom(env, before, s) && s.main == Returned(false)
        ensures CountIsRequests(env, s)
      {
        CountRight(env, before, s);
      }
    } else if maxConcurrency == 1 {
      NotJustOne(costs);
      var cost :| cost in costs && cost != 1;
      CountIsWrong(maxConcurrency, costs, cost);
    } else {
      var cost :| cost in costs;
      CountIsWrong(maxConcurrency, costs, cost);
    }
  }

  /** Without requests left no page is fetched, yet eligible seeds are counted: for every such crawl
      some run returns without error, a positive count and no request. */
  lemma CountWithoutRequests(env: Env, before: int) returns (s: State)
    requires Width32(env, before) && env.maxRequests < MAX_INT32 && env.maxRequests <= before
    requires env.maxConcurrency != 0 && ScopeTotal(env)
    requires exists url :: url in env.seeds && Eligible(env, url, 0)
    ensures ReachableFrom(env, before, s) && s.main == Returned(false)
    ensures s.fetched == [] && |s.visited| > 0
  {
    assert Runs(env, Init(env, before), [], Init(env, before));
    s := Completes(env, before, Init(env, before));
    assert Reachable(env, s);
    PagesFetched(env, before, s);
    SeedsComeFirst(env, s);
    NoSeedKeys(env, env.seeds);
    DedupElements(SeedKeys(env, env.seeds));
    assert SeedKeys(env, env.seeds)[0] in Dedup(SeedKeys(env, env.seeds));
    VisitedIsQueued(env, s);
    assert s.queued[0] in s.visited;
  }

  // ---------- Crawls of the seeds alone ----------

  /** With a maximum depth of zero links are looked at and left. */
  predicate LeafInv(env: Env, s: State) {
    forall i :: 0 <= i < |s.procs| && s.procs[i].Feeding? ==>
      s.procs[i].feed.stage.Examine? && s.procs[i].feed.depth > env.maxDepth
  }

  ghost predicate SeedsOnly(env: Env, s: State) {
    LeafInv(env, s) && (s.main.Seeding? || s.main.Aborted? || s.queued == Dedup(SeedKeys(env, env.seeds)))
  }

  lemma LeafStep(env: Env, s: State, a: Action)
    requires env.maxDepth <= 0 && CloseInv(env, s) && SeedInv(env, s) && DepthInv(env, s)
    requires SeedsOnly(env, s) && Enabled(env, s, a)
    ensures SeedsOnly(env, Apply(env, s, a))
  {
    SeedStep(env, s, a);
    if a.Proceed? {
      LeafProceed(env, s, a.i, a.choice);
    }
  }

  lemma LeafProceed(env: Env, s: State, i: nat, choice: Choice)
    requires env.maxDepth <= 0 && DepthInv(env, s) && LeafInv(env, s) && Enabled(env, s, Proceed(i, choice))
    ensures LeafInv(env, StepProc(env, s, i, choice)) && StepProc(env, s, i, choice).queued == s.queued
    ensures StepProc(env, s, i, choice).main == s.main
  {
    assert ProcShallow(env, |s.fetched|, s.procs[i]);
  }

  lemma {:induction false} RunsLeaf(env: Env, s: State, acts: seq<Action>, t: State)
    requires env.maxDepth <= 0 && CloseInv(env, s) && SeedInv(env, s) && DepthInv(env, s)
    requires SeedsOnly(env, s) && Runs(env, s, acts, t)
    ensures SeedsOnly(env, t)
    decreases acts
  {
    if acts == [] {
    } else {
      var a := acts[0];
      LeafStep(env, s, a);
      CloseStep(env, s, a);
      SeedStep(env, s, a);
      if a.Proceed? {
        ProceedDepth(env, s, a.i, a.choice);
      } else {
        CallerDepth(env, s, a);
      }
      RunsLeaf(env, Apply(env, s, a), acts[1..], t);
    }
  }

  /** At a maximum depth of zero, whatever the concurrency, a crawl without error counts the different
      keys of its eligible seeds; where each page takes one request, it makes as many exactly when the
      counter grants them. */
  lemma SeedsOnlyCount(env: Env, before: int, s: State)
    requires env.maxDepth <= 0 && Width32(env, before) && ReachableFrom(env, before, s) && s.main == Returned(false)
    ensures var keys := Dedup(SeedKeys(env, env.seeds));
            && |s.visited| == |keys|
            && (CostsIn(env, {1}) ==> (|s.visited| == Requests(env, s.fetched) <==> Granted(env, before, |keys|)))
  {
    var acts :| Runs(env, Init(env, before), acts, s);
    assert Reachable(env, s);
    InitSeeded(env, before);
    InitMeasure(env, before);
    RunsLeaf(env, Init(env, before), acts, s);
    PagesFetched(env, before, s);
    DedupDistinct(SeedKeys(env, env.seeds));
    VisitedSize(env, s);
    if CostsIn(env, {1}) {
      RequestsConstant(env, s.fetched, 1);
    }
  }
}
