/** What every run of a crawl guarantees, over all interleavings. */
module CrawlTheorems {
  import opened ByteStrings
  import opened UrlNormalization
  import opened CrawlRuns
  import opened CrawlProtocol

  // ---------- Closing the queue is safe ----------

  lemma {:induction false} RunsClose(env: Env, s: State, acts: seq<Action>, t: State)
    requires CloseInv(env, s) && Runs(env, s, acts, t)
    ensures CloseInv(env, t)
    decreases acts
  {
    if acts == [] {
    } else {
      CloseStep(env, s, acts[0]);
      RunsClose(env, Apply(env, s, acts[0]), acts[1..], t);
    }
  }

  lemma ReachableClose(env: Env, s: State)
    requires Reachable(env, s)
    ensures CloseInv(env, s)
  {
    var sent :| ReachableFrom(env, sent, s);
    var acts :| Runs(env, Init(env, sent), acts, s);
    RunsClose(env, Init(env, sent), acts, s);
  }

  predicate NoWork(s: State) {
    && s.sending == [] && s.queue == [] && !s.main.Handing?
    && forall i :: 0 <= i < |s.procs| ==> s.procs[i].Exiting? || s.procs[i].Gone?
  }

  /** In every reachable state the counter equals the pages in senders, in the queue, received and in
      goroutines; so once the watcher has seen zero there is no work anywhere, and no page is ever
      sent on the closed queue. */
  lemma CloseIsSafe(env: Env, s: State)
    requires Reachable(env, s)
    ensures s.workCount == |s.sending| + |s.queue| + MainWork(s.main) + Sum(Work, s.procs) >= 0
    ensures s.watcher.SawZero? || s.watcher.Closed? ==> NoWork(s)
    ensures s.watcher.Closed? ==> forall j :: !Enabled(env, s, Send(j))
  {
    ReachableClose(env, s);
    if s.workCount == 0 {
      ZeroMeansIdle(s);
    }
  }

  /** Once the seeds are queued, a counter of zero stays zero. */
  lemma ZeroIsStable(env: Env, s: State, a: Action)
    requires Reachable(env, s) && !s.main.Seeding? && s.workCount == 0 && Enabled(env, s, a)
    ensures Apply(env, s, a).workCount == 0
  {
    ReachableClose(env, s);
    ZeroMeansIdle(s);
  }

  // ---------- One URL without interference ----------

  /** The steps of one feeder until it is done with the first URL of its list. */
  function FeedAlone(env: Env, s: State, feed: Feed): FeedStep
    requires feed.todo != []
    decreases match feed.stage case Examine => 4 case Unvisited => 3 case Marked => 2 case Counted => 1
  {
    var r := StepFeed(env, s, feed);
    if r.FeedError? || r.feed.stage.Examine? then r else FeedAlone(env, r.state, r.feed)
  }

  /** Uninterrupted, the steps of the protocol do to a URL what one call of queueForCrawl does. */
  lemma FeedAloneIsQueueForCrawl(env: Env, s: State, feed: Feed)
    requires feed.todo != [] && feed.stage.Examine?
    ensures var url, key := feed.todo[0], NormalizeURL(feed.todo[0]);
            var r, rest := FeedAlone(env, s, feed), Feed(feed.todo[1..], feed.depth, Examine);
            var within, scope := feed.depth <= env.maxDepth, env.scope(url);
            && (r.FeedError? <==> within && scope == ScopeError)
            && (within && scope == InScope && !env.excluded(url) && key !in s.visited ==>
                  r == Fed(s.(visited := s.visited + {key}, workCount := s.workCount + 1,
                              sending := s.sending + [Page(url, feed.depth)], queued := s.queued + [key]), rest))
            && (!within || scope == OutOfScope || (scope == InScope && (env.excluded(url) || key in s.visited)) ==>
                  r == Fed(s, rest))
  {
    var r1 := StepFeed(env, s, feed);
    if r1.Fed? && r1.feed.stage.Unvisited? {
      var r2 := StepFeed(env, r1.state, r1.feed);
      var r3 := StepFeed(env, r2.state, r2.feed);
      var r4 := StepFeed(env, r3.state, r3.feed);
      assert FeedAlone(env, r3.state, r3.feed) == r4;
      assert FeedAlone(env, r2.state, r2.feed) == r4;
      assert FeedAlone(env, r1.state, r1.feed) == r4;
    }
  }

  // ---------- How often a page is queued ----------

  function Count(queued: seq<Bytes>, key: Bytes): nat {
    if queued == [] then 0
    else Count(queued[..|queued| - 1], key) + if queued[|queued| - 1] == key then 1 else 0
  }

  /** The list's first URL has this key and passed the visited check. */
  predicate Past(feed: Feed, key: Bytes) {
    feed.todo != [] && !feed.stage.Examine? && NormalizeURL(feed.todo[0]) == key
  }

  /** ... and was added to the visited set. */
  predicate PastAdd(feed: Feed, key: Bytes) {
    Past(feed, key) && !feed.stage.Unvisited?
  }

  function Passing(key: Bytes): Proc -> nat {
    (p: Proc) => if p.Feeding? && Past(p.feed, key) then 1 else 0
  }

  function Adding(key: Bytes): Proc -> nat {
    (p: Proc) => if p.Feeding? && PastAdd(p.feed, key) then 1 else 0
  }

  function MainPassing(m: Main, key: Bytes): nat {
    if m.Seeding? && Past(m.feed, key) then 1 else 0
  }

  function MainAdding(m: Main, key: Bytes): nat {
    if m.Seeding? && PastAdd(m.feed, key) then 1 else 0
  }

  /** How often the key was queued or is about to be. */
  function Load(s: State, key: Bytes): nat {
    Count(s.queued, key) + Sum(Passing(key), s.procs) + MainPassing(s.main, key)
  }

  function Settled(s: State, key: Bytes): nat {
    Count(s.queued, key) + Sum(Adding(key), s.procs) + MainAdding(s.main, key)
  }

  function Bound(env: Env): nat {
    if env.maxConcurrency <= 1 then 1 else env.maxConcurrency
  }

  predicate VisitInv(env: Env, s: State, key: Bytes) {
    && (key in s.visited <==> Settled(s, key) > 0)
    && (env.maxConcurrency >= 0 ==> Load(s, key) <= Bound(env))
  }

  /** What a step of a feeder does to one key. `p` and `a` are what the two functions above say of
      the feeder, `v` and `c` whether the key is visited and how often it was queued. */
  predicate KeyEffect(s: State, t: State, key: Bytes, p: nat, a: nat, p': nat, a': nat) {
    var v, c, v', c' := key in s.visited, Count(s.queued, key), key in t.visited, Count(t.queued, key);
    || (v' == v && c' == c && p' <= p && a' == a)
    || (!v && !v' && c' == c && p == 0 && p' == 1 && a' == a)
    || (v' && c' == c && p' == p && a == 0 && a' == 1)
    || (v' == v && c' == c + 1 && p == 1 && p' == 0 && a == 1 && a' == 0)
  }

  lemma FeedKeyEffect(env: Env, s: State, feed: Feed, key: Bytes)
    requires feed.todo != [] && StepFeed(env, s, feed).Fed?
    ensures var r := StepFeed(env, s, feed);
            KeyEffect(s, r.state, key,
                      if Past(feed, key) then 1 else 0, if PastAdd(feed, key) then 1 else 0,
                      if Past(r.feed, key) then 1 else 0, if PastAdd(r.feed, key) then 1 else 0)
  {
    if feed.stage.Counted? {
      var k := NormalizeURL(feed.todo[0]);
      assert (s.queued + [k])[..|s.queued|] == s.queued;
    }
  }

  lemma ProcKeyEffect(env: Env, s: State, i: nat, choice: Choice, key: Bytes)
    requires Enabled(env, s, Proceed(i, choice))
    requires s.procs[i].Feeding? ==> WellFormedFeed(s.procs[i].feed)
    ensures var t := StepProc(env, s, i, choice);
            var p, q := s.procs[i], t.procs[i];
            KeyEffect(s, t, key, Passing(key)(p), Adding(key)(p), Passing(key)(q), Adding(key)(q))
  {
    if s.procs[i].Feeding? && s.procs[i].feed.todo != [] && StepFeed(env, s, s.procs[i].feed).Fed? {
      FeedKeyEffect(env, s, s.procs[i].feed, key);
    }
  }

  lemma ProceedVisits(env: Env, s: State, i: nat, choice: Choice, key: Bytes)
    requires CloseInv(env, s) && Enabled(env, s, Proceed(i, choice)) && VisitInv(env, s, key)
    ensures VisitInv(env, StepProc(env, s, i, choice), key)
  {
    var t := StepProc(env, s, i, choice);
    ProceedHasEffect(env, s, i, choice);
    ProcKeyEffect(env, s, i, choice, key);
    SumUpdate(Passing(key), s.procs, i, t.procs[i]);
    SumUpdate(Adding(key), s.procs, i, t.procs[i]);
    if key !in t.visited {
      ProceedKeepsClose(env, s, t, i);
      SumLe(Passing(key), Active, t.procs);
    }
  }

  lemma CallerVisits(env: Env, s: State, a: Action, key: Bytes)
    requires CloseInv(env, s) && Enabled(env, s, a) && !a.Proceed? && VisitInv(env, s, key)
    ensures VisitInv(env, Apply(env, s, a), key)
  {
    match a
    case Seed =>
      if s.main.feed.todo != [] && StepFeed(env, s, s.main.feed).Fed? {
        FeedKeyEffect(env, s, s.main.feed, key);
      }
    case Spawn =>
      SumAppend(Passing(key), s.procs, Fetching(s.main.page));
      SumAppend(Adding(key), s.procs, Fetching(s.main.page));
    case _ =>
  }

  lemma {:induction false} RunsVisits(env: Env, s: State, acts: seq<Action>, t: State, key: Bytes)
    requires CloseInv(env, s) && VisitInv(env, s, key) && Runs(env, s, acts, t)
    ensures VisitInv(env, t, key)
    decreases acts
  {
    if acts == [] {
    } else {
      CloseStep(env, s, acts[0]);
      if acts[0].Proceed? {
        ProceedVisits(env, s, acts[0].i, acts[0].choice, key);
      } else {
        CallerVisits(env, s, acts[0], key);
      }
      RunsVisits(env, Apply(env, s, acts[0]), acts[1..], t, key);
    }
  }

  lemma ReachableVisits(env: Env, s: State, key: Bytes)
    requires Reachable(env, s)
    ensures VisitInv(env, s, key)
  {
    var sent :| ReachableFrom(env, sent, s);
    var acts :| Runs(env, Init(env, sent), acts, s);
    RunsVisits(env, Init(env, sent), acts, s, key);
  }

  /** Checking and adding are separate critical sections, so a key can be queued again, but never
      more often than pages are crawled at once; with one page at a time never twice. */
  lemma QueuedAtMost(env: Env, s: State, key: Bytes)
    requires Reachable(env, s) && env.maxConcurrency >= 0
    ensures Count(s.queued, key) <= Bound(env)
    ensures env.maxConcurrency <= 1 ==> Count(s.queued, key) <= 1
  {
    ReachableVisits(env, s, key);
  }

  lemma {:induction false} CountPositive(queued: seq<Bytes>, key: Bytes)
    ensures Count(queued, key) > 0 <==> key in queued
  {
    if queued == [] {
    } else {
      CountPositive(queued[..|queued| - 1], key);
      assert queued == queued[..|queued| - 1] + [queued[|queued| - 1]];
    }
  }

  /** TotalPagesCrawled is the number of different keys queued: when the crawl returns, the visited
      set holds exactly them; and with one page at a time each was queued exactly once. */
  lemma VisitedIsQueued(env: Env, s: State)
    requires Reachable(env, s) && s.main.Returned?
    ensures forall key :: key in s.visited <==> key in s.queued
    ensures s.visited == (set key | key in s.queued)
    ensures 0 <= env.maxConcurrency <= 1 ==> forall key :: key in s.visited ==> Count(s.queued, key) == 1
  {
    ReachableClose(env, s);
    CloseIsSafe(env, s);
    assert NoWork(s);
    forall key ensures key in s.visited <==> key in s.queued
               ensures 0 <= env.maxConcurrency <= 1 && key in s.visited ==> Count(s.queued, key) == 1 {
      ReachableVisits(env, s, key);
      CountPositive(s.queued, key);
      assert forall i :: 0 <= i < |s.procs| ==> Adding(key)(s.procs[i]) == 0;
      SumZero(Adding(key), s.procs);
    }
  }
}
