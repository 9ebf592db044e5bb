/** What seeding a crawl queues, and what follows from the seeds alone. */
module CrawlSeeds {
  import opened Sequences
  import opened ByteStrings
  import opened UrlNormalization
  import opened CrawlRuns
  import opened CrawlProtocol
  import opened CrawlSteps
  import opened CrawlTheorems
  import opened CrawlTermination
  import opened CrawlDuplicates

  /** The keys of the eligible seeds, in order. */
  function SeedKeys(env: Env, seeds: seq<Bytes>): seq<Bytes> {
    if seeds == [] then []
    else
      var last := seeds[|seeds| - 1];
      SeedKeys(env, seeds[..|seeds| - 1]) + if Eligible(env, last, 0) then [NormalizeURL(last)] else []
  }

  lemma {:induction false} NoSeedKeys(env: Env, seeds: seq<Bytes>)
    ensures SeedKeys(env, seeds) == [] <==> forall url :: url in seeds ==> !Eligible(env, url, 0)
  {
    if seeds == [] {
    } else {
      var init, last := seeds[..|seeds| - 1], seeds[|seeds| - 1];
      assert seeds == init + [last];
      NoSeedKeys(env, init);
    }
  }

  // ---------- The seeding loop ----------

  predicate Added(feed: Feed) {
    feed.stage.Marked? || feed.stage.Counted?
  }

  /** Seeding has queued the keys of the seeds behind it, each once. */
  ghost predicate Seeded(env: Env, s: State, k: nat)
    requires k <= |env.seeds| && s.main.Seeding?
  {
    var feed := s.main.feed;
    && feed.todo == env.seeds[k..] && feed.depth == 0 && WellFormedFeed(feed)
    && s.queued == Dedup(SeedKeys(env, env.seeds[..k]))
    && (!feed.stage.Examine? ==> Eligible(env, feed.todo[0], 0) && NormalizeURL(feed.todo[0]) !in s.queued)
    && s.visited == Elements(s.queued) + if Added(feed) then {NormalizeURL(feed.todo[0])} else {}
  }

  /** ... and once it is over, they stay in front; nothing follows before a page is crawled. */
  ghost predicate SeedInv(env: Env, s: State) {
    if s.main.Seeding? then exists k :: 0 <= k <= |env.seeds| && Seeded(env, s, k)
    else
      || s.main.Aborted?
      || (Dedup(SeedKeys(env, env.seeds)) <= s.queued
          && (s.procs == [] ==> s.queued == Dedup(SeedKeys(env, env.seeds))))
  }

  lemma OneMoreSeed(env: Env, k: nat)
    requires k < |env.seeds|
    ensures var url, before := env.seeds[k], Dedup(SeedKeys(env, env.seeds[..k]));
            Dedup(SeedKeys(env, env.seeds[..k + 1]))
            == if Eligible(env, url, 0) then AppendNew(before, NormalizeURL(url)) else before
    ensures env.seeds[k..] != [] && env.seeds[k..][0] == env.seeds[k] && env.seeds[k..][1..] == env.seeds[k + 1..]
  {
    var keys := SeedKeys(env, env.seeds[..k]);
    assert env.seeds[..k + 1][..k] == env.seeds[..k];
    assert SeedKeys(env, env.seeds[..k + 1])
        == keys + if Eligible(env, env.seeds[k], 0) then [NormalizeURL(env.seeds[k])] else [];
    assert keys + [] == keys;
    DedupSnoc(SeedKeys(env, env.seeds[..k]), NormalizeURL(env.seeds[k]));
  }

  lemma SeedingEnds(env: Env, s: State)
    requires s.main.Seeding? && Seeded(env, s, |env.seeds|)
    ensures SeedInv(env, Apply(env, s, Seed))
  {
    assert env.seeds[..|env.seeds|] == env.seeds && s.main.feed.todo == [];
  }

  lemma SeedExamined(env: Env, s: State, k: nat)
    requires s.main.Seeding? && k < |env.seeds| && Seeded(env, s, k) && s.main.feed.stage.Examine?
    ensures SeedInv(env, Apply(env, s, Seed))
  {
    var t := Apply(env, s, Seed);
    OneMoreSeed(env, k);
    if t.main.Seeding? {
      assert Seeded(env, t, if t.main.feed.stage.Unvisited? then k else k + 1);
    }
  }

  lemma SeedAdded(env: Env, s: State, k: nat)
    requires s.main.Seeding? && k < |env.seeds| && Seeded(env, s, k)
    requires s.main.feed.stage.Unvisited? || s.main.feed.stage.Marked?
    ensures SeedInv(env, Apply(env, s, Seed))
  {
    OneMoreSeed(env, k);
    assert Seeded(env, Apply(env, s, Seed), k);
  }

  lemma SeedQueued(env: Env, s: State, k: nat)
    requires s.main.Seeding? && k < |env.seeds| && Seeded(env, s, k) && s.main.feed.stage.Counted?
    ensures SeedInv(env, Apply(env, s, Seed))
  {
    var key := NormalizeURL(env.seeds[k]);
    OneMoreSeed(env, k);
    assert Elements(s.queued + [key]) == Elements(s.queued) + {key};
    assert Seeded(env, Apply(env, s, Seed), k + 1);
  }

  lemma SeedingStep(env: Env, s: State, k: nat)
    requires s.main.Seeding? && k <= |env.seeds| && Seeded(env, s, k)
    ensures SeedInv(env, Apply(env, s, Seed))
  {
    if k == |env.seeds| {
      SeedingEnds(env, s);
    } else {
      match s.main.feed.stage
      case Examine => SeedExamined(env, s, k);
      case Unvisited => SeedAdded(env, s, k);
      case Marked => SeedAdded(env, s, k);
      case Counted => SeedQueued(env, s, k);
    }
  }

  lemma QueuedGrows(env: Env, s: State, a: Action)
    requires Enabled(env, s, a)
    ensures s.queued <= Apply(env, s, a).queued
  {
  }

  lemma SeedStep(env: Env, s: State, a: Action)
    requires CloseInv(env, s) && SeedInv(env, s) && Enabled(env, s, a)
    ensures SeedInv(env, Apply(env, s, a))
  {
    if s.main.Seeding? {
      var k :| 0 <= k <= |env.seeds| && Seeded(env, s, k);
      if a.Seed? {
        SeedingStep(env, s, k);
      } else {
        assert a.Send?;
        assert Seeded(env, Apply(env, s, a), k);
      }
    } else {
      QueuedGrows(env, s, a);
    }
  }

  lemma {:induction false} RunsSeeds(env: Env, s: State, acts: seq<Action>, t: State)
    requires CloseInv(env, s) && SeedInv(env, s) && Runs(env, s, acts, t)
    ensures SeedInv(env, t)
    decreases acts
  {
    if acts == [] {
    } else {
      CloseStep(env, s, acts[0]);
      SeedStep(env, s, acts[0]);
      RunsSeeds(env, Apply(env, s, acts[0]), acts[1..], t);
    }
  }

  /** Once seeding is over the queue history starts with the keys of the eligible seeds in order, each
      once, whatever else is queued. */
  lemma SeedsComeFirst(env: Env, s: State)
    requires Reachable(env, s) && !s.main.Seeding? && !s.main.Aborted?
    ensures Dedup(SeedKeys(env, env.seeds)) <= s.queued
    ensures s.procs == [] ==> s.queued == Dedup(SeedKeys(env, env.seeds))
  {
    var sent :| ReachableFrom(env, sent, s);
    var acts :| Runs(env, Init(env, sent), acts, s);
    InitSeeded(env, sent);
    RunsSeeds(env, Init(env, sent), acts, s);
  }

  lemma InitSeeded(env: Env, sent: int)
    ensures CloseInv(env, Init(env, sent)) && SeedInv(env, Init(env, sent))
  {
    assert env.seeds[0..] == env.seeds && env.seeds[..0] == [];
    assert Elements<Bytes>([]) == {};
    assert Seeded(env, Init(env, sent), 0);
  }

  // ---------- A concurrency of zero ----------

  /** Without slots every queued page stays outstanding. */
  predicate NoSlotInv(env: Env, s: State) {
    env.maxConcurrency == 0 ==>
      s.workCount == |s.queued| + if s.main.Seeding? then FeedWork(s.main.feed) else 0
  }

  lemma {:induction false} RunsNoSlot(env: Env, s: State, acts: seq<Action>, t: State)
    requires CloseInv(env, s) && NoSlotInv(env, s) && Runs(env, s, acts, t)
    ensures NoSlotInv(env, t)
    decreases acts
  {
    if acts == [] {
    } else {
      CloseStep(env, s, acts[0]);
      RunsNoSlot(env, Apply(env, s, acts[0]), acts[1..], t);
    }
  }

  lemma NothingQueuedIff(env: Env, s: State)
    requires Reachable(env, s) && !s.main.Seeding? && !s.main.Aborted? && env.maxConcurrency == 0
    ensures s.procs == [] && s.workCount == |s.queued|
    ensures s.queued == [] <==> forall url :: url in env.seeds ==> !Eligible(env, url, 0)
  {
    var sent :| ReachableFrom(env, sent, s);
    var acts :| Runs(env, Init(env, sent), acts, s);
    ReachableClose(env, s);
    RunsNoSlot(env, Init(env, sent), acts, s);
    SeedsComeFirst(env, s);
    NoSeedKeys(env, env.seeds);
    DedupElements(SeedKeys(env, env.seeds));
    assert SeedKeys(env, env.seeds) != [] ==> SeedKeys(env, env.seeds)[0] in Dedup(SeedKeys(env, env.seeds));
  }

  /** A crawl that did not abort ends by returning exactly when a page may be crawled at all or no
      seed is eligible: with a concurrency of zero it hangs on the first page it receives. */
  lemma EndsByReturning(env: Env, s: State)
    requires Reachable(env, s) && Stuck(env, s) && !s.main.Aborted?
    ensures s.main.Returned? <==> env.maxConcurrency != 0 || forall url :: url in env.seeds ==> !Eligible(env, url, 0)
  {
    assert s.main.Seeding? ==> Enabled(env, s, Seed);
    if env.maxConcurrency != 0 {
      if !s.main.Returned? {
        Progress(env, s);
      }
    } else {
      NothingQueuedIff(env, s);
      ReachableClose(env, s);
      if !s.main.Returned? && !s.main.Handing? {
        Progress(env, s);
      }
    }
  }

  /** One eligible seed and no slot: the crawl gets stuck with the page in hand. */
  lemma HangingRun() returns (s: State)
    ensures var env := SameLink(0, 1, 1, 1);
            && env.maxConcurrency == 0 && Eligible(env, env.seeds[0], 0)
            && Reachable(env, s) && Stuck(env, s) && s.main == Handing(Page(env.seeds[0], 0)) && s.workCount == 1
  {
    var env := SameLink(0, 1, 1, 1);
    s := SeedAll(0, 1, 1, 1, 1);
    SmoothlyIsReachable(env, AllLink(), 0, s);
    assert Pages(1)[..1] == [Page(Url(0), 0)] && env.seeds[1..] == [];
    s := ReachStep(env, 0, s, Seed);
    s := ReachStep(env, 0, s, Send(0));
    s := ReachStep(env, 0, s, Receive);
  }
}
