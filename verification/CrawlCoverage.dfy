/** Whether a crawl without failures visits every page within the maximum depth. */
module CrawlCoverage {
  import opened Sequences
  import opened ByteStrings
  import opened UrlNormalization
  import opened CrawlRuns
  import opened CrawlProtocol
  import opened CrawlSteps
  import opened CrawlTheorems
  import opened CrawlTermination
  import opened CrawlSeeds
  import opened CrawlReach
  import opened CrawlChains

  /** URLs with the same key have the same links and are eligible together. */
  ghost predicate KeysAgree(env: Env, site: Bytes -> seq<Bytes>) {
    forall u, v | NormalizeURL(u) == NormalizeURL(v) ::
      site(u) == site(v) && env.scope(u) == env.scope(v) && env.excluded(u) == env.excluded(v)
  }

  ghost predicate NoScopeError(env: Env) {
    forall url :: env.scope(url) != ScopeError
  }

  // ---------- The links of an answered page ----------

  /** Some goroutine still has this link to look at. */
  predicate InFeed(procs: seq<Proc>, link: Bytes, depth: int) {
    exists i :: 0 <= i < |procs| && procs[i].Feeding? && procs[i].feed.depth == depth && link in procs[i].feed.todo
  }

  predicate Settles(env: Env, s: State, link: Bytes, depth: int) {
    Eligible(env, link, depth) ==> NormalizeURL(link) in s.visited || InFeed(s.procs, link, depth)
  }

  predicate MarkedIsVisited(s: State, p: Proc) {
    p.Feeding? && p.feed.todo != [] && Added(p.feed) ==> NormalizeURL(p.feed.todo[0]) in s.visited
  }

  /** Every eligible link of an answered page is visited or still looked at. */
  ghost predicate LinksInv(env: Env, site: Bytes -> seq<Bytes>, s: State) {
    && (forall i :: 0 <= i < |s.procs| ==>
          MarkedIsVisited(s, s.procs[i]) && (s.procs[i].Feeding? ==> WellFormedFeed(s.procs[i].feed)))
    && (forall k, link | 0 <= k < |s.answered| && link in site(s.answered[k].url) ::
          Settles(env, s, link, NextDepth(s.answered[k].depth)))
  }

  /** What one step of a goroutine does to the links it has: none is dropped unsettled. */
  lemma OwnLinks(env: Env, s: State, i: nat, choice: Choice, link: Bytes, depth: int)
    requires NoScopeError(env) && Enabled(env, s, Proceed(i, choice)) && MarkedIsVisited(s, s.procs[i])
    requires s.procs[i].Feeding? ==> WellFormedFeed(s.procs[i].feed)
    requires s.procs[i].Feeding? && s.procs[i].feed.depth == depth && link in s.procs[i].feed.todo
    ensures var t := StepProc(env, s, i, choice);
            || !Eligible(env, link, depth) || NormalizeURL(link) in t.visited
            || (t.procs[i].Feeding? && t.procs[i].feed.depth == depth && link in t.procs[i].feed.todo)
  {
    var feed := s.procs[i].feed;
    assert feed.todo == [feed.todo[0]] + feed.todo[1..];
  }

  lemma OwnMarks(env: Env, s: State, i: nat, choice: Choice)
    requires NoScopeError(env) && Enabled(env, s, Proceed(i, choice)) && MarkedIsVisited(s, s.procs[i])
    requires s.procs[i].Feeding? ==> WellFormedFeed(s.procs[i].feed)
    ensures var t := StepProc(env, s, i, choice);
            && t.procs == s.procs[i := t.procs[i]] && s.visited <= t.visited
            && MarkedIsVisited(t, t.procs[i]) && (t.procs[i].Feeding? ==> WellFormedFeed(t.procs[i].feed))
            && (t.answered == s.answered || (s.procs[i].Requesting? && t.answered == s.answered + [s.procs[i].page]))
  {
  }

  lemma KeptSettled(env: Env, s: State, i: nat, choice: Choice, link: Bytes, depth: int)
    requires NoScopeError(env) && Enabled(env, s, Proceed(i, choice)) && MarkedIsVisited(s, s.procs[i])
    requires s.procs[i].Feeding? ==> WellFormedFeed(s.procs[i].feed)
    requires Settles(env, s, link, depth)
    ensures Settles(env, StepProc(env, s, i, choice), link, depth)
  {
    var t := StepProc(env, s, i, choice);
    OwnMarks(env, s, i, choice);
    if Eligible(env, link, depth) && NormalizeURL(link) !in s.visited {
      var j :| 0 <= j < |s.procs| && s.procs[j].Feeding?
               && s.procs[j].feed.depth == depth && link in s.procs[j].feed.todo;
      if j == i {
        OwnLinks(env, s, i, choice, link, depth);
      } else {
        assert t.procs[j] == s.procs[j];
      }
    }
  }

  lemma ProceedLinks(env: Env, site: Bytes -> seq<Bytes>, s: State, i: nat, choice: Choice)
    requires NoScopeError(env) && LinksInv(env, site, s)
    requires Enabled(env, s, Proceed(i, choice)) && ServedBy(site, s, Proceed(i, choice))
    ensures LinksInv(env, site, StepProc(env, s, i, choice))
  {
    var t := StepProc(env, s, i, choice);
    OwnMarks(env, s, i, choice);
    forall k, link | 0 <= k < |t.answered| && link in site(t.answered[k].url)
      ensures Settles(env, t, link, NextDepth(t.answered[k].depth))
    {
      if k < |s.answered| {
        KeptSettled(env, s, i, choice, link, NextDepth(s.answered[k].depth));
      } else {
        assert t.procs[i].Feeding? && t.procs[i].feed.todo == site(t.answered[k].url);
      }
    }
  }

  lemma CallerLinks(env: Env, site: Bytes -> seq<Bytes>, s: State, a: Action)
    requires LinksInv(env, site, s) && Enabled(env, s, a) && !a.Proceed?
    ensures LinksInv(env, site, Apply(env, s, a))
  {
    var t := Apply(env, s, a);
    forall k, link | 0 <= k < |t.answered| && link in site(t.answered[k].url)
      ensures Settles(env, t, link, NextDepth(t.answered[k].depth))
    {
      assert Settles(env, s, link, NextDepth(s.answered[k].depth));
      if Eligible(env, link, NextDepth(s.answered[k].depth)) && NormalizeURL(link) !in s.visited {
        var depth := NextDepth(s.answered[k].depth);
        var j :| 0 <= j < |s.procs| && s.procs[j].Feeding?
                 && s.procs[j].feed.depth == depth && link in s.procs[j].feed.todo;
        assert t.procs[j] == s.procs[j];
      }
    }
  }

  lemma {:induction false} RunsLinks(env: Env, site: Bytes -> seq<Bytes>, s: State, acts: seq<Action>, t: State)
    requires NoScopeError(env) && LinksInv(env, site, s) && RunsOn(env, site, s, acts, t)
    ensures LinksInv(env, site, t)
    decreases acts
  {
    if acts == [] {
    } else {
      if acts[0].Proceed? {
        ProceedLinks(env, site, s, acts[0].i, acts[0].choice);
      } else {
        CallerLinks(env, site, s, acts[0]);
      }
      RunsLinks(env, site, Apply(env, s, acts[0]), acts[1..], t);
    }
  }

  /** When a crawl returns, every eligible link of every page that answered is visited, whatever else
      failed. */
  lemma AnsweredLinksVisited(env: Env, site: Bytes -> seq<Bytes>, before: int, acts: seq<Action>, t: State,
                             page: Page, link: Bytes)
    requires NoScopeError(env) && RunsOn(env, site, Init(env, before), acts, t) && t.main.Returned?
    requires page in t.answered && link in site(page.url) && Eligible(env, link, NextDepth(page.depth))
    ensures NormalizeURL(link) in t.visited
  {
    RunsLinks(env, site, Init(env, before), acts, t);
    RunsOnRun(env, site, Init(env, before), acts, t);
    assert ReachableFrom(env, before, t) && Reachable(env, t);
    CloseIsSafe(env, t);
    ReachableClose(env, t);
    assert NoWork(t);
    var k :| 0 <= k < |t.answered| && t.answered[k] == page;
    assert Settles(env, t, link, NextDepth(page.depth));
  }

  lemma {:induction false} RunsOnRun(env: Env, site: Bytes -> seq<Bytes>, s: State, acts: seq<Action>, t: State)
    requires RunsOn(env, site, s, acts, t)
    ensures Runs(env, s, acts, t)
    decreases acts
  {
    if acts == [] {
    } else {
      RunsOnRun(env, site, Apply(env, s, acts[0]), acts[1..], t);
    }
  }

  // ---------- Where queued pages go when nothing fails ----------

  predicate Pending(s: State, page: Page) {
    || page in s.sending || page in s.queue || s.main == Handing(page)
    || exists i :: 0 <= i < |s.procs| && (s.procs[i] == Fetching(page) || s.procs[i] == Requesting(page))
  }

  predicate Tracked(s: State, page: Page) {
    Pending(s, page) || page in s.answered
  }

  lemma SendTracked(env: Env, s: State, j: nat, page: Page)
    requires Enabled(env, s, Send(j)) && Tracked(s, page)
    ensures Tracked(Apply(env, s, Send(j)), page)
  {
    var t := Apply(env, s, Send(j));
    assert s.sending == s.sending[..j] + [s.sending[j]] + s.sending[j + 1..];
    if i :| 0 <= i < |s.procs| && (s.procs[i] == Fetching(page) || s.procs[i] == Requesting(page)) {
      assert t.procs[i] == s.procs[i];
    }
  }

  lemma ProceedTracked(env: Env, site: Bytes -> seq<Bytes>, s: State, i: nat, choice: Choice, page: Page)
    requires Enabled(env, s, Proceed(i, choice)) && Smooth(env, site, s, Proceed(i, choice)) && Tracked(s, page)
    ensures Tracked(StepProc(env, s, i, choice), page)
  {
    var t := StepProc(env, s, i, choice);
    if j :| 0 <= j < |s.procs| && (s.procs[j] == Fetching(page) || s.procs[j] == Requesting(page)) {
      if j == i {
        assert s.procs[i] == Fetching(page) ==> t.procs[i] == Requesting(page);
      } else {
        assert t.procs[j] == s.procs[j];
      }
    }
  }

  lemma CallerTracked(env: Env, s: State, a: Action, page: Page)
    requires Enabled(env, s, a) && !a.Proceed? && Tracked(s, page)
    ensures Tracked(Apply(env, s, a), page)
  {
    var t := Apply(env, s, a);
    if a.Send? {
      SendTracked(env, s, a.j, page);
    } else {
      if a.Receive? {
        assert s.queue == [s.queue[0]] + s.queue[1..];
      } else if a.Spawn? {
        assert t.procs[|s.procs|] == Fetching(s.main.page);
      }
      if i :| 0 <= i < |s.procs| && (s.procs[i] == Fetching(page) || s.procs[i] == Requesting(page)) {
        assert t.procs[i] == s.procs[i];
      }
    }
  }

  /** A page with this key, queued at depth zero if `seed` is set, is on its way or answered. */
  ghost predicate KeyTracked(s: State, key: Bytes, seed: bool) {
    exists page: Page :: NormalizeURL(page.url) == key && (seed ==> page.depth == 0) && Tracked(s, page)
  }

  lemma KeyStaysTracked(env: Env, site: Bytes -> seq<Bytes>, s: State, a: Action, key: Bytes, seed: bool)
    requires Enabled(env, s, a) && Smooth(env, site, s, a) && KeyTracked(s, key, seed)
    ensures KeyTracked(Apply(env, s, a), key, seed)
  {
    var page: Page :| NormalizeURL(page.url) == key && (seed ==> page.depth == 0) && Tracked(s, page);
    if a.Proceed? {
      ProceedTracked(env, site, s, a.i, a.choice, page);
    } else {
      CallerTracked(env, s, a, page);
    }
  }

  /** The keys queued by seeding so far. */
  function Seeds(env: Env, s: State): seq<Bytes> {
    if s.main.Seeding? then s.queued else Dedup(SeedKeys(env, env.seeds))
  }

  ghost predicate TrackInv(env: Env, s: State) {
    && !s.main.Aborted?
    && (forall key | key in s.queued :: KeyTracked(s, key, false))
    && (forall key | key in Seeds(env, s) :: KeyTracked(s, key, true))
  }

  /** A step queues at most one key, and with it its page; only seeding extends the keys of the seeds,
      at depth zero. */
  lemma NewKeyTracked(env: Env, s: State, a: Action)
    requires NoScopeError(env) && CloseInv(env, s) && SeedInv(env, s) && !s.main.Aborted? && Enabled(env, s, a)
    ensures var t := Apply(env, s, a);
            && !t.main.Aborted?
            && (forall key | key in t.queued && key !in s.queued :: KeyTracked(t, key, s.main.Seeding?))
            && (s.main.Seeding? ==> forall key | key in Seeds(env, t) :: key in t.queued)
            && (!s.main.Seeding? ==> Seeds(env, t) == Seeds(env, s))
  {
    var t := Apply(env, s, a);
    if s.main.Seeding? {
      SeedingTracked(env, s, a);
    } else if t.queued != s.queued {
      NewPage(env, s, a);
    }
  }

  /** What is new in the queue history is in the senders. */
  lemma NewPage(env: Env, s: State, a: Action)
    requires CloseInv(env, s) && Enabled(env, s, a) && Apply(env, s, a).queued != s.queued
    ensures var t := Apply(env, s, a);
            && |t.sending| == |s.sending| + 1
            && t.queued == s.queued + [NormalizeURL(t.sending[|s.sending|].url)]
            && Tracked(t, t.sending[|s.sending|])
            && (s.main.Seeding? ==> t.sending[|s.sending|].depth == s.main.feed.depth)
  {
    var t := Apply(env, s, a);
    assert t.sending[|s.sending|] in t.sending;
  }

  lemma SeedingTracked(env: Env, s: State, a: Action)
    requires NoScopeError(env) && CloseInv(env, s) && SeedInv(env, s) && s.main.Seeding? && Enabled(env, s, a)
    ensures var t := Apply(env, s, a);
            && !t.main.Aborted?
            && (forall key | key in t.queued && key !in s.queued :: KeyTracked(t, key, true))
            && (forall key | key in Seeds(env, t) :: key in t.queued)
  {
    var k :| 0 <= k <= |env.seeds| && Seeded(env, s, k);
    SeedStep(env, s, a);
    if Apply(env, s, a).queued != s.queued {
      NewPage(env, s, a);
    }
  }

  lemma TrackStep(env: Env, site: Bytes -> seq<Bytes>, s: State, a: Action)
    requires NoScopeError(env) && CloseInv(env, s) && SeedInv(env, s) && TrackInv(env, s)
    requires Enabled(env, s, a) && Smooth(env, site, s, a)
    ensures TrackInv(env, Apply(env, s, a))
  {
    var t := Apply(env, s, a);
    NewKeyTracked(env, s, a);
    forall key | key in t.queued ensures KeyTracked(t, key, false) {
      if key in s.queued {
        KeyStaysTracked(env, site, s, a, key, false);
      } else {
        assert KeyTracked(t, key, s.main.Seeding?);
      }
    }
    forall key | key in Seeds(env, t) ensures KeyTracked(t, key, true) {
      if key in Seeds(env, s) {
        KeyStaysTracked(env, site, s, a, key, true);
      } else {
        assert s.main.Seeding? && key in t.queued && key !in s.queued;
      }
    }
  }

  lemma {:induction false} RunsTracked(env: Env, site: Bytes -> seq<Bytes>, s: State, acts: seq<Action>, t: State)
    requires NoScopeError(env) && CloseInv(env, s) && SeedInv(env, s) && TrackInv(env, s)
    requires SmoothRuns(env, site, s, acts, t)
    ensures TrackInv(env, t) && RunsOn(env, site, s, acts, t)
    decreases acts
  {
    if acts == [] {
    } else {
      CloseStep(env, s, acts[0]);
      SeedStep(env, s, acts[0]);
      TrackStep(env, site, s, acts[0]);
      RunsTracked(env, site, Apply(env, s, acts[0]), acts[1..], t);
    }
  }

  /** When a crawl without failures returns, every key queued belongs to a page that answered, and every
      key of a seed to one that answered at depth zero. */
  lemma QueuedIsAnswered(env: Env, site: Bytes -> seq<Bytes>, acts: seq<Action>, t: State, key: Bytes, seed: bool)
    returns (page: Page)
    requires NoScopeError(env) && SmoothRuns(env, site, Init(env, 0), acts, t) && t.main.Returned?
    requires if seed then key in Dedup(SeedKeys(env, env.seeds)) else key in t.queued
    ensures page in t.answered && NormalizeURL(page.url) == key && (seed ==> page.depth == 0)
    ensures RunsOn(env, site, Init(env, 0), acts, t)
  {
    InitSeeded(env, 0);
    RunsTracked(env, site, Init(env, 0), acts, t);
    assert KeyTracked(t, key, seed);
    page :| NormalizeURL(page.url) == key && (seed ==> page.depth == 0) && Tracked(t, page);
    SmoothRunsRun(env, site, Init(env, 0), acts, t);
    assert ReachableFrom(env, 0, t) && Reachable(env, t);
    CloseIsSafe(env, t);
    ReachableClose(env, t);
    assert NoWork(t);
  }

  // ---------- Coverage ----------

  ghost predicate Covers(env: Env, site: Bytes -> seq<Bytes>, t: State) {
    forall url, depth: nat | ChainTo(env, site, url, depth) :: NormalizeURL(url) in t.visited
  }

  lemma {:induction false} SeedKeysMember(env: Env, seeds: seq<Bytes>, url: Bytes)
    requires url in seeds && Eligible(env, url, 0)
    ensures NormalizeURL(url) in SeedKeys(env, seeds)
  {
    var init, last := seeds[..|seeds| - 1], seeds[|seeds| - 1];
    assert seeds == init + [last];
    if url in init {
      SeedKeysMember(env, init, url);
    }
  }

  lemma SeedVisited(env: Env, t: State, url: Bytes)
    requires Reachable(env, t) && t.main.Returned? && url in env.seeds && Eligible(env, url, 0)
    ensures NormalizeURL(url) in Dedup(SeedKeys(env, env.seeds)) && NormalizeURL(url) in t.visited
  {
    SeedKeysMember(env, env.seeds, url);
    DedupElements(SeedKeys(env, env.seeds));
    SeedsComeFirst(env, t);
    VisitedIsQueued(env, t);
  }

  /** Depths never decide whether a link is dropped. */
  predicate DepthIsNoMatter(maxDepth: int) {
    maxDepth <= 1 || maxDepth == MAX_INT32
  }

  lemma LinkVisited(env: Env, site: Bytes -> seq<Bytes>, acts: seq<Action>, t: State, up: Bytes, url: Bytes, depth: nat)
    requires DepthIsNoMatter(env.maxDepth) && NoScopeError(env) && KeysAgree(env, site)
    requires SmoothRuns(env, site, Init(env, 0), acts, t) && t.main.Returned?
    requires depth >= 1 && Eligible(env, url, depth) && url in site(up)
    requires NormalizeURL(up) in if depth == 1 then Dedup(SeedKeys(env, env.seeds)) else t.queued
    ensures NormalizeURL(url) in t.visited
  {
    var page := QueuedIsAnswered(env, site, acts, t, NormalizeURL(up), depth == 1);
    assert site(page.url) == site(up);
    AnsweredLinksVisited(env, site, 0, acts, t, page, url);
  }

  /** Every page but a seed on an eligible chain has an eligible page before it. */
  lemma LinkBefore(env: Env, site: Bytes -> seq<Bytes>, url: Bytes, depth: nat) returns (up: Bytes)
    requires depth >= 1 && ChainTo(env, site, url, depth)
    ensures ChainTo(env, site, up, depth - 1) && url in site(up) && Eligible(env, url, depth)
    ensures depth == 1 ==> up in env.seeds && Eligible(env, up, 0)
  {
    up :| ChainTo(env, site, up, depth - 1) && url in site(up);
  }

  lemma ChainVisited(env: Env, site: Bytes -> seq<Bytes>, acts: seq<Action>, t: State, url: Bytes, depth: nat)
    requires DepthIsNoMatter(env.maxDepth) && NoScopeError(env) && KeysAgree(env, site)
    requires SmoothRuns(env, site, Init(env, 0), acts, t) && t.main.Returned? && ChainTo(env, site, url, depth)
    ensures NormalizeURL(url) in t.visited
    decreases depth
  {
    assert Reachable(env, t) by {
      SmoothRunsRun(env, site, Init(env, 0), acts, t);
      assert ReachableFrom(env, 0, t);
    }
    if depth == 0 {
      SeedVisited(env, t, url);
    } else {
      var up := LinkBefore(env, site, url, depth);
      if depth == 1 {
        SeedVisited(env, t, up);
      } else {
        ChainVisited(env, site, acts, t, up, depth - 1);
        VisitedIsQueued(env, t);
      }
      LinkVisited(env, site, acts, t, up, url, depth);
    }
  }

  // ---------- A page first met too deep ----------

  /** A chain of plain URLs up to `n` links on to one more page; a side page links to its end. */
  ghost predicate Shortcut(site: Bytes -> seq<Bytes>, n: nat, side: Bytes, lost: Bytes) {
    && (forall k: nat | k < n :: site(Url(k)) == [Url(k + 1)])
    && site(Url(n)) == [lost] && site(side) == [Url(n)]
    && NormalizeURL(side) == side && NormalizeURL(lost) == lost && side != lost
    && (forall k: nat :: NormalizeURL(Url(k)) == Url(k) && Url(k) != side && Url(k) != lost)
  }

  function TwoWays(maxDepth: int, side: Bytes): Env {
    Env(maxDepth, 1, MAX_INT32, 1, _ => InScope, _ => false, [Url(0), side], _ => 1)
  }

  lemma NotAmong(k: nat, url: Bytes)
    requires forall i: nat | i < k :: Url(i) != url
    ensures url !in Fresh(Urls(k))
  {
  }

  /** The side page waits while the first `k` pages of the chain are crawled. */
  function WaitState(k: nat, side: Bytes): State {
    var sending := if k == 0 then [Page(Url(0), 0), Page(side, 0)] else [Page(side, 0), Page(Url(k), ToInt32(k))];
    State(Ranging, Polling, AllGone(k), 2, Fresh(Urls(k + 1)) + {side}, sending, [], ToInt32(k), false,
          [Url(0), side] + Urls(k + 1)[1..], Urls(k), ChainPages(k))
  }

  function TwoSeeded(side: Bytes, sent: int): State {
    State(Seeding(Feed([], 0, Examine)), NotStarted, [], 2, {Url(0), side}, [Page(Url(0), 0), Page(side, 0)], [],
          sent, false, [Url(0), side], [], [])
  }

  lemma SeedBoth(site: Bytes -> seq<Bytes>, n: nat, side: Bytes, lost: Bytes) returns (s: State)
    requires Shortcut(site, n, side, lost)
    ensures SmoothlyReached(TwoWays(n, side), site, 0, s) && s == TwoSeeded(side, 0)
  {
    var env := TwoWays(n, side);
    SmoothStart(env, site, 0);
    s := SeedOne(env, site, 0, Init(env, 0));
    assert env.seeds[1..] == [side] && [side][1..] == [];
    s := SeedOne(env, site, 0, s);
  }

  lemma WaitStart(site: Bytes -> seq<Bytes>, n: nat, side: Bytes, lost: Bytes)
    requires Shortcut(site, n, side, lost)
    ensures SmoothlyReached(TwoWays(n, side), site, 0, WaitState(0, side))
  {
    var s := SeedBoth(site, n, side, lost);
    s := SmoothStep(TwoWays(n, side), site, 0, s, Seed);
    assert Urls(1) == [Url(0)] && Fresh([Url(0)]) == {Url(0)};
    assert s == WaitState(0, side);
  }

  function Turn(k: nat): nat {
    if k == 0 then 0 else 1
  }

  lemma WaitReady(site: Bytes -> seq<Bytes>, n: nat, side: Bytes, lost: Bytes, k: nat)
    requires Shortcut(site, n, side, lost) && k < n < MAX_INT32
    ensures var env, s := TwoWays(n, side), WaitState(k, side);
            && Quiet(env, s) && Grants(env.maxRequests, s.sent) && Raised(s.sent) == ToInt32(k + 1)
            && s.sending[Turn(k)] == Page(Url(k), ToInt32(k)) && NextDepth(ToInt32(k)) == ToInt32(k + 1) == k + 1
            && IsNew(env, s, Url(k + 1), k + 1)
  {
    RaisedTwice(k);
    NotAmong(k + 1, Url(k + 1)) by {
      assert forall i: nat :: |Url(i)| == i + 1;
    }
  }

  lemma WaitSending(k: nat, side: Bytes)
    ensures var s, t := WaitState(k, side), WaitState(k + 1, side);
            && s.sending[..Turn(k)] + s.sending[Turn(k) + 1..] == [Page(side, 0)]
            && t.sending == [Page(side, 0)] + [Page(Url(k + 1), ToInt32(k + 1))]
  {
  }

  lemma WaitQueued(k: nat, side: Bytes)
    ensures var s, t := WaitState(k, side), WaitState(k + 1, side);
            && t.queued == s.queued + [Url(k + 1)]
            && t.visited == s.visited + {Url(k + 1)}
  {
    ChainGrows(k + 1);
    assert Urls(k + 2)[1..] == Urls(k + 1)[1..] + [Url(k + 1)];
  }

  lemma WaitNext(site: Bytes -> seq<Bytes>, n: nat, side: Bytes, lost: Bytes, k: nat)
    requires Shortcut(site, n, side, lost) && k < n < MAX_INT32
    ensures PageVisited(TwoWays(n, side), WaitState(k, side), Turn(k), Url(k + 1)) == WaitState(k + 1, side)
  {
    WaitReady(site, n, side, lost, k);
    ChainGrows(k);
    WaitSending(k, side);
    WaitQueued(k, side);
  }

  lemma {:induction false} WaitAll(site: Bytes -> seq<Bytes>, n: nat, side: Bytes, lost: Bytes, k: nat)
    requires Shortcut(site, n, side, lost) && k <= n < MAX_INT32
    ensures SmoothlyReached(TwoWays(n, side), site, 0, WaitState(k, side))
  {
    if k == 0 {
      WaitStart(site, n, side, lost);
    } else {
      WaitAll(site, n, side, lost, k - 1);
      WaitReady(site, n, side, lost, k - 1);
      WaitNext(site, n, side, lost, k - 1);
      var t := VisitOne(TwoWays(n, side), site, 0, WaitState(k - 1, side), Turn(k - 1), Url(k));
    }
  }

  /** The end of the chain drops its link ... */
  lemma DropRun(site: Bytes -> seq<Bytes>, n: nat, side: Bytes, lost: Bytes) returns (s: State)
    requires Shortcut(site, n, side, lost) && 1 <= n < MAX_INT32
    ensures SmoothlyReached(TwoWays(n, side), site, 0, s) && Quiet(TwoWays(n, side), s) && !s.failed
    ensures s.sending == [Page(side, 0)] && s.workCount == 1 && lost !in s.visited && Url(n) in s.visited
  {
    WaitAll(site, n, side, lost, n);
    var t := WaitState(n, side);
    assert NextDepth(n) == n + 1 && t.sending == [Page(side, 0), Page(Url(n), n)];
    s := VisitOne(TwoWays(n, side), site, 0, t, 1, lost);
    NotAmong(n + 1, lost);
    ChainGrows(n);
  }

  /** ... and the side page then finds that end visited. */
  lemma LostRun(site: Bytes -> seq<Bytes>, n: nat, side: Bytes, lost: Bytes) returns (s: State)
    requires Shortcut(site, n, side, lost) && 2 <= n < MAX_INT32
    ensures SmoothlyReached(TwoWays(n, side), site, 0, s) && s.main == Returned(false)
    ensures ChainTo(TwoWays(n, side), site, lost, 2) && NormalizeURL(lost) !in s.visited
  {
    LostIsNear(site, n, side, lost);
    s := DropRun(site, n, side, lost);
    s := VisitOne(TwoWays(n, side), site, 0, s, 0, Url(n));
    assert s.sending == [];
    s := WindDown(TwoWays(n, side), site, s);
  }

  lemma WindDown(env: Env, site: Bytes -> seq<Bytes>, s: State) returns (t: State)
    requires SmoothlyReached(env, site, 0, s) && Quiet(env, s) && s.sending == [] && s.workCount == 0
    ensures SmoothlyReached(env, site, 0, t) && t.main == Returned(s.failed) && t.visited == s.visited
  {
    t := SmoothStep(env, site, 0, s, Poll);
    t := SmoothStep(env, site, 0, t, Close);
    t := SmoothStep(env, site, 0, t, RangeEnds);
    t := SmoothStep(env, site, 0, t, Join);
  }

  lemma LostIsNear(site: Bytes -> seq<Bytes>, n: nat, side: Bytes, lost: Bytes)
    requires Shortcut(site, n, side, lost) && n >= 2
    ensures ChainTo(TwoWays(n, side), site, lost, 2)
  {
    var env := TwoWays(n, side);
    ChainStart(env, site, side);
    ChainOn(env, site, side, Url(n), 0);
    ChainOn(env, site, Url(n), lost, 1);
  }

  lemma ChainStart(env: Env, site: Bytes -> seq<Bytes>, url: Bytes)
    requires url in env.seeds && Eligible(env, url, 0)
    ensures ChainTo(env, site, url, 0)
  {
  }

  lemma ChainOn(env: Env, site: Bytes -> seq<Bytes>, up: Bytes, url: Bytes, depth: nat)
    requires ChainTo(env, site, up, depth) && url in site(up) && Eligible(env, url, depth + 1)
    ensures ChainTo(env, site, url, depth + 1)
  {
  }

  function LinksOf(n: nat, side: Bytes, lost: Bytes, key: Bytes): seq<Bytes> {
    if key == side then [Url(n)] else if |key| <= n then [Url(|key|)] else [lost]
  }

  lemma PlainApart(side: Bytes, lost: Bytes)
    requires side != [] && lost != [] && forall c :: c in side || c in lost ==> c == 98
    ensures NormalizeURL(side) == side && NormalizeURL(lost) == lost
    ensures forall k: nat :: NormalizeURL(Url(k)) == Url(k) && Url(k) != side && Url(k) != lost
  {
    PlainKey(side);
    PlainKey(lost);
    assert side[0] in side && lost[0] in lost;
    forall k: nat ensures NormalizeURL(Url(k)) == Url(k) && Url(k) != side && Url(k) != lost {
      PlainKey(Url(k));
      assert Url(k)[0] == 97;
    }
  }

  lemma ShortcutExists(n: nat, side: Bytes, lost: Bytes) returns (site: Bytes -> seq<Bytes>)
    requires NormalizeURL(side) == side && NormalizeURL(lost) == lost && side != lost
    requires forall k: nat :: NormalizeURL(Url(k)) == Url(k) && Url(k) != side && Url(k) != lost
    ensures Shortcut(site, n, side, lost) && KeysAgree(TwoWays(n, side), site)
  {
    var next := (key: Bytes) => LinksOf(n, side, lost, key);
    site := url => next(NormalizeURL(url));
    assert forall k: nat :: |Url(k)| == k + 1;
  }

  // ---------- When every page within the maximum depth is visited ----------

  /** All crawls with this maximum depth in which nothing fails visit every key that a chain of at most
      that many eligible links leads to. */
  ghost predicate AlwaysCovers(maxDepth: int) {
    forall env: Env, site: Bytes -> seq<Bytes>, acts: seq<Action>, t: State |
      env.maxDepth == maxDepth && NoScopeError(env) && KeysAgree(env, site)
      && SmoothRuns(env, site, Init(env, 0), acts, t) && t.main.Returned? ::
      Covers(env, site, t)
  }

  /** They do exactly when the maximum depth is at most one or the largest int32: a page is looked at for
      links once, at the depth it was first met, which need not be the least. */
  lemma AlwaysCoversIff(maxDepth: int)
    requires MIN_INT32 <= maxDepth <= MAX_INT32
    ensures AlwaysCovers(maxDepth) <==> DepthIsNoMatter(maxDepth)
  {
    if DepthIsNoMatter(maxDepth) {
      forall env: Env, site: Bytes -> seq<Bytes>, acts: seq<Action>, t: State |
        env.maxDepth == maxDepth && NoScopeError(env) && KeysAgree(env, site)
        && SmoothRuns(env, site, Init(env, 0), acts, t) && t.main.Returned?
        ensures Covers(env, site, t)
      {
        forall url, depth: nat | ChainTo(env, site, url, depth) ensures NormalizeURL(url) in t.visited {
          ChainVisited(env, site, acts, t, url, depth);
        }
      }
    } else {
      NotCovered(maxDepth);
    }
  }

  lemma NotCovered(maxDepth: int)
    requires 2 <= maxDepth < MAX_INT32
    ensures !AlwaysCovers(maxDepth)
  {
    var side: Bytes, lost: Bytes := [98], [98, 98];
    var env := TwoWays(maxDepth, side);
    PlainApart(side, lost);
    var site := ShortcutExists(maxDepth, side, lost);
    var t := LostRun(site, maxDepth, side, lost);
    var acts :| SmoothRuns(env, site, Init(env, 0), acts, t);
    assert !Covers(env, site, t);
    assert env.maxDepth == maxDepth && NoScopeError(env);
  }
}
