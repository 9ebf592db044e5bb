/** What a crawl may ask for: pages in scope, not excluded and no deeper than the maximum. */
module CrawlScope {
  import opened CrawlRuns
  import opened CrawlProtocol
  import opened CrawlTheorems

  predicate Allowed(env: Env, page: Page) {
    page.depth <= env.maxDepth && env.scope(page.url) == InScope && !env.excluded(page.url)
  }

  /** A page some part of the crawl has in hand. */
  ghost predicate InHand(s: State, page: Page) {
    || page in s.sending || page in s.queue || s.main == Handing(page)
    || exists i :: 0 <= i < |s.procs| && (s.procs[i] == Fetching(page) || s.procs[i] == Requesting(page))
  }

  /** Past the checks a URL is allowed. */
  predicate FeedAllowed(env: Env, feed: Feed) {
    feed.todo != [] && !feed.stage.Examine? ==> Allowed(env, Page(feed.todo[0], feed.depth))
  }

  predicate ProcAllowed(env: Env, p: Proc) {
    match p
    case Fetching(page) => Allowed(env, page)
    case Requesting(page) => Allowed(env, page)
    case Feeding(feed) => FeedAllowed(env, feed)
    case _ => true
  }

  predicate MainAllowed(env: Env, m: Main) {
    match m
    case Seeding(feed) => FeedAllowed(env, feed)
    case Handing(page) => Allowed(env, page)
    case _ => true
  }

  ghost predicate AllowedInv(env: Env, s: State) {
    && MainAllowed(env, s.main)
    && (forall i :: 0 <= i < |s.procs| ==> ProcAllowed(env, s.procs[i]))
    && (forall page :: page in s.sending || page in s.queue || page in s.answered ==> Allowed(env, page))
    && (forall url :: url in s.fetched ==> env.scope(url) == InScope && !env.excluded(url))
  }

  lemma FeedStaysAllowed(env: Env, s: State, feed: Feed)
    requires AllowedInv(env, s) && FeedAllowed(env, feed) && feed.todo != [] && StepFeed(env, s, feed).Fed?
    ensures var r := StepFeed(env, s, feed);
            && FeedAllowed(env, r.feed)
            && r.state == s.(visited := r.state.visited, workCount := r.state.workCount,
                             sending := r.state.sending, queued := r.state.queued)
            && forall page :: page in r.state.sending ==> Allowed(env, page)
  {
  }

  lemma ProceedAllowed(env: Env, s: State, i: nat, choice: Choice)
    requires AllowedInv(env, s) && Enabled(env, s, Proceed(i, choice))
    ensures AllowedInv(env, StepProc(env, s, i, choice))
  {
    assert ProcAllowed(env, s.procs[i]);
    if s.procs[i].Feeding? && s.procs[i].feed.todo != [] && StepFeed(env, s, s.procs[i].feed).Fed? {
      FeedStaysAllowed(env, s, s.procs[i].feed);
    }
  }

  lemma CallerAllowed(env: Env, s: State, a: Action)
    requires AllowedInv(env, s) && Enabled(env, s, a) && !a.Proceed?
    ensures AllowedInv(env, Apply(env, s, a))
  {
    if a.Seed? && s.main.feed.todo != [] && StepFeed(env, s, s.main.feed).Fed? {
      FeedStaysAllowed(env, s, s.main.feed);
    }
  }

  lemma {:induction false} RunsAllowed(env: Env, s: State, acts: seq<Action>, t: State)
    requires AllowedInv(env, s) && Runs(env, s, acts, t)
    ensures AllowedInv(env, t)
    decreases acts
  {
    if acts == [] {
    } else {
      if acts[0].Proceed? {
        ProceedAllowed(env, s, acts[0].i, acts[0].choice);
      } else {
        CallerAllowed(env, s, acts[0]);
      }
      RunsAllowed(env, Apply(env, s, acts[0]), acts[1..], t);
    }
  }

  /** In every reachable state, whatever went wrong, each page on its way or answered is within the
      maximum depth, in scope and not excluded, and so is each URL the client was asked for. */
  lemma OnlyAllowedPages(env: Env, t: State)
    requires Reachable(env, t)
    ensures forall page | InHand(t, page) || page in t.answered ::
              page.depth <= env.maxDepth && env.scope(page.url) == InScope && !env.excluded(page.url)
    ensures forall url | url in t.fetched :: env.scope(url) == InScope && !env.excluded(url)
  {
    var sent :| ReachableFrom(env, sent, t);
    var acts :| Runs(env, Init(env, sent), acts, t);
    RunsAllowed(env, Init(env, sent), acts, t);
    forall page | InHand(t, page) ensures Allowed(env, page) {
      if i :| 0 <= i < |t.procs| && (t.procs[i] == Fetching(page) || t.procs[i] == Requesting(page)) {
        assert ProcAllowed(env, t.procs[i]);
      }
    }
  }
}
