/** Every interleaving of a crawl (common/clients/httpcrawler): the caller, the watcher, the page
    goroutines and the detached senders. Each critical section and channel operation is one step. */
module CrawlProtocol {
  import opened ByteStrings
  import opened UrlNormalization
  import opened CrawlRuns

  const QUEUE_CAPACITY: nat := 500

  /** Where queueForCrawl stands with the first URL of the list: still to examine, found unvisited,
      added to the visited set, or counted as work but not yet handed to a sender. */
  datatype Stage = Examine | Unvisited | Marked | Counted

  /** A list of URLs being queued at one depth. */
  datatype Feed = Feed(todo: seq<Bytes>, depth: int, stage: Stage)

  datatype Proc =
    | Fetching(page: Page)
    | Requesting(page: Page)
    | Feeding(feed: Feed)
    | Finishing(failed: bool)
    | Exiting(failed: bool)
    | Gone

  datatype Main =
    | Seeding(feed: Feed)
    | Aborted
    | Ranging
    | Handing(page: Page)
    | Joining
    | Returned(failed: bool)

  datatype Watcher = NotStarted | Polling | SawZero | Closed

  /** `sent` is the counter of requests. The fields from `queued` on are history: the keys of the pages
      queued, the URLs the client was asked for, and the pages that answered with links, in order. */
  datatype State = State(
    main: Main,
    watcher: Watcher,
    procs: seq<Proc>,
    workCount: int,
    visited: set<Bytes>,
    sending: seq<Page>,
    queue: seq<Page>,
    sent: int,
    failed: bool,
    queued: seq<Bytes>,
    fetched: seq<Bytes>,
    answered: seq<Page>)

  datatype Choice = Go | Stop(failed: bool) | Links(links: seq<Bytes>)

  datatype Action =
    | Seed
    | Proceed(i: nat, choice: Choice)
    | Send(j: nat)
    | Receive
    | Spawn
    | RangeEnds
    | Join
    | Poll
    | Close

  function Init(env: Env, sent: int): State {
    State(Seeding(Feed(env.seeds, 0, Examine)), NotStarted, [], 0, {}, [], [], sent, false, [], [], [])
  }

  // ---------- Queueing a list of URLs ----------

  /** One step of queueForCrawl; `None` is the error it returns. */
  datatype FeedStep = FeedError | Fed(state: State, feed: Feed)

  function StepFeed(env: Env, s: State, feed: Feed): FeedStep
    requires feed.todo != []
  {
    var url := feed.todo[0];
    var skipped := Feed(feed.todo[1..], feed.depth, Examine);
    match feed.stage
    case Examine =>
      if ScopeFails(env, url, feed.depth) then FeedError
      else if !Eligible(env, url, feed.depth) || NormalizeURL(url) in s.visited then Fed(s, skipped)
      else Fed(s, feed.(stage := Unvisited))
    case Unvisited => Fed(s.(visited := s.visited + {NormalizeURL(url)}), feed.(stage := Marked))
    case Marked => Fed(s.(workCount := s.workCount + 1), feed.(stage := Counted))
    case Counted =>
      Fed(s.(sending := s.sending + [Page(url, feed.depth)], queued := s.queued + [NormalizeURL(url)]), skipped)
  }

  // ---------- Steps ----------

  predicate SlotFree(env: Env, s: State) {
    env.maxConcurrency < 0 || Sum(Active, s.procs) < env.maxConcurrency
  }

  predicate Enabled(env: Env, s: State, a: Action) {
    match a
    case Seed => s.main.Seeding?
    case Proceed(i, choice) =>
      i < |s.procs| &&
      (match s.procs[i]
       case Gone => false
       case Fetching(_) => choice == Go || choice == Stop(true)
       case Requesting(_) => choice.Stop? || (choice.Links? && |choice.links| <= env.maxLinks)
       case _ => choice == Go)
    case Send(j) => j < |s.sending| && (s.watcher.Closed? || |s.queue| < QUEUE_CAPACITY)
    case Receive => s.main.Ranging? && s.queue != []
    case Spawn => s.main.Handing? && SlotFree(env, s)
    case RangeEnds => s.main.Ranging? && s.queue == [] && s.watcher.Closed?
    case Join => s.main.Joining? && forall i :: 0 <= i < |s.procs| ==> s.procs[i].Gone?
    case Poll => s.watcher.Polling? && s.workCount == 0
    case Close => s.watcher.SawZero?
  }

  function To(s: State, i: nat, p: Proc): State
    requires i < |s.procs|
  {
    s.(procs := s.procs[i := p])
  }

  function StepProc(env: Env, s: State, i: nat, choice: Choice): State
    requires Enabled(env, s, Proceed(i, choice))
  {
    match s.procs[i]
    case Fetching(page) =>
      if choice.Stop? then To(s, i, Finishing(true))
      else if !Grants(env.maxRequests, s.sent) then To(s, i, Finishing(false))
      else To(s.(sent := Raised(s.sent), fetched := s.fetched + [page.url]), i, Requesting(page))
    case Requesting(page) =>
      if choice.Stop? then To(s, i, Finishing(choice.failed))
      else To(s.(answered := s.answered + [page]), i, Feeding(Feed(choice.links, NextDepth(page.depth), Examine)))
    case Feeding(feed) =>
      if feed.todo == [] then To(s, i, Finishing(false))
      else (
        match StepFeed(env, s, feed)
        case FeedError => To(s, i, Finishing(true))
        case Fed(s', feed') => To(s', i, Feeding(feed')))
    case Finishing(failed) => To(s.(workCount := s.workCount - 1), i, Exiting(failed))
    case Exiting(failed) => To(s.(failed := s.failed || failed), i, Gone)
  }

  function Apply(env: Env, s: State, a: Action): State
    requires Enabled(env, s, a)
  {
    match a
    case Seed =>
      if s.main.feed.todo == [] then s.(main := Ranging, watcher := Polling)
      else (
        match StepFeed(env, s, s.main.feed)
        case FeedError => s.(main := Aborted)
        case Fed(s', feed') => s'.(main := Seeding(feed')))
    case Proceed(i, choice) => StepProc(env, s, i, choice)
    case Send(j) =>
      s.(sending := s.sending[..j] + s.sending[j + 1..], queue := s.queue + [s.sending[j]])
    case Receive => s.(main := Handing(s.queue[0]), queue := s.queue[1..])
    case Spawn => s.(main := Ranging, procs := s.procs + [Fetching(s.main.page)])
    case RangeEnds => s.(main := Joining)
    case Join => s.(main := Returned(s.failed))
    case Poll => s.(watcher := SawZero)
    case Close => s.(watcher := Closed)
  }

  ghost predicate Runs(env: Env, s: State, acts: seq<Action>, t: State)
    decreases acts
  {
    if acts == [] then s == t
    else Enabled(env, s, acts[0]) && Runs(env, Apply(env, s, acts[0]), acts[1..], t)
  }

  /** Some run reaches `t` on a crawler that has sent `sent` requests before. */
  ghost predicate ReachableFrom(env: Env, sent: int, t: State) {
    exists acts :: Runs(env, Init(env, sent), acts, t)
  }

  ghost predicate Reachable(env: Env, t: State) {
    exists sent :: ReachableFrom(env, sent, t)
  }

  // ---------- Sums over the page goroutines ----------

  function Sum(f: Proc -> nat, procs: seq<Proc>): nat {
    if procs == [] then 0 else f(procs[0]) + Sum(f, procs[1..])
  }

  lemma {:induction false} SumUpdate(f: Proc -> nat, procs: seq<Proc>, i: nat, p: Proc)
    requires i < |procs|
    ensures Sum(f, procs[i := p]) == Sum(f, procs) - f(procs[i]) + f(p)
  {
    if i == 0 {
      assert procs[i := p][1..] == procs[1..];
    } else {
      assert procs[i := p][1..] == procs[1..][i - 1 := p];
      SumUpdate(f, procs[1..], i - 1, p);
    }
  }

  lemma {:induction false} SumAppend(f: Proc -> nat, procs: seq<Proc>, p: Proc)
    ensures Sum(f, procs + [p]) == Sum(f, procs) + f(p)
  {
    if procs == [] {
      assert procs + [p] == [p];
    } else {
      assert (procs + [p])[1..] == procs[1..] + [p];
      SumAppend(f, procs[1..], p);
    }
  }

  lemma {:induction false} SumLe(f: Proc -> nat, g: Proc -> nat, procs: seq<Proc>)
    requires forall i :: 0 <= i < |procs| ==> f(procs[i]) <= g(procs[i])
    ensures Sum(f, procs) <= Sum(g, procs)
  {
    if procs == [] {
    } else {
      SumLe(f, g, procs[1..]);
    }
  }

  lemma {:induction false} SumZero(f: Proc -> nat, procs: seq<Proc>)
    ensures Sum(f, procs) == 0 <==> forall i :: 0 <= i < |procs| ==> f(procs[i]) == 0
  {
    if procs == [] {
    } else {
      SumZero(f, procs[1..]);
      assert forall i :: 1 <= i < |procs| ==> procs[i] == procs[1..][i - 1];
    }
  }

  function Active(p: Proc): nat {
    if p.Gone? then 0 else 1
  }

  function FeedWork(feed: Feed): nat {
    if feed.stage.Counted? then 1 else 0
  }

  /** How much of `workCount` is in one goroutine: its own page until PageDone, and a page counted
      but not yet with a sender. */
  function Work(p: Proc): nat {
    match p
    case Fetching(_) => 1
    case Requesting(_) => 1
    case Feeding(feed) => 1 + FeedWork(feed)
    case Finishing(_) => 1
    case Exiting(_) => 0
    case Gone => 0
  }

  function MainWork(m: Main): nat {
    match m
    case Seeding(feed) => FeedWork(feed)
    case Handing(_) => 1
    case _ => 0
  }

  // ---------- The invariant ----------

  /** `workCount` counts every place a page can be. */
  predicate Conserved(s: State) {
    s.workCount == |s.sending| + |s.queue| + MainWork(s.main) + Sum(Work, s.procs)
  }

  /** How far the caller and the watcher can be. */
  predicate Phases(s: State) {
    && (s.watcher.NotStarted? <==> s.main.Seeding? || s.main.Aborted?)
    && (s.main.Seeding? || s.main.Aborted? ==> s.procs == [])
    && (s.watcher.SawZero? || s.watcher.Closed? ==> s.workCount == 0)
    && (s.main.Joining? || s.main.Returned? ==> s.watcher.Closed?)
  }

  predicate WellFormedFeed(feed: Feed) {
    feed.todo == [] ==> feed.stage.Examine?
  }

  predicate Slots(env: Env, s: State) {
    && (env.maxConcurrency >= 0 ==> Sum(Active, s.procs) <= env.maxConcurrency)
    && (env.maxConcurrency == 0 ==> s.procs == [])
    && (s.main.Seeding? ==> WellFormedFeed(s.main.feed))
    && (forall i :: 0 <= i < |s.procs| && s.procs[i].Feeding? ==> WellFormedFeed(s.procs[i].feed))
  }

  predicate CloseInv(env: Env, s: State) {
    Conserved(s) && Phases(s) && Slots(env, s)
  }

  /** Without pages anywhere, nobody can make work any more. */
  lemma ZeroMeansIdle(s: State)
    requires Conserved(s) && s.workCount == 0
    ensures s.sending == [] && s.queue == [] && MainWork(s.main) == 0
    ensures forall i :: 0 <= i < |s.procs| ==> s.procs[i].Exiting? || s.procs[i].Gone?
  {
    SumZero(Work, s.procs);
  }

  /** What a step of one page goroutine does to the counters. */
  predicate ProceedEffect(s: State, t: State, i: nat) {
    && i < |s.procs| == |t.procs| && t.procs == s.procs[i := t.procs[i]]
    && t.main == s.main && t.watcher == s.watcher && t.queue == s.queue
    && !s.procs[i].Gone?
    && t.workCount - s.workCount == |t.sending| - |s.sending| + Work(t.procs[i]) - Work(s.procs[i])
    && (Work(s.procs[i]) == 0 ==> t.workCount == s.workCount)
    && (t.procs[i].Feeding? ==> WellFormedFeed(t.procs[i].feed))
  }

  lemma ProceedHasEffect(env: Env, s: State, i: nat, choice: Choice)
    requires Enabled(env, s, Proceed(i, choice))
    requires s.procs[i].Feeding? ==> WellFormedFeed(s.procs[i].feed)
    ensures ProceedEffect(s, StepProc(env, s, i, choice), i)
  {
  }

  lemma ProceedKeepsClose(env: Env, s: State, t: State, i: nat)
    requires CloseInv(env, s) && ProceedEffect(s, t, i)
    ensures CloseInv(env, t)
  {
    SumUpdate(Work, s.procs, i, t.procs[i]);
    SumUpdate(Active, s.procs, i, t.procs[i]);
    if s.workCount == 0 {
      ZeroMeansIdle(s);
    }
  }

  lemma CallerKeepsClose(env: Env, s: State, a: Action)
    requires CloseInv(env, s) && Enabled(env, s, a) && !a.Proceed?
    ensures CloseInv(env, Apply(env, s, a))
  {
    if s.workCount == 0 {
      ZeroMeansIdle(s);
    }
    if a.Spawn? {
      SumAppend(Work, s.procs, Fetching(s.main.page));
      SumAppend(Active, s.procs, Fetching(s.main.page));
    }
  }

  lemma CloseStep(env: Env, s: State, a: Action)
    requires CloseInv(env, s) && Enabled(env, s, a)
    ensures CloseInv(env, Apply(env, s, a))
  {
    if a.Proceed? {
      ProceedHasEffect(env, s, a.i, a.choice);
      ProceedKeepsClose(env, s, Apply(env, s, a), a.i);
    } else {
      CallerKeepsClose(env, s, a);
    }
  }
}
