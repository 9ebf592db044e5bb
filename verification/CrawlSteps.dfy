/** Making runs of a crawl, a few steps at a time. */
module CrawlSteps {
  import opened ByteStrings
  import opened UrlNormalization
  import opened CrawlRuns
  import opened CrawlProtocol

  /** A counter raised step by step stays the number of steps in 32 bits. */
  lemma RaisedTwice(n: nat)
    ensures Raised(ToInt32(n)) == ToInt32(n + 1)
  {
    var q := (n + 0x8000_0000) / 0x1_0000_0000;
    assert ToInt32(n) == n - q * 0x1_0000_0000;
    assert ToInt32(n) + 1 + 0x8000_0000 == (n + 1 + 0x8000_0000) - q * 0x1_0000_0000;
  }

  lemma {:induction false} RunsAppend(env: Env, s: State, acts: seq<Action>, t: State, a: Action)
    requires Runs(env, s, acts, t) && Enabled(env, t, a)
    ensures Runs(env, s, acts + [a], Apply(env, t, a))
    decreases acts
  {
    if acts == [] {
      assert acts + [a] == [a];
      assert [a][1..] == [];
    } else {
      assert (acts + [a])[1..] == acts[1..] + [a];
      RunsAppend(env, Apply(env, s, acts[0]), acts[1..], t, a);
    }
  }

  lemma ReachStep(env: Env, sent: int, s: State, a: Action) returns (t: State)
    requires ReachableFrom(env, sent, s) && Enabled(env, s, a)
    ensures t == Apply(env, s, a) && ReachableFrom(env, sent, t)
  {
    t := Apply(env, s, a);
    var acts :| Runs(env, Init(env, sent), acts, s);
    RunsAppend(env, Init(env, sent), acts, s, a);
  }

  // ---------- Runs over a site ----------

  /** Nothing goes wrong in this step: a page is granted its request, and answers with the links the
      site has for its URL. */
  predicate Smooth(env: Env, site: Bytes -> seq<Bytes>, s: State, a: Action) {
    a.Proceed? && a.i < |s.procs| ==>
      match s.procs[a.i]
      case Fetching(_) => a.choice == Go && Grants(env.maxRequests, s.sent)
      case Requesting(page) => a.choice == Links(site(page.url))
      case _ => true
  }

  ghost predicate SmoothRuns(env: Env, site: Bytes -> seq<Bytes>, s: State, acts: seq<Action>, t: State)
    decreases acts
  {
    if acts == [] then s == t
    else
      && Enabled(env, s, acts[0]) && Smooth(env, site, s, acts[0])
      && SmoothRuns(env, site, Apply(env, s, acts[0]), acts[1..], t)
  }

  ghost predicate SmoothlyReached(env: Env, site: Bytes -> seq<Bytes>, sent: int, t: State) {
    exists acts :: SmoothRuns(env, site, Init(env, sent), acts, t)
  }

  lemma {:induction false} SmoothRunsRun(env: Env, site: Bytes -> seq<Bytes>, s: State, acts: seq<Action>, t: State)
    requires SmoothRuns(env, site, s, acts, t)
    ensures Runs(env, s, acts, t)
    decreases acts
  {
    if acts == [] {
    } else {
      SmoothRunsRun(env, site, Apply(env, s, acts[0]), acts[1..], t);
    }
  }

  lemma SmoothlyIsReachable(env: Env, site: Bytes -> seq<Bytes>, sent: int, t: State)
    requires SmoothlyReached(env, site, sent, t)
    ensures ReachableFrom(env, sent, t)
  {
    var acts :| SmoothRuns(env, site, Init(env, sent), acts, t);
    SmoothRunsRun(env, site, Init(env, sent), acts, t);
  }

  lemma {:induction false} SmoothAppend(env: Env, site: Bytes -> seq<Bytes>, s: State, acts: seq<Action>, t: State,
                                        a: Action)
    requires SmoothRuns(env, site, s, acts, t) && Enabled(env, t, a) && Smooth(env, site, t, a)
    ensures SmoothRuns(env, site, s, acts + [a], Apply(env, t, a))
    decreases acts
  {
    if acts == [] {
      assert acts + [a] == [a];
      assert [a][1..] == [];
    } else {
      assert (acts + [a])[1..] == acts[1..] + [a];
      SmoothAppend(env, site, Apply(env, s, acts[0]), acts[1..], t, a);
    }
  }

  lemma SmoothStep(env: Env, site: Bytes -> seq<Bytes>, sent: int, s: State, a: Action) returns (t: State)
    requires SmoothlyReached(env, site, sent, s) && Enabled(env, s, a) && Smooth(env, site, s, a)
    ensures t == Apply(env, s, a) && SmoothlyReached(env, site, sent, t)
  {
    t := Apply(env, s, a);
    var acts :| SmoothRuns(env, site, Init(env, sent), acts, s);
    SmoothAppend(env, site, Init(env, sent), acts, s, a);
  }

  lemma SmoothStart(env: Env, site: Bytes -> seq<Bytes>, sent: int)
    ensures SmoothlyReached(env, site, sent, Init(env, sent))
  {
    assert SmoothRuns(env, site, Init(env, sent), [], Init(env, sent));
  }

  /** Queueing one eligible new seed takes four steps. */
  lemma SeedOne(env: Env, site: Bytes -> seq<Bytes>, sent: int, s: State)
      returns (t: State)
    requires SmoothlyReached(env, site, sent, s) && s.main.Seeding?
    requires s.main.feed.todo != [] && s.main.feed.stage.Examine?
    requires var url := s.main.feed.todo[0]; Eligible(env, url, s.main.feed.depth) && NormalizeURL(url) !in s.visited
    ensures SmoothlyReached(env, site, sent, t)
    ensures var url := s.main.feed.todo[0];
            t == s.(main := Seeding(Feed(s.main.feed.todo[1..], s.main.feed.depth, Examine)),
                    visited := s.visited + {NormalizeURL(url)}, workCount := s.workCount + 1,
                    sending := s.sending + [Page(url, s.main.feed.depth)], queued := s.queued + [NormalizeURL(url)])
  {
    t := SmoothStep(env, site, sent, s, Seed);
    t := SmoothStep(env, site, sent, t, Seed);
    t := SmoothStep(env, site, sent, t, Seed);
    t := SmoothStep(env, site, sent, t, Seed);
  }

  /** A page sent, received and started takes three. */
  lemma StartOne(env: Env, site: Bytes -> seq<Bytes>, sent: int, s: State)
      returns (t: State)
    requires SmoothlyReached(env, site, sent, s) && s.main.Ranging?
    requires s.sending != [] && s.queue == [] && SlotFree(env, s)
    ensures SmoothlyReached(env, site, sent, t)
    ensures t == s.(sending := s.sending[1..], procs := s.procs + [Fetching(s.sending[0])])
  {
    t := SmoothStep(env, site, sent, s, Send(0));
    assert s.sending[..0] + s.sending[1..] == s.sending[1..];
    t := SmoothStep(env, site, sent, t, Receive);
    t := SmoothStep(env, site, sent, t, Spawn);
  }

  /** A page fetched and its one new link found unvisited takes three. */
  lemma FindOne(env: Env, site: Bytes -> seq<Bytes>, sent: int, s: State, i: nat, link: Bytes)
      returns (t: State)
    requires SmoothlyReached(env, site, sent, s) && i < |s.procs| && s.procs[i].Fetching?
    requires Grants(env.maxRequests, s.sent) && env.maxLinks >= 1 && site(s.procs[i].page.url) == [link]
    requires Eligible(env, link, NextDepth(s.procs[i].page.depth)) && NormalizeURL(link) !in s.visited
    ensures SmoothlyReached(env, site, sent, t)
    ensures var page := s.procs[i].page;
            t == s.(sent := Raised(s.sent), fetched := s.fetched + [page.url], answered := s.answered + [page],
                    procs := s.procs[i := Feeding(Feed([link], NextDepth(page.depth), Unvisited))])
  {
    t := SmoothStep(env, site, sent, s, Proceed(i, Go));
    t := SmoothStep(env, site, sent, t, Proceed(i, Links([link])));
    t := SmoothStep(env, site, sent, t, Proceed(i, Go));
  }

  /** Adding, counting and handing over the link takes three. */
  lemma QueueOne(env: Env, site: Bytes -> seq<Bytes>, sent: int, s: State, i: nat)
      returns (t: State)
    requires SmoothlyReached(env, site, sent, s) && i < |s.procs| && s.procs[i].Feeding?
    requires s.procs[i].feed.todo != [] && s.procs[i].feed.stage.Unvisited?
    ensures SmoothlyReached(env, site, sent, t)
    ensures t.queued == s.queued + [NormalizeURL(s.procs[i].feed.todo[0])]
    ensures t.procs == s.procs[i := Feeding(Feed(s.procs[i].feed.todo[1..], s.procs[i].feed.depth, Examine))]
    ensures t.main == s.main && t.failed == s.failed && t.watcher == s.watcher
  {
    t := SmoothStep(env, site, sent, s, Proceed(i, Go));
    t := SmoothStep(env, site, sent, t, Proceed(i, Go));
    t := SmoothStep(env, site, sent, t, Proceed(i, Go));
  }

  // ---------- One page from the senders to its end ----------

  predicate Quiet(env: Env, s: State) {
    && s.main.Ranging? && s.watcher.Polling? && s.queue == [] && env.maxConcurrency != 0
    && forall i :: 0 <= i < |s.procs| ==> s.procs[i].Gone?
  }

  /** Nothing is under way: sender `j` hands its page over, and it is requested. */
  lemma RequestOne(env: Env, site: Bytes -> seq<Bytes>, sent: int, s: State, j: nat)
      returns (t: State)
    requires SmoothlyReached(env, site, sent, s) && Quiet(env, s) && j < |s.sending| && Grants(env.maxRequests, s.sent)
    ensures SmoothlyReached(env, site, sent, t)
    ensures t == s.(sending := s.sending[..j] + s.sending[j + 1..], sent := Raised(s.sent),
                    fetched := s.fetched + [s.sending[j].url], procs := s.procs + [Requesting(s.sending[j])])
  {
    SumZero(Active, s.procs);
    t := SmoothStep(env, site, sent, s, Send(j));
    t := SmoothStep(env, site, sent, t, Receive);
    t := SmoothStep(env, site, sent, t, Spawn);
    t := SmoothStep(env, site, sent, t, Proceed(|s.procs|, Go));
    assert t.procs == s.procs + [Requesting(s.sending[j])];
  }

  /** The last page requested answers with one link. */
  lemma AnswerOne(env: Env, site: Bytes -> seq<Bytes>, sent: int, s: State, link: Bytes)
      returns (t: State)
    requires SmoothlyReached(env, site, sent, s) && env.maxLinks >= 1
    requires s.procs != [] && s.procs[|s.procs| - 1].Requesting?
    requires site(s.procs[|s.procs| - 1].page.url) == [link]
    ensures SmoothlyReached(env, site, sent, t)
    ensures var i := |s.procs| - 1;
            t == s.(answered := s.answered + [s.procs[i].page],
                    procs := s.procs[i := Feeding(Feed([link], NextDepth(s.procs[i].page.depth), Examine))])
  {
    t := SmoothStep(env, site, sent, s, Proceed(|s.procs| - 1, Links([link])));
  }

  predicate LastFeeds(s: State) {
    && s.procs != [] && s.procs[|s.procs| - 1].Feeding?
    && s.procs[|s.procs| - 1].feed.todo != [] && s.procs[|s.procs| - 1].feed.stage.Examine?
  }

  /** A new eligible link is found in one step ... */
  lemma FindLink(env: Env, site: Bytes -> seq<Bytes>, sent: int, s: State)
      returns (t: State)
    requires SmoothlyReached(env, site, sent, s) && LastFeeds(s)
    requires var feed := s.procs[|s.procs| - 1].feed;
             Eligible(env, feed.todo[0], feed.depth) && NormalizeURL(feed.todo[0]) !in s.visited
    ensures SmoothlyReached(env, site, sent, t)
    ensures var i := |s.procs| - 1;
            t == s.(procs := s.procs[i := Feeding(s.procs[i].feed.(stage := Unvisited))])
  {
    var i := |s.procs| - 1;
    ExamineNew(env, s, s.procs[i].feed);
    assert StepProc(env, s, i, Go) == To(s, i, Feeding(s.procs[i].feed.(stage := Unvisited)));
    t := SmoothStep(env, site, sent, s, Proceed(|s.procs| - 1, Go));
  }

  lemma ExamineNew(env: Env, s: State, feed: Feed)
    requires feed.todo != [] && feed.stage.Examine? && IsNew(env, s, feed.todo[0], feed.depth)
    ensures StepFeed(env, s, feed) == Fed(s, feed.(stage := Unvisited))
  {
  }

  /** ... and queued in three more. */
  lemma QueueLink(env: Env, site: Bytes -> seq<Bytes>, sent: int, s: State)
      returns (t: State)
    requires SmoothlyReached(env, site, sent, s) && LastFeeds(s)
    requires var feed := s.procs[|s.procs| - 1].feed;
             Eligible(env, feed.todo[0], feed.depth) && NormalizeURL(feed.todo[0]) !in s.visited
    ensures SmoothlyReached(env, site, sent, t) && t == LinkQueued(s)
  {
    t := FindLink(env, site, sent, s);
    t := HandLink(env, site, sent, t);
  }

  function LinkQueued(s: State): State
    requires s.procs != [] && s.procs[|s.procs| - 1].Feeding? && s.procs[|s.procs| - 1].feed.todo != []
  {
    var i, feed := |s.procs| - 1, s.procs[|s.procs| - 1].feed;
    var key := NormalizeURL(feed.todo[0]);
    s.(visited := s.visited + {key}, workCount := s.workCount + 1, queued := s.queued + [key],
       sending := s.sending + [Page(feed.todo[0], feed.depth)],
       procs := s.procs[i := Feeding(Feed(feed.todo[1..], feed.depth, Examine))])
  }

  lemma HandLink(env: Env, site: Bytes -> seq<Bytes>, sent: int, s: State)
      returns (t: State)
    requires SmoothlyReached(env, site, sent, s) && s.procs != []
    requires var p := s.procs[|s.procs| - 1]; p.Feeding? && p.feed.todo != [] && p.feed.stage.Unvisited?
    ensures SmoothlyReached(env, site, sent, t) && t == LinkQueued(s)
  {
    var i := |s.procs| - 1;
    t := SmoothStep(env, site, sent, s, Proceed(i, Go));
    t := SmoothStep(env, site, sent, t, Proceed(i, Go));
    t := SmoothStep(env, site, sent, t, Proceed(i, Go));
  }

  /** Any other link is passed over. */
  lemma SkipLink(env: Env, site: Bytes -> seq<Bytes>, sent: int, s: State)
      returns (t: State)
    requires SmoothlyReached(env, site, sent, s) && LastFeeds(s)
    requires var feed := s.procs[|s.procs| - 1].feed;
             && !ScopeFails(env, feed.todo[0], feed.depth)
             && (!Eligible(env, feed.todo[0], feed.depth) || NormalizeURL(feed.todo[0]) in s.visited)
    ensures SmoothlyReached(env, site, sent, t)
    ensures var i, feed := |s.procs| - 1, s.procs[|s.procs| - 1].feed;
            t == s.(procs := s.procs[i := Feeding(Feed(feed.todo[1..], feed.depth, Examine))])
  {
    t := SmoothStep(env, site, sent, s, Proceed(|s.procs| - 1, Go));
  }

  /** Without links left the page is done. */
  lemma EndOne(env: Env, site: Bytes -> seq<Bytes>, sent: int, s: State)
      returns (t: State)
    requires SmoothlyReached(env, site, sent, s) && s.procs != []
    requires var p := s.procs[|s.procs| - 1]; p.Feeding? && p.feed.todo == []
    ensures SmoothlyReached(env, site, sent, t)
    ensures t == s.(workCount := s.workCount - 1, procs := s.procs[|s.procs| - 1 := Gone])
  {
    var i := |s.procs| - 1;
    t := SmoothStep(env, site, sent, s, Proceed(i, Go));
    t := SmoothStep(env, site, sent, t, Proceed(i, Go));
    t := SmoothStep(env, site, sent, t, Proceed(i, Go));
  }

  predicate IsNew(env: Env, s: State, link: Bytes, depth: int) {
    Eligible(env, link, depth) && NormalizeURL(link) !in s.visited
  }

  /** The state after sender `j`'s page was crawled from start to end. */
  function PageVisited(env: Env, s: State, j: nat, link: Bytes): State
    requires j < |s.sending|
  {
    var page, left := s.sending[j], s.sending[..j] + s.sending[j + 1..];
    var depth, key := NextDepth(page.depth), NormalizeURL(link);
    var done := s.(sent := Raised(s.sent), fetched := s.fetched + [page.url], answered := s.answered + [page],
                   procs := s.procs + [Gone]);
    if IsNew(env, s, link, depth) then
      done.(sending := left + [Page(link, depth)], visited := s.visited + {key}, queued := s.queued + [key])
    else
      done.(sending := left, workCount := s.workCount - 1)
  }

  /** Its one link is queued if it is new. */
  lemma VisitOne(env: Env, site: Bytes -> seq<Bytes>, sent: int, s: State, j: nat, link: Bytes)
      returns (t: State)
    requires SmoothlyReached(env, site, sent, s) && Quiet(env, s) && j < |s.sending| && Grants(env.maxRequests, s.sent)
    requires env.maxLinks >= 1 && site(s.sending[j].url) == [link]
    requires !ScopeFails(env, link, NextDepth(s.sending[j].depth))
    ensures SmoothlyReached(env, site, sent, t) && t == PageVisited(env, s, j, link) && Quiet(env, t)
  {
    var page := s.sending[j];
    t := RequestOne(env, site, sent, s, j);
    t := AnswerOne(env, site, sent, t, link);
    assert [link][1..] == [];
    if IsNew(env, s, link, NextDepth(page.depth)) {
      t := QueueLink(env, site, sent, t);
    } else {
      t := SkipLink(env, site, sent, t);
    }
    t := EndOne(env, site, sent, t);
    assert t.procs == s.procs + [Gone];
  }

  // ---------- URLs ----------

  /** Different URLs without anything to normalize. */
  function Url(i: nat): Bytes {
    seq(i + 1, _ => 97)
  }

  function Urls(n: nat): seq<Bytes> {
    seq(n, i requires 0 <= i < n => Url(i))
  }

  lemma PlainKey(s: Bytes)
    requires s != [] && forall c :: c in s ==> 97 <= c <= 98
    ensures NormalizeURL(s) == s
  {
    RoundsOfPlain(s, MAX_DECODE_ITERATIONS);
    CutQueryPlain(s);
    assert s[|s| - 1] in s;
  }

  lemma UrlsDiffer(n: nat, k: nat)
    requires k < n
    ensures NormalizeURL(Url(k)) == Url(k) && Url(k) !in Urls(n)[..k]
  {
    PlainKey(Url(k));
    forall j | 0 <= j < k ensures Urls(n)[..k][j] != Url(k) {
      assert |Url(j)| != |Url(k)|;
    }
  }

  function Fresh(urls: seq<Bytes>): set<Bytes> {
    set u | u in urls
  }
}
