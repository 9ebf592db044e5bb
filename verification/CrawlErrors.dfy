/** Which errors a crawl reports. */
module CrawlErrors {
  import opened CrawlRuns
  import opened CrawlProtocol

  /** Scope matching fails for the URL that is looked at next. */
  predicate ScopeErrs(env: Env, feed: Feed) {
    && feed.todo != [] && feed.stage.Examine?
    && feed.depth <= env.maxDepth && env.scope(feed.todo[0]) == ScopeError
  }

  /** In this step something returns an error: scope matching, or the request, the response or the callback
      of a page. */
  predicate ErrorStep(env: Env, s: State, a: Action) {
    match a
    case Seed => s.main.Seeding? && ScopeErrs(env, s.main.feed)
    case Proceed(i, choice) =>
      i < |s.procs| &&
      (match s.procs[i]
       case Fetching(_) => choice == Stop(true)
       case Requesting(_) => choice == Stop(true)
       case Feeding(feed) => ScopeErrs(env, feed)
       case _ => false)
    case _ => false
  }

  ghost predicate SomeError(env: Env, s: State, acts: seq<Action>)
    decreases acts
  {
    acts != [] && Enabled(env, s, acts[0])
    && (ErrorStep(env, s, acts[0]) || SomeError(env, Apply(env, s, acts[0]), acts[1..]))
  }

  predicate CarriesError(p: Proc) {
    p == Finishing(true) || p == Exiting(true)
  }

  predicate Failing(s: State) {
    s.main.Aborted? || s.failed || exists i :: 0 <= i < |s.procs| && CarriesError(s.procs[i])
  }

  /** What was returned is what the group kept. */
  predicate Reported(s: State) {
    s.main.Returned? ==> s.main.failed == s.failed && forall i :: 0 <= i < |s.procs| ==> s.procs[i].Gone?
  }

  lemma OwnError(env: Env, s: State, i: nat, choice: Choice)
    requires Enabled(env, s, Proceed(i, choice))
    ensures var t := StepProc(env, s, i, choice);
            && |t.procs| == |s.procs| && t.procs == s.procs[i := t.procs[i]] && t.main == s.main
            && !s.procs[i].Gone?
            && t.failed == (s.failed || s.procs[i] == Exiting(true))
            && (CarriesError(t.procs[i]) <==>
                  s.procs[i] == Finishing(true) || ErrorStep(env, s, Proceed(i, choice)))
  {
  }

  lemma ProceedErrors(env: Env, s: State, i: nat, choice: Choice)
    requires Reported(s) && Enabled(env, s, Proceed(i, choice))
    ensures var t := StepProc(env, s, i, choice);
            Reported(t) && (Failing(t) <==> Failing(s) || ErrorStep(env, s, Proceed(i, choice)))
  {
    var t := StepProc(env, s, i, choice);
    OwnError(env, s, i, choice);
    if j :| 0 <= j < |s.procs| && CarriesError(s.procs[j]) {
      assert j != i ==> t.procs[j] == s.procs[j];
    }
    assert CarriesError(t.procs[i]) ==> Failing(t);
    if j :| 0 <= j < |t.procs| && CarriesError(t.procs[j]) {
      assert j != i ==> s.procs[j] == t.procs[j];
    }
  }

  lemma CallerErrors(env: Env, s: State, a: Action)
    requires Reported(s) && Enabled(env, s, a) && !a.Proceed?
    ensures var t := Apply(env, s, a);
            Reported(t) && (Failing(t) <==> Failing(s) || ErrorStep(env, s, a))
  {
    var t := Apply(env, s, a);
    assert forall j :: 0 <= j < |s.procs| ==> t.procs[j] == s.procs[j];
    assert forall j :: |s.procs| <= j < |t.procs| ==> t.procs[j].Fetching?;
  }

  lemma {:induction false} RunsErrors(env: Env, s: State, acts: seq<Action>, t: State)
    requires Reported(s) && Runs(env, s, acts, t)
    ensures Reported(t) && (Failing(t) <==> Failing(s) || SomeError(env, s, acts))
    decreases acts
  {
    if acts == [] {
    } else {
      if acts[0].Proceed? {
        ProceedErrors(env, s, acts[0].i, acts[0].choice);
      } else {
        CallerErrors(env, s, acts[0]);
      }
      RunsErrors(env, Apply(env, s, acts[0]), acts[1..], t);
    }
  }

  /** A crawl that returns reports an error exactly when some step of it returned one; it is aborted only
      by one, while seeding. */
  lemma ErrorsSurface(env: Env, before: int, acts: seq<Action>, t: State)
    requires Runs(env, Init(env, before), acts, t)
    ensures t.main.Returned? ==> (t.main.failed <==> SomeError(env, Init(env, before), acts))
    ensures t.main.Aborted? ==> SomeError(env, Init(env, before), acts)
  {
    RunsErrors(env, Init(env, before), acts, t);
  }
}
