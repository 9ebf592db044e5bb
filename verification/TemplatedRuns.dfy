/** A run told by its runner: how each step ended and what it did to the environment, in terms of the
    declared actions and the runner's answers alone. */
module TemplatedRuns {
  import opened TemplatedEngine
  import opened TemplatedTheorems

  /** A known action with a runner, and with a web service if it sends HTTP requests. */
  predicate CanRun<E(!new)>(d: Detector<E>, name: string) {
    && name in d.known && d.known[name].kind != NoRunner
    && (d.known[name].kind == HttpRequest ==> d.webService)
  }

  /** How the step of an action that starts in `e` ends, and that it leaves `e'`. */
  ghost predicate Told<E(!new)>(d: Detector<E>, step: Step, e: E, e': E) {
    && (step.status == Err(ActionNotFound) <==> step.name !in d.known)
    && (step.status.Ok? <==> CanRun(d, step.name) && d.runner(d.known[step.name], e).status == RunOk)
    && (forall code: int :: step.status == Err(RunnerError(code)) <==>
          CanRun(d, step.name) && d.runner(d.known[step.name], e).status == RunError(code))
    && (step.status == Err(ActionFailed) <==>
          step.name in d.known && if CanRun(d, step.name) then d.runner(d.known[step.name], e).status == RunFailed
                                  else d.known[step.name].kind == HttpRequest)
    && (step.status == Err(InvalidAction) <==> step.name in d.known && d.known[step.name].kind == NoRunner)
    && e' == if CanRun(d, step.name) then d.runner(d.known[step.name], e).env else e
  }

  lemma OneTold<E(!new)>(d: Detector<E>, name: string, env: E)
    ensures var r := RunAction(d, name, env); Told(d, Step(name, r.status), env, r.env)
  {
  }

  /** Each step starts in the environment the one before left. */
  ghost predicate Tells<E(!new)>(d: Detector<E>, steps: seq<Step>, env: E, last: E)
    decreases |steps|
  {
    if steps == [] then env == last
    else exists next :: Told(d, steps[0], env, next) && Tells(d, steps[1..], next, last)
  }

  lemma TellsCons<E(!new)>(d: Detector<E>, step: Step, steps: seq<Step>, env: E, next: E, last: E)
    requires Told(d, step, env, next) && Tells(d, steps, next, last)
    ensures Tells(d, [step] + steps, env, last)
  {
    assert ([step] + steps)[1..] == steps;
  }

  lemma TellsOne<E(!new)>(d: Detector<E>, step: Step, env: E, next: E)
    requires Told(d, step, env, next)
    ensures Tells(d, [step], env, next)
  {
    assert Tells(d, [], next, next);
    TellsCons(d, step, [], env, next, next);
    assert [step] + [] == [step];
  }

  lemma {:induction false} TellsConcat<E(!new)>(d: Detector<E>, a: seq<Step>, b: seq<Step>, env: E, mid: E, last: E)
    requires Tells(d, a, env, mid) && Tells(d, b, mid, last)
    ensures Tells(d, a + b, env, last)
  {
    if a == [] {
      assert a + b == b;
    } else {
      var next :| Told(d, a[0], env, next) && Tells(d, a[1..], next, mid);
      TellsConcat(d, a[1..], b, next, mid, last);
      TellsCons(d, a[0], a[1..] + b, env, next, last);
      assert [a[0]] + (a[1..] + b) == a + b;
    }
  }

  lemma {:induction false} MainTells<E(!new)>(d: Detector<E>, names: seq<string>, target: int, env: E)
    ensures var main := RunMain(d, names, target, env); Tells(d, main.steps, env, main.env)
  {
    if names == [] || EndsAt(d.known, target, names[0]) {
    } else if Skipped(d.known, target, names[0]) {
      MainTells(d, names[1..], target, env);
    } else {
      var r := RunAction(d, names[0], env);
      OneTold(d, names[0], env);
      if r.status.Err? {
        TellsOne(d, Step(names[0], r.status), env, r.env);
      } else {
        MainTells(d, names[1..], target, r.env);
        var rest := RunMain(d, names[1..], target, r.env);
        TellsCons(d, Step(names[0], Ok), rest.steps, env, r.env, rest.env);
      }
    }
  }

  lemma {:induction false} ListTells<E(!new)>(d: Detector<E>, names: seq<string>, env: E)
    ensures var c := RunCleanups(d, names, env); Tells(d, c.steps, env, c.env)
  {
    if names == [] {
    } else {
      var r := RunAction(d, names[0], env);
      OneTold(d, names[0], env);
      if r.status.Err? {
        TellsOne(d, Step(names[0], r.status), env, r.env);
      } else {
        ListTells(d, names[1..], r.env);
        var rest := RunCleanups(d, names[1..], r.env);
        TellsCons(d, Step(names[0], Ok), rest.steps, env, r.env, rest.env);
      }
    }
  }

  lemma {:induction false} DeferredTells<E(!new)>(d: Detector<E>, deferred: seq<seq<string>>, env: E)
    ensures var c := RunDeferred(d, deferred, env); Tells(d, c.steps, env, c.env)
  {
    if deferred == [] {
    } else {
      var init, list := deferred[..|deferred| - 1], deferred[|deferred| - 1];
      var last := RunCleanups(d, list, env);
      ListTells(d, list, env);
      DeferredTells(d, init, last.env);
      var rest := RunDeferred(d, init, last.env);
      TellsConcat(d, last.steps, rest.steps, env, last.env, rest.env);
    }
  }

  /** In every run one environment goes through all actions and then through all cleanups, each step ends
      as the runner answers, and what the last one leaves is what the run leaves. */
  lemma RunIsTold<E(!new)>(d: Detector<E>, names: seq<string>, target: int, env: E)
    ensures var r := RunWorkflow(d, names, target, env); Tells(d, r.steps + r.cleanups, env, r.env)
  {
    var main := RunMain(d, names, target, env);
    var cleaned := RunDeferred(d, DeferredBy(d.known, main.steps), main.env);
    MainTells(d, names, target, env);
    DeferredTells(d, DeferredBy(d.known, main.steps), main.env);
    TellsConcat(d, main.steps, cleaned.steps, env, main.env, cleaned.env);
  }
}
