/** What a validated templated plugin guarantees: which actions a phase executes, how the phases
    compose, and which cleanups run. */
module TemplatedTheorems {
  import opened TemplatedEngine

  // ---------- Known actions ----------

  /** Every name stands for the last action declared under it. */
  lemma {:induction false} KnownActionsLast(actions: seq<Action>, name: string)
    ensures name in KnownActions(actions) <==> exists i :: 0 <= i < |actions| && actions[i].name == name
    ensures forall i | 0 <= i < |actions| && actions[i].name == name
                       && (forall j :: i < j < |actions| ==> actions[j].name != name) ::
              KnownActions(actions)[name] == actions[i]
  {
    if actions == [] {
    } else {
      KnownActionsLast(actions[..|actions| - 1], name);
      assert forall i :: 0 <= i < |actions| - 1 ==> actions[..|actions| - 1][i] == actions[i];
    }
  }

  // ---------- Phase slices ----------

  /** The actions of a workflow that belong to phase `target`; all of them when it is undefined. */
  function Slice(known: map<string, Action>, names: seq<string>, target: int): seq<string> {
    if names == [] then []
    else if target == UNDEFINED || PhaseOf(known, names[0]) == target then
      [names[0]] + Slice(known, names[1..], target)
    else
      Slice(known, names[1..], target)
  }

  /** An action without a phase is one of detection. */
  lemma {:induction false} DetectionSlice(known: map<string, Action>, names: seq<string>, name: string, target: int)
    requires target != 0 && forall i :: 0 <= i < |names| ==> names[i] in known
    ensures name in Slice(known, names, target)
       <==> name in names && (known[name].phase == target || (target == 2 && known[name].phase == 0))
  {
    if names == [] {
    } else {
      assert names == [names[0]] + names[1..];
      DetectionSlice(known, names[1..], name, target);
    }
  }

  function Names(steps: seq<Step>): seq<string> {
    seq(|steps|, i requires 0 <= i < |steps| => steps[i].name)
  }

  ghost predicate AllOk(steps: seq<Step>) {
    forall i :: 0 <= i < |steps| ==> steps[i].status.Ok?
  }

  /** `steps` works through `names` in order and ends at the first failure. */
  ghost predicate UpToFirstFailure(names: seq<string>, steps: seq<Step>) {
    && Names(steps) <= names
    && (forall i :: 0 <= i < |steps| - 1 ==> steps[i].status.Ok?)
    && (AllOk(steps) ==> Names(steps) == names)
  }

  ghost predicate HasLater(known: map<string, Action>, names: seq<string>, target: int) {
    target != UNDEFINED && exists i :: 0 <= i < |names| && PhaseOf(known, names[i]) > target
  }

  lemma AscendingTail(known: map<string, Action>, names: seq<string>)
    requires names != [] && Ascending(known, names)
    ensures Ascending(known, names[1..])
  {
    forall i, j | 0 <= i < j < |names[1..]| ensures PhaseOf(known, names[1..][i]) <= PhaseOf(known, names[1..][j]) {
      assert PhaseOf(known, names[i + 1]) <= PhaseOf(known, names[j + 1]);
    }
  }

  lemma {:induction false} NoneOfPhase(known: map<string, Action>, names: seq<string>, target: int)
    requires target != UNDEFINED && forall i :: 0 <= i < |names| ==> PhaseOf(known, names[i]) != target
    ensures Slice(known, names, target) == []
  {
    if names == [] {
    } else {
      NoneOfPhase(known, names[1..], target);
    }
  }

  lemma {:induction false} AllOfPhase(known: map<string, Action>, names: seq<string>, target: int)
    requires target == UNDEFINED || forall i :: 0 <= i < |names| ==> PhaseOf(known, names[i]) == target
    ensures Slice(known, names, target) == names
  {
    if names == [] {
    } else {
      AllOfPhase(known, names[1..], target);
    }
  }

  lemma {:induction false} SliceConcat(known: map<string, Action>, a: seq<string>, b: seq<string>, target: int)
    ensures Slice(known, a + b, target) == Slice(known, a, target) + Slice(known, b, target)
  {
    if a == [] {
      assert a + b == b;
    } else {
      assert (a + b)[1..] == a[1..] + b;
      SliceConcat(known, a[1..], b, target);
    }
  }

  lemma UpToFirstFailureCons(name: string, names: seq<string>, steps: seq<Step>)
    requires UpToFirstFailure(names, steps)
    ensures UpToFirstFailure([name] + names, [Step(name, Ok)] + steps)
    ensures AllOk([Step(name, Ok)] + steps) <==> AllOk(steps)
  {
    var all := [Step(name, Ok)] + steps;
    assert Names(all) == [name] + Names(steps);
    assert forall i :: 0 <= i < |steps| ==> all[i + 1] == steps[i];
  }

  /** The run executed the slice of `target` up to the first failure, if any, and says which; it
      reports iff nothing failed and no action of a later phase follows. */
  ghost predicate ExecutesSlice<E>(known: map<string, Action>, names: seq<string>, target: int, main: Main<E>) {
    && UpToFirstFailure(Slice(known, names, target), main.steps)
    && (main.outcome.Failed? <==> !AllOk(main.steps))
    && (main.outcome.Failed? ==> main.steps[|main.steps| - 1].status == Err(main.outcome.error))
    && (main.outcome.Report? <==> AllOk(main.steps) && !HasLater(known, names, target))
  }

  lemma ExecutesSliceCons<E>(known: map<string, Action>, names: seq<string>, target: int, rest: Main<E>)
    requires names != [] && ExecutesSlice(known, names[1..], target, rest)
    requires target == UNDEFINED || PhaseOf(known, names[0]) == target
    ensures ExecutesSlice(known, names, target, After([Step(names[0], Ok)], rest))
  {
    HasLaterCons(known, names, target);
    UpToFirstFailureCons(names[0], Slice(known, names[1..], target), rest.steps);
  }

  /** A run for one phase executes exactly that phase's actions in workflow order, up to the first
      failure; it reports iff they all succeed and no action of a later phase follows. */
  lemma {:induction false} PhaseSlice<E>(d: Detector<E>, names: seq<string>, target: int, env: E)
    requires Ascending(d.known, names)
    ensures ExecutesSlice(d.known, names, target, RunMain(d, names, target, env))
  {
    if names == [] {
    } else {
      AscendingTail(d.known, names);
      var name := names[0];
      if Skipped(d.known, target, name) {
        PhaseSlice(d, names[1..], target, env);
        HasLaterCons(d.known, names, target);
      } else if EndsAt(d.known, target, name) {
        NoneOfPhase(d.known, names, target);
        assert PhaseOf(d.known, names[0]) > target;
      } else {
        var r := RunAction(d, name, env);
        if r.status.Err? {
          var steps := [Step(name, r.status)];
          assert !steps[0].status.Ok?;
          assert Names(steps) == [name];
        } else {
          PhaseSlice(d, names[1..], target, r.env);
          ExecutesSliceCons(d.known, names, target, RunMain(d, names[1..], target, r.env));
        }
      }
    }
  }

  lemma HasLaterCons(known: map<string, Action>, names: seq<string>, target: int)
    requires names != []
    ensures HasLater(known, names, target) <==> EndsAt(known, target, names[0]) || HasLater(known, names[1..], target)
  {
    assert forall i :: 0 < i < |names| ==> names[i] == names[1..][i - 1];
  }

  // ---------- Composing the phases ----------

  ghost predicate Increasing(phases: seq<int>) {
    && (forall i :: 0 <= i < |phases| ==> phases[i] > UNDEFINED)
    && (forall i, j :: 0 <= i < j < |phases| ==> phases[i] < phases[j])
  }

  ghost predicate Covers(phases: seq<int>, known: map<string, Action>, names: seq<string>) {
    forall i :: 0 <= i < |names| ==> PhaseOf(known, names[i]) in phases
  }

  /** The slices of the given phases, one after the other. */
  function Slices(known: map<string, Action>, names: seq<string>, phases: seq<int>): seq<string> {
    if phases == [] then [] else Slice(known, names, phases[0]) + Slices(known, names, phases[1..])
  }

  /** How many leading actions belong to `phase`. */
  function Leading(known: map<string, Action>, names: seq<string>, phase: int): (k: nat)
    ensures k <= |names|
    ensures forall i :: 0 <= i < k ==> PhaseOf(known, names[i]) == phase
    ensures k < |names| ==> PhaseOf(known, names[k]) != phase
  {
    if names == [] || PhaseOf(known, names[0]) != phase then 0 else 1 + Leading(known, names[1..], phase)
  }

  lemma AscendingDrop(known: map<string, Action>, names: seq<string>, k: nat)
    requires k <= |names| && Ascending(known, names)
    ensures Ascending(known, names[k..])
  {
    forall i, j | 0 <= i < j < |names[k..]| ensures PhaseOf(known, names[k..][i]) <= PhaseOf(known, names[k..][j]) {
      assert PhaseOf(known, names[i + k]) <= PhaseOf(known, names[j + k]);
    }
  }

  /** Past its leading actions of the first phase, a workflow has only later phases. */
  lemma LaterThanLeading(known: map<string, Action>, names: seq<string>, phases: seq<int>, i: nat)
    requires phases != [] && Increasing(phases) && Ascending(known, names) && Covers(phases, known, names)
    requires Leading(known, names, phases[0]) <= i < |names|
    ensures PhaseOf(known, names[i]) != phases[0] && PhaseOf(known, names[i]) in phases[1..]
  {
    var k := Leading(known, names, phases[0]);
    var p, q := PhaseOf(known, names[k]), PhaseOf(known, names[i]);
    assert p in phases && q in phases;
    assert p > phases[0];
    assert p <= q;
    var j :| 0 <= j < |phases| && phases[j] == q;
    assert phases[1..][j - 1] == q;
  }

  /** Cutting off the actions of phase `p` from the front. */
  lemma CutSlices(known: map<string, Action>, names: seq<string>, k: nat, p: int, q: int)
    requires k <= |names| && p != UNDEFINED && q != UNDEFINED
    requires forall i :: 0 <= i < k ==> PhaseOf(known, names[i]) == p
    requires forall i :: k <= i < |names| ==> PhaseOf(known, names[i]) != p
    ensures q == p ==> Slice(known, names, q) == names[..k]
    ensures q != p ==> Slice(known, names, q) == Slice(known, names[k..], q)
  {
    assert names == names[..k] + names[k..];
    SliceConcat(known, names[..k], names[k..], q);
    if q == p {
      AllOfPhase(known, names[..k], q);
      NoneOfPhase(known, names[k..], q);
    } else {
      NoneOfPhase(known, names[..k], q);
    }
  }

  lemma {:induction false} SlicesAgree(known: map<string, Action>, a: seq<string>, b: seq<string>, phases: seq<int>)
    requires forall q | q in phases :: Slice(known, a, q) == Slice(known, b, q)
    ensures Slices(known, a, phases) == Slices(known, b, phases)
  {
    if phases == [] {
    } else {
      assert phases == [phases[0]] + phases[1..];
      SlicesAgree(known, a, b, phases[1..]);
    }
  }

  /** A workflow whose phases are covered is the slice of the first phase, then what only has later phases. */
  lemma CutFirstPhase(known: map<string, Action>, names: seq<string>, phases: seq<int>)
    requires phases != [] && Increasing(phases) && Ascending(known, names) && Covers(phases, known, names)
    ensures var k := Leading(known, names, phases[0]);
            && Covers(phases[1..], known, names[k..])
            && Slice(known, names, phases[0]) == names[..k]
            && Slices(known, names, phases[1..]) == Slices(known, names[k..], phases[1..])
  {
    var k := Leading(known, names, phases[0]);
    forall i | k <= i < |names|
      ensures PhaseOf(known, names[i]) != phases[0] && PhaseOf(known, names[i]) in phases[1..]
    {
      LaterThanLeading(known, names, phases, i);
    }
    CutSlices(known, names, k, phases[0], phases[0]);
    forall q | q in phases[1..] ensures Slice(known, names, q) == Slice(known, names[k..], q) {
      CutSlices(known, names, k, phases[0], q);
    }
    SlicesAgree(known, names, names[k..], phases[1..]);
  }

  lemma IncreasingTail(phases: seq<int>)
    requires phases != [] && Increasing(phases)
    ensures Increasing(phases[1..])
  {
  }

  lemma SomePhase(known: map<string, Action>, names: seq<string>, phases: seq<int>)
    requires names != [] && Covers(phases, known, names)
    ensures phases != []
  {
    assert PhaseOf(known, names[0]) in phases;
  }

  lemma FirstSlice(known: map<string, Action>, names: seq<string>, phases: seq<int>, k: nat)
    requires phases != [] && k <= |names| && Slice(known, names, phases[0]) == names[..k]
    requires Slices(known, names, phases[1..]) == names[k..]
    ensures Slices(known, names, phases) == names
  {
    assert names == names[..k] + names[k..];
  }

  /** A validated workflow is the concatenation of its phases in ascending order. */
  lemma {:induction false} WorkflowIsItsSlices(known: map<string, Action>, names: seq<string>, phases: seq<int>)
    requires Increasing(phases) && Ascending(known, names) && Covers(phases, known, names)
    ensures Slices(known, names, phases) == names
  {
    if phases == [] {
      if names != [] {
        SomePhase(known, names, phases);
      }
    } else {
      var k := Leading(known, names, phases[0]);
      CutFirstPhase(known, names, phases);
      AscendingDrop(known, names, k);
      IncreasingTail(phases);
      WorkflowIsItsSlices(known, names[k..], phases[1..]);
      FirstSlice(known, names, phases, k);
    }
  }

  /** An idealised run that no call performs: the phases one after the other in one environment, up
      to the first that fails, without cleanups in between. It links separate runs to the full one. */
  function ContinuedRun<E>(d: Detector<E>, names: seq<string>, phases: seq<int>, env: E): Main<E> {
    if phases == [] then Main(Report, env, [])
    else
      var main := RunMain(d, names, phases[0], env);
      if main.outcome.Failed? then main
      else After(main.steps, ContinuedRun(d, names, phases[1..], main.env))
  }

  /** Two runs that differ at most in whether they report or stop without a report. */
  ghost predicate SameWork<E>(a: Main<E>, b: Main<E>) {
    && a.env == b.env && a.steps == b.steps
    && (a.outcome.Failed? || b.outcome.Failed? ==> a.outcome == b.outcome)
  }

  /** A run for one phase does the work of an unfiltered run over its slice. */
  lemma {:induction false} PhaseRunIsSliceRun<E>(d: Detector<E>, names: seq<string>, target: int, env: E)
    requires Ascending(d.known, names)
    ensures SameWork(RunMain(d, names, target, env), RunMain(d, Slice(d.known, names, target), UNDEFINED, env))
  {
    if names == [] {
    } else {
      AscendingTail(d.known, names);
      var name := names[0];
      if Skipped(d.known, target, name) {
        PhaseRunIsSliceRun(d, names[1..], target, env);
      } else if EndsAt(d.known, target, name) {
        NoneOfPhase(d.known, names, target);
      } else {
        var r := RunAction(d, name, env);
        PhaseRunIsSliceRun(d, names[1..], target, r.env);
        var rest := Slice(d.known, names[1..], target);
        assert ([name] + rest)[1..] == rest;
      }
    }
  }

  lemma {:induction false} RunConcat<E>(d: Detector<E>, a: seq<string>, b: seq<string>, env: E)
    ensures RunMain(d, a + b, UNDEFINED, env)
         == var main := RunMain(d, a, UNDEFINED, env);
            if main.outcome.Failed? then main else After(main.steps, RunMain(d, b, UNDEFINED, main.env))
  {
    if a == [] {
      assert a + b == b;
    } else {
      assert (a + b)[1..] == a[1..] + b;
      var r := RunAction(d, a[0], env);
      if r.status.Ok? {
        RunConcat(d, a[1..], b, r.env);
        var main := RunMain(d, a[1..], UNDEFINED, r.env);
        AfterAfter([Step(a[0], Ok)], main.steps, RunMain(d, b, UNDEFINED, main.env));
      }
    }
  }

  lemma {:induction false} ContinuedRunIsSlicesRun<E>(d: Detector<E>, names: seq<string>, phases: seq<int>, env: E)
    requires Ascending(d.known, names)
    ensures ContinuedRun(d, names, phases, env) == RunMain(d, Slices(d.known, names, phases), UNDEFINED, env)
  {
    if phases == [] {
    } else {
      var main := RunMain(d, names, phases[0], env);
      var slice := Slice(d.known, names, phases[0]);
      PhaseRunIsSliceRun(d, names, phases[0], env);
      RunConcat(d, slice, Slices(d.known, names, phases[1..]), env);
      if !main.outcome.Failed? {
        ContinuedRunIsSlicesRun(d, names, phases[1..], main.env);
      }
    }
  }

  lemma ContinuedRunIsFullRun<E>(d: Detector<E>, names: seq<string>, phases: seq<int>, env: E)
    requires Ascending(d.known, names) && Increasing(phases) && Covers(phases, d.known, names)
    ensures ContinuedRun(d, names, phases, env) == RunMain(d, names, UNDEFINED, env)
  {
    ContinuedRunIsSlicesRun(d, names, phases, env);
    WorkflowIsItsSlices(d.known, names, phases);
  }

  // ---------- Separate runs, one phase each ----------

  /** One call of DetectForPhase per phase: each starts in an environment of its own and cleans up
      before it returns. */
  function SeparateRuns<E>(d: Detector<E>, names: seq<string>, phases: seq<int>, envs: seq<E>): (runs: seq<Run<E>>)
    requires |envs| == |phases|
    ensures |runs| == |phases|
    ensures forall k :: 0 <= k < |runs| ==> runs[k] == RunWorkflow(d, names, phases[k], envs[k])
  {
    seq(|phases|, k requires 0 <= k < |phases| => RunWorkflow(d, names, phases[k], envs[k]))
  }

  /** What the runs executed, up to and including the first that failed. */
  function JoinedSteps<E>(runs: seq<Run<E>>): seq<Step> {
    if runs == [] then []
    else runs[0].steps + if runs[0].outcome.Failed? then [] else JoinedSteps(runs[1..])
  }

  /** The first failure, or a report if there is none. */
  function JoinedOutcome<E>(runs: seq<Run<E>>): Outcome {
    if runs == [] then Report
    else if runs[0].outcome.Failed? then runs[0].outcome
    else JoinedOutcome(runs[1..])
  }

  lemma SeparateTail<E>(d: Detector<E>, names: seq<string>, phases: seq<int>, envs: seq<E>)
    requires |envs| == |phases| > 0
    ensures SeparateRuns(d, names, phases, envs)[1..] == SeparateRuns(d, names, phases[1..], envs[1..])
  {
  }

  lemma NamesConcat(a: seq<Step>, b: seq<Step>)
    ensures Names(a + b) == Names(a) + Names(b)
  {
  }

  lemma {:induction false} JoinedNames<E>(d: Detector<E>, names: seq<string>, phases: seq<int>, envs: seq<E>)
    requires |envs| == |phases| && Ascending(d.known, names)
    requires forall r :: r in SeparateRuns(d, names, phases, envs) ==> !r.outcome.Failed?
    ensures Names(JoinedSteps(SeparateRuns(d, names, phases, envs))) == Slices(d.known, names, phases)
  {
    var runs := SeparateRuns(d, names, phases, envs);
    if phases == [] {
    } else {
      assert runs[0] in runs && forall r :: r in runs[1..] ==> r in runs;
      SeparateTail(d, names, phases, envs);
      JoinedNames(d, names, phases[1..], envs[1..]);
      PhaseSlice(d, names, phases[0], envs[0]);
      NamesConcat(runs[0].steps, JoinedSteps(runs[1..]));
    }
  }

  /** When every separate run and the full run succeed, whatever environments they start in, the full
      run executes what the separate runs execute in ascending order of their phases. */
  lemma SeparateRunsExecuteAll<E>(d: Detector<E>, names: seq<string>, phases: seq<int>, envs: seq<E>, env: E)
    requires |envs| == |phases| && Ascending(d.known, names) && Increasing(phases) && Covers(phases, d.known, names)
    requires forall r :: r in SeparateRuns(d, names, phases, envs) ==> !r.outcome.Failed?
    requires !RunWorkflow(d, names, UNDEFINED, env).outcome.Failed?
    ensures Names(RunWorkflow(d, names, UNDEFINED, env).steps)
         == Names(JoinedSteps(SeparateRuns(d, names, phases, envs)))
  {
    PhaseSlice(d, names, UNDEFINED, env);
    AllOfPhase(d.known, names, UNDEFINED);
    JoinedNames(d, names, phases, envs);
    WorkflowIsItsSlices(d.known, names, phases);
  }

  /** The full run does and says what the separate runs do and say together. */
  ghost predicate Composes<E>(d: Detector<E>, names: seq<string>, phases: seq<int>, envs: seq<E>, env: E)
    requires |envs| == |phases|
  {
    var runs, full := SeparateRuns(d, names, phases, envs), RunWorkflow(d, names, UNDEFINED, env);
    full.steps == JoinedSteps(runs) && full.outcome == JoinedOutcome(runs)
  }

  /** How an action ends does not depend on the environment. */
  ghost predicate Oblivious<E(!new)>(d: Detector<E>) {
    forall name, e, e' | PhaseOf(d.known, name) >= UNDEFINED ::
      RunAction(d, name, e).status == RunAction(d, name, e').status
  }

  lemma {:induction false} ObliviousMain<E(!new)>(d: Detector<E>, names: seq<string>, target: int, e: E, e': E)
    requires Oblivious(d) && Ascending(d.known, names)
    ensures var main, main' := RunMain(d, names, target, e), RunMain(d, names, target, e');
            main.steps == main'.steps && main.outcome == main'.outcome
  {
    if names == [] || EndsAt(d.known, target, names[0]) {
    } else {
      AscendingTail(d.known, names);
      if Skipped(d.known, target, names[0]) {
        ObliviousMain(d, names[1..], target, e, e');
      } else {
        var r, r' := RunAction(d, names[0], e), RunAction(d, names[0], e');
        assert PhaseOf(d.known, names[0]) >= UNDEFINED;
        assert r.status == r'.status;
        ObliviousMain(d, names[1..], target, r.env, r'.env);
      }
    }
  }

  lemma {:induction false} SeparateIsContinued<E(!new)>(d: Detector<E>, names: seq<string>, phases: seq<int>,
                                                 envs: seq<E>, env: E)
    requires Oblivious(d) && |envs| == |phases| && Ascending(d.known, names)
    ensures var runs, main := SeparateRuns(d, names, phases, envs), ContinuedRun(d, names, phases, env);
            main.steps == JoinedSteps(runs) && main.outcome == JoinedOutcome(runs)
  {
    if phases == [] {
    } else {
      var main := RunMain(d, names, phases[0], env);
      ObliviousMain(d, names, phases[0], envs[0], env);
      SeparateTail(d, names, phases, envs);
      if !main.outcome.Failed? {
        SeparateIsContinued(d, names, phases[1..], envs[1..], main.env);
      }
    }
  }

  /** Separate runs of the phases add up to the full run, for every workflow in phase order and
      whatever unrelated environments the runs start in, exactly when how actions end does not depend
      on the environment. Runs that all start in one environment need less: see TemplatedSeparation. */
  lemma SeparateRunsComposeIff<E(!new)>(d: Detector<E>)
    ensures Oblivious(d) <==>
              forall names, phases, envs: seq<E>, env: E
                | |envs| == |phases| && Ascending(d.known, names) && Increasing(phases)
                  && Covers(phases, d.known, names) ::
                Composes(d, names, phases, envs, env)
  {
    if Oblivious(d) {
      forall names, phases, envs: seq<E>, env: E
        | |envs| == |phases| && Ascending(d.known, names) && Increasing(phases) && Covers(phases, d.known, names)
        ensures Composes(d, names, phases, envs, env)
      {
        SeparateIsContinued(d, names, phases, envs, env);
        ContinuedRunIsFullRun(d, names, phases, env);
      }
    } else {
      var name, e, e' :|
        PhaseOf(d.known, name) >= UNDEFINED && RunAction(d, name, e).status != RunAction(d, name, e').status;
      SensitiveActionBreaks(d, name, e, e');
    }
  }

  lemma SensitiveActionBreaks<E>(d: Detector<E>, name: string, e: E, e': E)
    requires PhaseOf(d.known, name) >= UNDEFINED && RunAction(d, name, e).status != RunAction(d, name, e').status
    ensures var names, phases := [name], [PhaseOf(d.known, name)];
            && Ascending(d.known, names) && Increasing(phases) && Covers(phases, d.known, names)
            && !Composes(d, names, phases, [e'], e)
  {
    var names, phases := [name], [PhaseOf(d.known, name)];
    var runs := SeparateRuns(d, names, phases, [e']);
    OneAction(d, name, UNDEFINED, e);
    OneAction(d, name, phases[0], e');
    assert runs == [runs[0]] && JoinedSteps(runs[1..]) == [];
    assert runs[0].steps[0].status != RunWorkflow(d, names, UNDEFINED, e).steps[0].status;
  }

  lemma OneAction<E>(d: Detector<E>, name: string, target: int, env: E)
    requires target == UNDEFINED || target == PhaseOf(d.known, name)
    ensures RunMain(d, [name], target, env).steps == [Step(name, RunAction(d, name, env).status)]
  {
    assert [name][1..] == [];
  }

  // A plugin whose detection succeeds only in the environment its fingerprinting leaves.

  function Probe(): Action {
    Action("probe", FINGERPRINT, Utility, [])
  }

  function Exploit(): Action {
    Action("exploit", DETECTION, Utility, [])
  }

  function TwoPhases(): Detector<bool> {
    var plugin := Plugin([Probe(), Exploit()], [Workflow(false, ["probe", "exploit"])]);
    Detector(plugin, map["probe" := Probe(), "exploit" := Exploit()], true, true,
             (action: Action, probed: bool) =>
               if action == Probe() then Ran(RunOk, true)
               else if probed then Ran(RunOk, probed)
               else Ran(RunFailed, probed))
  }

  lemma TwoPhasesValid()
    ensures var d := TwoPhases(); d.known == KnownActions(d.plugin.actions) && WellFormed(d.plugin, d.known)
  {
    assert [Probe(), Exploit()][..1] == [Probe()] && [Probe()][..0] == [];
    assert KnownActions([Probe()]) == map["probe" := Probe()];
  }

  /** After the probe, or instead of it, the exploit is what is left. */
  lemma ExploitRuns(target: int, probed: bool)
    ensures RunMain(TwoPhases(), ["exploit"], target, probed).outcome ==
            if target > DETECTION then Report
            else if target != UNDEFINED && DETECTION > target then NoReport
            else if probed then Report else Failed(ActionFailed)
  {
    assert ["exploit"][1..] == [];
    assert RunAction(TwoPhases(), "exploit", probed) == Executed(if probed then Ok else Err(ActionFailed), probed);
  }

  lemma ProbeRuns(target: int)
    requires target >= UNDEFINED
    ensures RunMain(TwoPhases(), ["probe", "exploit"], target, false).outcome ==
            RunMain(TwoPhases(), ["exploit"], target, target == UNDEFINED || target == FINGERPRINT).outcome
  {
    assert ["probe", "exploit"][1..] == ["exploit"];
    assert RunAction(TwoPhases(), "probe", false) == Executed(Ok, true);
  }

  /** The full run of a valid plugin reports, while separate runs from the same environment do not. */
  lemma SeparateRunsDoNotCompose()
    ensures var d, names := TwoPhases(), ["probe", "exploit"];
            && d.known == KnownActions(d.plugin.actions) && WellFormed(d.plugin, d.known)
            && RunWorkflow(d, names, UNDEFINED, false).outcome == Report
            && RunWorkflow(d, names, FINGERPRINT, false).outcome == NoReport
            && RunWorkflow(d, names, DETECTION, false).outcome == Failed(ActionFailed)
            && !Composes(d, names, [FINGERPRINT, DETECTION], [false, false], false)
  {
    TwoPhasesValid();
    ProbeRuns(UNDEFINED);
    ProbeRuns(FINGERPRINT);
    ProbeRuns(DETECTION);
    ExploitRuns(UNDEFINED, true);
    ExploitRuns(FINGERPRINT, true);
    ExploitRuns(DETECTION, false);
    var runs := SeparateRuns(TwoPhases(), ["probe", "exploit"], [FINGERPRINT, DETECTION], [false, false]);
    assert JoinedOutcome(runs) == JoinedOutcome(runs[1..]) == runs[1].outcome;
  }

  // ---------- Cleanups ----------

  function Flatten(blocks: seq<seq<Step>>): seq<Step> {
    if blocks == [] then [] else blocks[0] + Flatten(blocks[1..])
  }

  /** What each deferred function executed, the last deferred one first. */
  function CleanupBlocks<E>(d: Detector<E>, deferred: seq<seq<string>>, env: E): seq<seq<Step>> {
    if deferred == [] then []
    else
      var last := RunCleanups(d, deferred[|deferred| - 1], env);
      [last.steps] + CleanupBlocks(d, deferred[..|deferred| - 1], last.env)
  }

  lemma {:induction false} CleanupsUpToFirstFailure<E>(d: Detector<E>, names: seq<string>, env: E)
    ensures UpToFirstFailure(names, RunCleanups(d, names, env).steps)
  {
    if names == [] {
    } else {
      var r := RunAction(d, names[0], env);
      if r.status.Err? {
        assert !RunCleanups(d, names, env).steps[0].status.Ok?;
      } else {
        CleanupsUpToFirstFailure(d, names[1..], r.env);
        UpToFirstFailureCons(names[0], names[1..], RunCleanups(d, names[1..], r.env).steps);
        assert [names[0]] + names[1..] == names;
      }
    }
  }

  /** One block per list, in reverse order, each working through its list. */
  ghost predicate BlocksFit(deferred: seq<seq<string>>, blocks: seq<seq<Step>>) {
    && |blocks| == |deferred|
    && forall i :: 0 <= i < |blocks| ==> UpToFirstFailure(deferred[|deferred| - 1 - i], blocks[i])
  }

  lemma BlocksFitCons(deferred: seq<seq<string>>, last: seq<string>, block: seq<Step>, blocks: seq<seq<Step>>)
    requires BlocksFit(deferred, blocks) && UpToFirstFailure(last, block)
    ensures BlocksFit(deferred + [last], [block] + blocks)
  {
    var lists, all := deferred + [last], [block] + blocks;
    forall i | 0 <= i < |all| ensures UpToFirstFailure(lists[|lists| - 1 - i], all[i]) {
      if i > 0 {
        assert all[i] == blocks[i - 1] && lists[|lists| - 1 - i] == deferred[|deferred| - 1 - (i - 1)];
      }
    }
  }

  lemma {:induction false} DeferredBlocks<E>(d: Detector<E>, deferred: seq<seq<string>>, env: E)
    ensures RunDeferred(d, deferred, env).steps == Flatten(CleanupBlocks(d, deferred, env))
    ensures BlocksFit(deferred, CleanupBlocks(d, deferred, env))
  {
    if deferred == [] {
    } else {
      var init, list := deferred[..|deferred| - 1], deferred[|deferred| - 1];
      assert deferred == init + [list];
      var last := RunCleanups(d, list, env);
      CleanupsUpToFirstFailure(d, list, env);
      DeferredBlocks(d, init, last.env);
      var rest := CleanupBlocks(d, init, last.env);
      assert CleanupBlocks(d, deferred, env) == [last.steps] + rest;
      assert ([last.steps] + rest)[1..] == rest;
      BlocksFitCons(init, list, last.steps, rest);
    }
  }

  /** How many actions of a run succeeded: all of them, or all but the failing last one. */
  function Succeeded(steps: seq<Step>): (n: nat)
    ensures n <= |steps|
  {
    if steps != [] && steps[|steps| - 1].status.Err? then |steps| - 1 else |steps|
  }

  lemma {:induction false} DeferredOfOk(known: map<string, Action>, steps: seq<Step>)
    requires AllOk(steps) && forall i :: 0 <= i < |steps| ==> steps[i].name in known
    ensures |DeferredBy(known, steps)| == |steps|
    ensures forall i :: 0 <= i < |steps| ==> DeferredBy(known, steps)[i] == known[steps[i].name].cleanups
  {
    if steps == [] {
    } else {
      DeferredOfOk(known, steps[..|steps| - 1]);
    }
  }

  /** A successful step is a known action's; only the last step can have failed. */
  ghost predicate MainShape(known: map<string, Action>, steps: seq<Step>) {
    && (forall i :: 0 <= i < |steps| && steps[i].status.Ok? ==> steps[i].name in known)
    && (forall i :: 0 <= i < |steps| - 1 ==> steps[i].status.Ok?)
  }

  lemma MainShapeCons(known: map<string, Action>, name: string, steps: seq<Step>)
    requires MainShape(known, steps) && name in known
    ensures MainShape(known, [Step(name, Ok)] + steps)
  {
    var all := [Step(name, Ok)] + steps;
    assert forall i :: 0 < i < |all| ==> all[i] == steps[i - 1];
  }

  lemma {:induction false} MainSteps<E>(d: Detector<E>, names: seq<string>, target: int, env: E)
    ensures MainShape(d.known, RunMain(d, names, target, env).steps)
  {
    if names == [] || EndsAt(d.known, target, names[0]) {
    } else if Skipped(d.known, target, names[0]) {
      MainSteps(d, names[1..], target, env);
    } else {
      var r := RunAction(d, names[0], env);
      if r.status.Ok? {
        MainSteps(d, names[1..], target, r.env);
        MainShapeCons(d.known, names[0], RunMain(d, names[1..], target, r.env).steps);
      }
    }
  }

  /** The deferred lists are those of the steps that succeeded. */
  lemma DeferredOfShape(known: map<string, Action>, steps: seq<Step>)
    requires MainShape(known, steps)
    ensures var n := Succeeded(steps);
            && AllOk(steps[..n]) && (forall i :: n <= i < |steps| ==> steps[i].status.Err?)
            && |DeferredBy(known, steps)| == n
            && forall i :: 0 <= i < n ==>
                 steps[i].name in known && DeferredBy(known, steps)[i] == known[steps[i].name].cleanups
  {
    var n := Succeeded(steps);
    DeferredOfOk(known, steps[..n]);
    if n == |steps| {
      assert steps[..n] == steps;
    }
  }

  /** On every way out the cleanup lists of exactly the actions that succeeded run, once each, in
      reverse order, each in order up to its first failure; the outcome is that of the main part. */
  lemma CleanupDiscipline<E>(d: Detector<E>, names: seq<string>, target: int, env: E)
    ensures var main := RunMain(d, names, target, env);
            var r := RunWorkflow(d, names, target, env);
            var n := Succeeded(main.steps);
            var blocks := CleanupBlocks(d, DeferredBy(d.known, main.steps), main.env);
            && r.outcome == main.outcome && r.steps == main.steps
            && AllOk(r.steps[..n]) && (forall i :: n <= i < |r.steps| ==> r.steps[i].status.Err?)
            && r.cleanups == Flatten(blocks) && |blocks| == n
            && forall i :: 0 <= i < n ==>
                 r.steps[n - 1 - i].name in d.known
                 && UpToFirstFailure(d.known[r.steps[n - 1 - i].name].cleanups, blocks[i])
  {
    var main := RunMain(d, names, target, env);
    MainSteps(d, names, target, env);
    DeferredOfShape(d.known, main.steps);
    var deferred := DeferredBy(d.known, main.steps);
    DeferredBlocks(d, deferred, main.env);
    ListsAreCleanups(d.known, main.steps, deferred, CleanupBlocks(d, deferred, main.env));
  }

  lemma ListsAreCleanups(known: map<string, Action>, steps: seq<Step>, deferred: seq<seq<string>>,
                         blocks: seq<seq<Step>>)
    requires |deferred| <= |steps| && BlocksFit(deferred, blocks)
    requires forall i :: 0 <= i < |deferred| ==> steps[i].name in known && deferred[i] == known[steps[i].name].cleanups
    ensures forall i :: 0 <= i < |deferred| ==>
              steps[|deferred| - 1 - i].name in known
              && UpToFirstFailure(known[steps[|deferred| - 1 - i].name].cleanups, blocks[i])
  {
    forall i | 0 <= i < |deferred|
      ensures steps[|deferred| - 1 - i].name in known
      ensures UpToFirstFailure(known[steps[|deferred| - 1 - i].name].cleanups, blocks[i])
    {
      assert UpToFirstFailure(deferred[|deferred| - 1 - i], blocks[i]);
    }
  }

  // ---------- Validated plugins ----------

  /** An action that validation lets a workflow or a cleanup list name. */
  predicate Runnable(known: map<string, Action>, name: string) {
    name in known && known[name].kind != NoRunner
  }

  ghost predicate AllRunnable(known: map<string, Action>, names: seq<string>) {
    forall i :: 0 <= i < |names| ==> Runnable(known, names[i])
  }

  ghost predicate ListsRunnable(known: map<string, Action>, lists: seq<seq<string>>) {
    forall k :: 0 <= k < |lists| ==> AllRunnable(known, lists[k])
  }

  /** A step that the engine itself did not refuse. */
  predicate Dispatched(step: Step) {
    step.status != Err(ActionNotFound) && step.status != Err(InvalidAction)
  }

  lemma {:induction false} MainDispatched<E>(d: Detector<E>, names: seq<string>, target: int, env: E)
    requires AllRunnable(d.known, names)
    ensures forall s :: s in RunMain(d, names, target, env).steps ==> Dispatched(s)
  {
    if names == [] || EndsAt(d.known, target, names[0]) {
    } else {
      assert forall i :: 0 <= i < |names[1..]| ==> names[1..][i] == names[i + 1];
      var r := RunAction(d, names[0], env);
      MainDispatched(d, names[1..], target, if Skipped(d.known, target, names[0]) then env else r.env);
    }
  }

  lemma {:induction false} CleanupsDispatched<E>(d: Detector<E>, names: seq<string>, env: E)
    requires AllRunnable(d.known, names)
    ensures forall s :: s in RunCleanups(d, names, env).steps ==> Dispatched(s)
  {
    if names == [] {
    } else {
      assert forall i :: 0 <= i < |names[1..]| ==> names[1..][i] == names[i + 1];
      var r := RunAction(d, names[0], env);
      if r.status.Ok? {
        CleanupsDispatched(d, names[1..], r.env);
      }
    }
  }

  lemma {:induction false} DeferredDispatched<E>(d: Detector<E>, deferred: seq<seq<string>>, env: E)
    requires ListsRunnable(d.known, deferred)
    ensures forall s :: s in RunDeferred(d, deferred, env).steps ==> Dispatched(s)
  {
    if deferred == [] {
    } else {
      var last := RunCleanups(d, deferred[|deferred| - 1], env);
      CleanupsDispatched(d, deferred[|deferred| - 1], env);
      DeferredDispatched(d, deferred[..|deferred| - 1], last.env);
    }
  }

  /** After validation no action of a run, main part or cleanup, is unknown or without a runner. */
  lemma NeverUnknown<E>(d: Detector<E>, w: Workflow, target: int, env: E)
    requires WellFormed(d.plugin, d.known) && w in d.plugin.workflows
    ensures var r := RunWorkflow(d, w.actions, target, env);
            && (forall s :: s in r.steps || s in r.cleanups ==> Dispatched(s))
            && r.outcome != Failed(ActionNotFound) && r.outcome != Failed(InvalidAction)
  {
    var main := RunMain(d, w.actions, target, env);
    MainDispatched(d, w.actions, target, env);
    PhaseSlice(d, w.actions, target, env);
    assert main.outcome.Failed? ==> main.steps[|main.steps| - 1] in main.steps;
    MainSteps(d, w.actions, target, env);
    CleanupsRunnable(d.known, main.steps);
    DeferredDispatched(d, DeferredBy(d.known, main.steps), main.env);
  }

  lemma CleanupsRunnable(known: map<string, Action>, steps: seq<Step>)
    requires ActionsOk(known) && MainShape(known, steps)
    ensures ListsRunnable(known, DeferredBy(known, steps))
  {
    DeferredOfShape(known, steps);
    var deferred := DeferredBy(known, steps);
    forall k, i | 0 <= k < |deferred| && 0 <= i < |deferred[k]| ensures Runnable(known, deferred[k][i]) {
      assert deferred[k][i] in deferred[k];
    }
  }

  predicate EndedWith(steps: seq<Step>, error: Error) {
    steps != [] && steps[|steps| - 1].status == Err(error)
  }

  /** Detection with a validated plugin: a finding exactly when every action of the chosen workflow was
      executed and succeeded, no finding exactly when an action failed, and an error exactly when a runner
      returned it; the engine's own errors never surface. */
  lemma FindingIff<E>(d: Detector<E>, w: Workflow, env: E)
    requires WellFormed(d.plugin, d.known) && w in d.plugin.workflows
    ensures var run := RunWorkflow(d, w.actions, UNDEFINED, env);
            var verdict := VerdictOf(Detected(run));
            && (verdict == Finding <==> Names(run.steps) == w.actions && AllOk(run.steps))
            && (verdict == NoFinding <==> EndedWith(run.steps, ActionFailed))
            && (forall code: int :: verdict == Broken(RunnerError(code)) <==> EndedWith(run.steps, RunnerError(code)))
            && (verdict.Broken? ==> verdict.error.RunnerError?)
  {
    PhaseSlice(d, w.actions, UNDEFINED, env);
    AllOfPhase(d.known, w.actions, UNDEFINED);
    NeverUnknown(d, w, UNDEFINED, env);
    MainErrors(d, w.actions, UNDEFINED, env);
  }

  lemma {:induction false} MainErrors<E>(d: Detector<E>, names: seq<string>, target: int, env: E)
    ensures var main := RunMain(d, names, target, env);
            main.outcome.Failed? ==> main.outcome.error != InitError
    ensures target == UNDEFINED ==> !RunMain(d, names, target, env).outcome.NoReport?
  {
    if names == [] || EndsAt(d.known, target, names[0]) {
    } else {
      var r := RunAction(d, names[0], env);
      MainErrors(d, names[1..], target, if Skipped(d.known, target, names[0]) then env else r.env);
    }
  }
}
