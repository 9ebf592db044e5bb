/** When separate runs of the phases, all from the environment of the full run, add up to it. */
module TemplatedSeparation {
  import opened TemplatedEngine
  import opened TemplatedTheorems

  ghost predicate OfPhase(known: map<string, Action>, names: seq<string>, phase: int) {
    forall i :: 0 <= i < |names| ==> PhaseOf(known, names[i]) == phase
  }

  /** No list of actions of phase `q` can tell the two environments apart. */
  ghost predicate Alike<E>(d: Detector<E>, q: int, e: E, e': E) {
    forall names | OfPhase(d.known, names, q) ::
      RunMain(d, names, UNDEFINED, e).steps == RunMain(d, names, UNDEFINED, e').steps
  }

  /** What an action that succeeds does to the environment shows in no later phase. */
  ghost predicate NoLeak<E(!new)>(d: Detector<E>) {
    forall name, env, q | UNDEFINED <= PhaseOf(d.known, name) < q && RunAction(d, name, env).status.Ok? ::
      Alike(d, q, env, RunAction(d, name, env).env)
  }

  /** Every run starts in the same environment. */
  function FromOne<E>(phases: seq<int>, env: E): (envs: seq<E>)
    ensures |envs| == |phases|
  {
    seq(|phases|, _ => env)
  }

  ghost predicate AlwaysComposes<E(!new)>(d: Detector<E>) {
    forall names, phases, env |
      Ascending(d.known, names) && Increasing(phases) && Covers(phases, d.known, names) ::
      Composes(d, names, phases, FromOne(phases, env), env)
  }

  // ---------- Without a leak the runs compose ----------

  /** A whole slice that succeeds leaks nothing either. */
  lemma {:induction false} SliceLeaksNothing<E(!new)>(d: Detector<E>, names: seq<string>, p: int, q: int, env: E)
    requires NoLeak(d) && OfPhase(d.known, names, p) && UNDEFINED <= p < q
    requires !RunMain(d, names, UNDEFINED, env).outcome.Failed?
    ensures Alike(d, q, env, RunMain(d, names, UNDEFINED, env).env)
  {
    if names == [] {
    } else {
      var r := RunAction(d, names[0], env);
      assert PhaseOf(d.known, names[0]) == p;
      assert Alike(d, q, env, r.env);
      SliceLeaksNothing(d, names[1..], p, q, r.env);
    }
  }

  lemma {:induction false} SliceIsOfPhase(known: map<string, Action>, names: seq<string>, phase: int)
    requires phase != UNDEFINED
    ensures OfPhase(known, Slice(known, names, phase), phase)
  {
    if names == [] {
    } else {
      SliceIsOfPhase(known, names[1..], phase);
    }
  }

  /** A phase ends the same way in environments that are alike for it. */
  lemma PhaseRunsAlike<E(!new)>(d: Detector<E>, names: seq<string>, p: int, e: E, e': E)
    requires Ascending(d.known, names) && p != UNDEFINED && Alike(d, p, e, e')
    ensures var main, main' := RunMain(d, names, p, e), RunMain(d, names, p, e');
            && main.steps == main'.steps && (main.outcome.Failed? <==> main'.outcome.Failed?)
            && (main.outcome.Failed? ==> main.outcome == main'.outcome)
  {
    PhaseRunIsSliceRun(d, names, p, e);
    PhaseRunIsSliceRun(d, names, p, e');
    SliceIsOfPhase(d.known, names, p);
    PhaseSlice(d, names, p, e);
    PhaseSlice(d, names, p, e');
  }

  lemma PhaseLeaksNothing<E(!new)>(d: Detector<E>, names: seq<string>, p: int, q: int, env: E)
    requires NoLeak(d) && Ascending(d.known, names) && UNDEFINED < p < q
    requires !RunMain(d, names, p, env).outcome.Failed?
    ensures Alike(d, q, env, RunMain(d, names, p, env).env)
  {
    PhaseRunIsSliceRun(d, names, p, env);
    SliceIsOfPhase(d.known, names, p);
    SliceLeaksNothing(d, Slice(d.known, names, p), p, q, env);
  }

  lemma {:induction false} SeparateFromOne<E(!new)>(d: Detector<E>, names: seq<string>, phases: seq<int>, start: E,
                                             env: E)
    requires NoLeak(d) && Ascending(d.known, names) && Increasing(phases)
    requires forall q | q in phases :: Alike(d, q, start, env)
    ensures var runs := SeparateRuns(d, names, phases, FromOne(phases, start));
            var main := ContinuedRun(d, names, phases, env);
            main.steps == JoinedSteps(runs) && main.outcome == JoinedOutcome(runs)
  {
    if phases == [] {
    } else {
      var p, main := phases[0], RunMain(d, names, phases[0], env);
      PhaseRunsAlike(d, names, p, start, env);
      SeparateTail(d, names, phases, FromOne(phases, start));
      assert FromOne(phases, start)[1..] == FromOne(phases[1..], start);
      if !main.outcome.Failed? {
        forall q | q in phases[1..] ensures Alike(d, q, start, main.env) {
          assert q in phases && p < q;
          PhaseLeaksNothing(d, names, p, q, env);
        }
        SeparateFromOne(d, names, phases[1..], start, main.env);
      }
    }
  }

  // ---------- A leak breaks some workflow ----------

  /** One action, then a list of actions of a later phase. */
  lemma TwoPhaseWorkflow(known: map<string, Action>, name: string, later: seq<string>, q: int)
    requires UNDEFINED <= PhaseOf(known, name) < q && OfPhase(known, later, q)
    ensures var names, phases := [name] + later, [PhaseOf(known, name), q];
            Ascending(known, names) && Increasing(phases) && Covers(phases, known, names)
  {
    var names := [name] + later;
    assert forall i :: 0 < i < |names| ==> names[i] == later[i - 1];
  }

  lemma FirstPhaseAlone<E>(d: Detector<E>, name: string, later: seq<string>, q: int, env: E)
    requires UNDEFINED <= PhaseOf(d.known, name) < q && OfPhase(d.known, later, q)
    requires RunAction(d, name, env).status.Ok?
    ensures var main := RunMain(d, [name] + later, PhaseOf(d.known, name), env);
            main.steps == [Step(name, Ok)] && !main.outcome.Failed?
  {
    assert ([name] + later)[1..] == later;
    assert later != [] ==> PhaseOf(d.known, later[0]) == q;
  }

  lemma SecondPhaseAlone<E>(d: Detector<E>, name: string, later: seq<string>, q: int, env: E)
    requires UNDEFINED <= PhaseOf(d.known, name) < q && OfPhase(d.known, later, q)
    ensures RunMain(d, [name] + later, q, env).steps == RunMain(d, later, UNDEFINED, env).steps
  {
    assert ([name] + later)[1..] == later;
    PhaseRunIsSliceRun(d, later, q, env);
    AllOfPhase(d.known, later, q);
  }

  lemma LeakBreaks<E>(d: Detector<E>, name: string, later: seq<string>, q: int, env: E)
    requires UNDEFINED <= PhaseOf(d.known, name) < q && OfPhase(d.known, later, q)
    requires RunAction(d, name, env).status.Ok?
    requires RunMain(d, later, UNDEFINED, env).steps
          != RunMain(d, later, UNDEFINED, RunAction(d, name, env).env).steps
    ensures var phases := [PhaseOf(d.known, name), q];
            !Composes(d, [name] + later, phases, FromOne(phases, env), env)
  {
    var names, phases := [name] + later, [PhaseOf(d.known, name), q];
    var runs := SeparateRuns(d, names, phases, FromOne(phases, env));
    FirstPhaseAlone(d, name, later, q, env);
    SecondPhaseAlone(d, name, later, q, env);
    assert runs == [runs[0], runs[1]] && runs[1..] == [runs[1]] && [runs[1]][1..] == [];
    assert JoinedSteps(runs[1..]) == runs[1].steps;
    assert JoinedSteps(runs)[1..] == runs[1].steps;
    assert names[1..] == later;
    assert RunMain(d, names, UNDEFINED, env).steps[1..]
        == RunMain(d, later, UNDEFINED, RunAction(d, name, env).env).steps;
  }

  /** Separate runs of the phases, each from the environment the full run starts in, add up to the full
      run of every workflow in phase order exactly when nothing one phase does to the environment shows
      in a later phase. */
  lemma SeparateFromOneIff<E(!new)>(d: Detector<E>)
    ensures AlwaysComposes(d) <==> NoLeak(d)
  {
    if NoLeak(d) {
      forall names, phases, env |
        Ascending(d.known, names) && Increasing(phases) && Covers(phases, d.known, names)
        ensures Composes(d, names, phases, FromOne(phases, env), env)
      {
        SeparateFromOne(d, names, phases, env, env);
        ContinuedRunIsFullRun(d, names, phases, env);
      }
    } else {
      var name, env, q :| UNDEFINED <= PhaseOf(d.known, name) < q && RunAction(d, name, env).status.Ok?
                          && !Alike(d, q, env, RunAction(d, name, env).env);
      var later :| OfPhase(d.known, later, q)
                   && RunMain(d, later, UNDEFINED, env).steps
                      != RunMain(d, later, UNDEFINED, RunAction(d, name, env).env).steps;
      TwoPhaseWorkflow(d.known, name, later, q);
      LeakBreaks(d, name, later, q, env);
    }
  }

  /** The condition asks less than that actions ignore the environment: they may read what none of them
      changes. */
  lemma ReadersCompose<E(!new)>(d: Detector<E>)
    requires forall name, env :: RunAction(d, name, env).status.Ok? ==> RunAction(d, name, env).env == env
    ensures AlwaysComposes(d)
  {
    SeparateFromOneIff(d);
  }
}
