/** Running the workflow of a templated plugin (common/templatedengine/templated.go). The environment
    is any value `E`; `runner` is what running one action does to it. */
module TemplatedEngine {

  /** Enum numbers; an undefined phase counts as detection. */
  const UNDEFINED: int := 0
  const FINGERPRINT: int := 1
  const DETECTION: int := 2

  datatype Kind = NoRunner | HttpRequest | Utility | CallbackServer

  datatype Action = Action(name: string, phase: int, kind: Kind, cleanups: seq<string>)

  datatype Workflow = Workflow(needsCallback: bool, actions: seq<string>)

  datatype Plugin = Plugin(actions: seq<Action>, workflows: seq<Workflow>)

  datatype Error = ActionNotFound | InvalidAction | ActionFailed | RunnerError(code: int) | InitError

  datatype Status = Ok | Err(error: Error)

  /** A runner fails with an error of its own or with a failed action. */
  datatype RunnerStatus = RunOk | RunFailed | RunError(code: int)

  datatype Ran<E> = Ran(status: RunnerStatus, env: E)

  /** The plugin, its actions by name, and the service it runs against. */
  datatype Detector<!E> = Detector(plugin: Plugin, known: map<string, Action>, webService: bool, callbacks: bool,
                                   runner: (Action, E) -> Ran<E>)

  /** The last action of a name is the one known. */
  function KnownActions(actions: seq<Action>): map<string, Action> {
    if actions == [] then map[]
    else KnownActions(actions[..|actions| - 1])[actions[|actions| - 1].name := actions[|actions| - 1]]
  }

  function PhaseOf(known: map<string, Action>, name: string): int {
    if name !in known || known[name].phase == UNDEFINED then DETECTION else known[name].phase
  }

  // ---------- Validation ----------

  predicate ActionsOk(known: map<string, Action>) {
    forall name :: name in known ==>
      known[name].kind != NoRunner && forall c :: c in known[name].cleanups ==> c in known
  }

  predicate Ascending(known: map<string, Action>, names: seq<string>) {
    && (forall i :: 0 <= i < |names| ==> PhaseOf(known, names[i]) >= UNDEFINED)
    && (forall i, j :: 0 <= i < j < |names| ==> PhaseOf(known, names[i]) <= PhaseOf(known, names[j]))
  }

  predicate WorkflowOk(known: map<string, Action>, names: seq<string>) {
    (forall i :: 0 <= i < |names| ==> names[i] in known) && Ascending(known, names)
  }

  predicate WellFormed(plugin: Plugin, known: map<string, Action>) {
    ActionsOk(known) && forall w :: w in plugin.workflows ==> WorkflowOk(known, w.actions)
  }

  method ValidateAction(known: map<string, Action>, action: Action) returns (status: Status)
    ensures status.Ok? <==> action.kind != NoRunner && forall c :: c in action.cleanups ==> c in known
    ensures status.Err? ==> status.error == if action.kind == NoRunner then InvalidAction else ActionNotFound
  {
    if action.kind == NoRunner {
      return Err(InvalidAction);
    }
    for i := 0 to |action.cleanups|
      invariant forall j :: 0 <= j < i ==> action.cleanups[j] in known
    {
      if action.cleanups[i] !in known {
        return Err(ActionNotFound);
      }
    }
    return Ok;
  }

  method ValidateWorkflow(known: map<string, Action>, names: seq<string>) returns (status: Status)
    ensures status.Ok? <==> WorkflowOk(known, names)
    ensures status == Err(ActionNotFound) ==> exists i :: 0 <= i < |names| && names[i] !in known
    ensures status == Err(InvalidAction) ==> !Ascending(known, names)
    ensures status.Err? ==> status.error == ActionNotFound || status.error == InvalidAction
  {
    var currentPhase := UNDEFINED;
    for i := 0 to |names|
      invariant forall j :: 0 <= j < i ==> names[j] in known
      invariant Ascending(known, names[..i])
      invariant currentPhase == if i == 0 then UNDEFINED else PhaseOf(known, names[i - 1])
    {
      if names[i] !in known {
        return Err(ActionNotFound);
      }
      var phase := PhaseOf(known, names[i]);
      if phase < currentPhase {
        return Err(InvalidAction);
      }
      assert i > 0 ==> names[..i][i - 1] == names[i - 1];
      forall j, k | 0 <= j < k < i + 1 ensures PhaseOf(known, names[j]) <= PhaseOf(known, names[k]) {
        assert names[..i + 1][j] == names[j] && names[..i + 1][k] == names[k];
        if j < i - 1 {
          assert names[..i][j] == names[j];
        }
        if k < i {
          assert names[..i][k] == names[k];
        }
      }
      assert i > 0 ==> PhaseOf(known, names[..i][i - 1]) >= UNDEFINED;
      currentPhase := phase;
    }
    assert names[..|names|] == names;
    return Ok;
  }

  /** Validation accepts exactly the well-formed plugins; map iteration order only decides which
      error is reported. */
  method Validate(plugin: Plugin, known: map<string, Action>) returns (status: Status)
    ensures status.Ok? <==> WellFormed(plugin, known)
    ensures status.Err? ==> status.error == ActionNotFound || status.error == InvalidAction
  {
    var left := known.Keys;
    while left != {}
      invariant left <= known.Keys
      invariant forall name :: name in known && name !in left ==>
                  known[name].kind != NoRunner && forall c :: c in known[name].cleanups ==> c in known
      decreases left
    {
      var name :| name in left;
      status := ValidateAction(known, known[name]);
      if status.Err? {
        return;
      }
      left := left - {name};
    }
    for i := 0 to |plugin.workflows|
      invariant forall j :: 0 <= j < i ==> WorkflowOk(known, plugin.workflows[j].actions)
    {
      status := ValidateWorkflow(known, plugin.workflows[i].actions);
      if status.Err? {
        return;
      }
    }
    return Ok;
  }

  /** `New`: the actions by name, a later one replacing an earlier one of the same name. */
  method New(plugin: Plugin) returns (status: Status, known: map<string, Action>)
    ensures known == KnownActions(plugin.actions)
    ensures status.Ok? <==> WellFormed(plugin, known)
    ensures status.Err? ==> status.error == ActionNotFound || status.error == InvalidAction
  {
    known := map[];
    for i := 0 to |plugin.actions|
      invariant known == KnownActions(plugin.actions[..i])
    {
      assert plugin.actions[..i + 1][..i] == plugin.actions[..i];
      known := known[plugin.actions[i].name := plugin.actions[i]];
    }
    assert plugin.actions[..|plugin.actions|] == plugin.actions;
    status := Validate(plugin, known);
  }

  // ---------- Running ----------

  /** One action executed, and how it ended. */
  datatype Step = Step(name: string, status: Status)

  datatype Executed<E> = Executed(status: Status, env: E)

  function RunAction<E>(d: Detector<E>, name: string, env: E): Executed<E> {
    if name !in d.known then Executed(Err(ActionNotFound), env)
    else
      var action := d.known[name];
      if action.kind == HttpRequest && !d.webService then Executed(Err(ActionFailed), env)
      else if action.kind == NoRunner then Executed(Err(InvalidAction), env)
      else
        var ran := d.runner(action, env);
        match ran.status
        case RunOk => Executed(Ok, ran.env)
        case RunFailed => Executed(Err(ActionFailed), ran.env)
        case RunError(code) => Executed(Err(RunnerError(code)), ran.env)
  }

  /** Whether the phase filter lets an action run, skips it, or ends the workflow. */
  predicate Skipped(known: map<string, Action>, target: int, name: string) {
    target != UNDEFINED && PhaseOf(known, name) < target
  }

  predicate EndsAt(known: map<string, Action>, target: int, name: string) {
    target != UNDEFINED && PhaseOf(known, name) > target
  }

  datatype Outcome = Report | NoReport | Failed(error: Error)

  /** The main part of a run: its outcome, the environment it leaves and the actions executed. */
  datatype Main<E> = Main(outcome: Outcome, env: E, steps: seq<Step>)

  /** A run that starts with `steps` and goes on as `rest`. */
  function After<E>(steps: seq<Step>, rest: Main<E>): Main<E> {
    rest.(steps := steps + rest.steps)
  }

  function RunMain<E>(d: Detector<E>, names: seq<string>, target: int, env: E): Main<E> {
    if names == [] then Main(Report, env, [])
    else if Skipped(d.known, target, names[0]) then RunMain(d, names[1..], target, env)
    else if EndsAt(d.known, target, names[0]) then Main(NoReport, env, [])
    else
      var r := RunAction(d, names[0], env);
      if r.status.Err? then Main(Failed(r.status.error), r.env, [Step(names[0], r.status)])
      else
        After([Step(names[0], Ok)], RunMain(d, names[1..], target, r.env))
  }

  /** The loop's view of RunMain at index `i`. */
  lemma RunMainAt<E>(d: Detector<E>, names: seq<string>, i: nat, target: int, env: E)
    requires i < |names|
    ensures RunMain(d, names[i..], target, env)
         == if Skipped(d.known, target, names[i]) then RunMain(d, names[i + 1..], target, env)
            else if EndsAt(d.known, target, names[i]) then Main(NoReport, env, [])
            else
              var r := RunAction(d, names[i], env);
              if r.status.Err? then Main(Failed(r.status.error), r.env, [Step(names[i], r.status)])
              else After([Step(names[i], Ok)], RunMain(d, names[i + 1..], target, r.env))
  {
    assert names[i..][1..] == names[i + 1..];
  }

  lemma AfterAfter<E>(steps: seq<Step>, more: seq<Step>, rest: Main<E>)
    ensures After(steps, After(more, rest)) == After(steps + more, rest)
  {
    assert steps + (more + rest.steps) == steps + more + rest.steps;
  }

  lemma DeferredBySnoc(known: map<string, Action>, steps: seq<Step>, last: Step)
    ensures DeferredBy(known, steps + [last])
         == DeferredBy(known, steps) + if last.status.Ok? && last.name in known then [known[last.name].cleanups] else []
  {
    assert (steps + [last])[..|steps|] == steps;
  }

  datatype Cleaned<E> = Cleaned(env: E, steps: seq<Step>)

  /** Cleanups that start with `steps` and go on as `rest`. */
  function CleanedAfter<E>(steps: seq<Step>, rest: Cleaned<E>): Cleaned<E> {
    rest.(steps := steps + rest.steps)
  }

  /** One deferred function: its actions in order up to the first failure. */
  function RunCleanups<E>(d: Detector<E>, names: seq<string>, env: E): Cleaned<E> {
    if names == [] then Cleaned(env, [])
    else
      var r := RunAction(d, names[0], env);
      if r.status.Err? then Cleaned(r.env, [Step(names[0], r.status)])
      else CleanedAfter([Step(names[0], Ok)], RunCleanups(d, names[1..], r.env))
  }

  /** All deferred functions, the last one first. */
  function RunDeferred<E>(d: Detector<E>, deferred: seq<seq<string>>, env: E): Cleaned<E> {
    if deferred == [] then Cleaned(env, [])
    else
      var last := RunCleanups(d, deferred[|deferred| - 1], env);
      CleanedAfter(last.steps, RunDeferred(d, deferred[..|deferred| - 1], last.env))
  }

  /** The cleanup lists of the actions that succeeded, in the order they ran. */
  function DeferredBy(known: map<string, Action>, steps: seq<Step>): seq<seq<string>> {
    if steps == [] then []
    else
      var last := steps[|steps| - 1];
      DeferredBy(known, steps[..|steps| - 1])
      + if last.status.Ok? && last.name in known then [known[last.name].cleanups] else []
  }

  datatype Run<E> = Run(outcome: Outcome, env: E, steps: seq<Step>, cleanups: seq<Step>)

  function RunWorkflow<E>(d: Detector<E>, names: seq<string>, target: int, env: E): Run<E> {
    var main := RunMain(d, names, target, env);
    var cleaned := RunDeferred(d, DeferredBy(d.known, main.steps), main.env);
    Run(main.outcome, cleaned.env, main.steps, cleaned.steps)
  }

  /** The action loop of runWorkflowForService, with the cleanup lists it has deferred when it ends. */
  method RunActions<E>(d: Detector<E>, names: seq<string>, target: int, init: E)
      returns (main: Main<E>, deferred: seq<seq<string>>)
    ensures main == RunMain(d, names, target, init)
    ensures deferred == DeferredBy(d.known, main.steps)
  {
    var env := init;
    var steps: seq<Step> := [];
    deferred := [];
    for i := 0 to |names|
      invariant deferred == DeferredBy(d.known, steps)
      invariant RunMain(d, names, target, init) == After(steps, RunMain(d, names[i..], target, env))
    {
      var name := names[i];
      RunMainAt(d, names, i, target, env);
      if target != UNDEFINED {
        var phase := PhaseOf(d.known, name);
        if phase < target {
          continue;
        }
        if phase > target {
          return Main(NoReport, env, steps), deferred;
        }
      }
      var executed := RunAction(d, name, env);
      env := executed.env;
      if executed.status.Err? {
        DeferredBySnoc(d.known, steps, Step(name, executed.status));
        return Main(Failed(executed.status.error), env, steps + [Step(name, executed.status)]), deferred;
      }
      DeferredBySnoc(d.known, steps, Step(name, Ok));
      AfterAfter(steps, [Step(name, Ok)], RunMain(d, names[i + 1..], target, env));
      deferred := deferred + [d.known[name].cleanups];
      steps := steps + [Step(name, Ok)];
    }
    return Main(Report, env, steps), deferred;
  }

  /** runWorkflowForService: the loop, then its deferred cleanups, on every way out. */
  method RunWorkflowForService<E>(d: Detector<E>, names: seq<string>, target: int, init: E) returns (r: Run<E>)
    ensures r == RunWorkflow(d, names, target, init)
  {
    var main, deferred := RunActions(d, names, target, init);
    var cleaned := RunAllDeferred(d, deferred, main.env);
    r := Run(main.outcome, cleaned.env, main.steps, cleaned.steps);
  }

  lemma CleanedAfterTwice<E>(steps: seq<Step>, more: seq<Step>, rest: Cleaned<E>)
    ensures CleanedAfter(steps, CleanedAfter(more, rest)) == CleanedAfter(steps + more, rest)
  {
    assert steps + (more + rest.steps) == steps + more + rest.steps;
  }

  lemma RunDeferredAt<E>(d: Detector<E>, deferred: seq<seq<string>>, i: nat, env: E)
    requires i < |deferred|
    ensures var last := RunCleanups(d, deferred[i], env);
            RunDeferred(d, deferred[..i + 1], env) == CleanedAfter(last.steps, RunDeferred(d, deferred[..i], last.env))
  {
    assert deferred[..i + 1][..i] == deferred[..i];
  }

  lemma RunCleanupsAt<E>(d: Detector<E>, names: seq<string>, i: nat, env: E)
    requires i < |names|
    ensures RunCleanups(d, names[i..], env)
         == var r := RunAction(d, names[i], env);
            if r.status.Err? then Cleaned(r.env, [Step(names[i], r.status)])
            else CleanedAfter([Step(names[i], Ok)], RunCleanups(d, names[i + 1..], r.env))
  {
    assert names[i..][1..] == names[i + 1..];
  }

  method RunAllDeferred<E>(d: Detector<E>, deferred: seq<seq<string>>, init: E) returns (c: Cleaned<E>)
    ensures c == RunDeferred(d, deferred, init)
  {
    var env := init;
    var steps: seq<Step> := [];
    var i := |deferred|;
    assert deferred[..i] == deferred;
    while i > 0
      invariant 0 <= i <= |deferred|
      invariant RunDeferred(d, deferred, init) == CleanedAfter(steps, RunDeferred(d, deferred[..i], env))
    {
      i := i - 1;
      RunDeferredAt(d, deferred, i, env);
      var one := RunDeferredList(d, deferred[i], env);
      CleanedAfterTwice(steps, one.steps, RunDeferred(d, deferred[..i], one.env));
      env := one.env;
      steps := steps + one.steps;
    }
    c := Cleaned(env, steps);
  }

  method RunDeferredList<E>(d: Detector<E>, names: seq<string>, init: E) returns (c: Cleaned<E>)
    ensures c == RunCleanups(d, names, init)
  {
    var env := init;
    var steps: seq<Step> := [];
    for i := 0 to |names|
      invariant RunCleanups(d, names, init) == CleanedAfter(steps, RunCleanups(d, names[i..], env))
    {
      var executed := RunAction(d, names[i], env);
      RunCleanupsAt(d, names, i, env);
      env := executed.env;
      if executed.status.Err? {
        return Cleaned(env, steps + [Step(names[i], executed.status)]);
      }
      CleanedAfterTwice(steps, [Step(names[i], Ok)], RunCleanups(d, names[i + 1..], env));
      steps := steps + [Step(names[i], Ok)];
    }
    return Cleaned(env, steps);
  }

  // ---------- Choosing a workflow ----------

  /** The environment a workflow starts with: initialised for the service, then extended by the
      extra variables and those of the workflow. */
  datatype Started<E> = StartOk(env: E) | StartFailed

  datatype Detection<E> = NoWorkflow | NotStarted | Detected(run: Run<E>)

  predicate MeetsConditions(w: Workflow, callbacks: bool) {
    w.needsCallback ==> callbacks
  }

  /** The first workflow whose conditions are met is run; the others never are. */
  method DetectForPhase<E>(d: Detector<E>, start: Workflow -> Started<E>, target: int) returns (r: Detection<E>)
    ensures r == NoWorkflow <==> forall w :: w in d.plugin.workflows ==> w.needsCallback && !d.callbacks
    ensures forall k | FirstMeeting(d, k) :: r == DetectionBy(d, start, d.plugin.workflows[k], target)
  {
    for i := 0 to |d.plugin.workflows|
      invariant forall j :: 0 <= j < i ==> !MeetsConditions(d.plugin.workflows[j], d.callbacks)
    {
      var workflow := d.plugin.workflows[i];
      if MeetsConditions(workflow, d.callbacks) {
        var started := start(workflow);
        if started.StartFailed? {
          return NotStarted;
        }
        var run := RunWorkflowForService(d, workflow.actions, target, started.env);
        return Detected(run);
      }
    }
    return NoWorkflow;
  }

  predicate FirstMeeting<E>(d: Detector<E>, k: int) {
    && 0 <= k < |d.plugin.workflows|
    && (d.plugin.workflows[k].needsCallback ==> d.callbacks)
    && forall j :: 0 <= j < k ==> d.plugin.workflows[j].needsCallback && !d.callbacks
  }

  function DetectionBy<E>(d: Detector<E>, start: Workflow -> Started<E>, w: Workflow, target: int): Detection<E> {
    match start(w)
    case StartFailed => NotStarted
    case StartOk(env) => Detected(RunWorkflow(d, w.actions, target, env))
  }

  /** What Detect tells its caller: a failed action and a missing workflow are no finding. */
  datatype Verdict = Finding | NoFinding | Broken(error: Error)

  method Detect<E>(d: Detector<E>, start: Workflow -> Started<E>) returns (verdict: Verdict)
    ensures (forall w :: w in d.plugin.workflows ==> w.needsCallback && !d.callbacks) ==> verdict == NoFinding
    ensures forall k | FirstMeeting(d, k) :: Says(d, start(d.plugin.workflows[k]), d.plugin.workflows[k], verdict)
  {
    var detection := DetectForPhase(d, start, UNDEFINED);
    verdict := VerdictOf(detection);
  }

  /** The verdict is about this workflow, started so. */
  predicate Says<E>(d: Detector<E>, started: Started<E>, w: Workflow, verdict: Verdict) {
    match started
    case StartFailed => verdict == Broken(InitError)
    case StartOk(env) =>
      match RunWorkflow(d, w.actions, UNDEFINED, env).outcome
      case Report => verdict == Finding
      case NoReport => verdict == NoFinding
      case Failed(error) => verdict == if error == ActionFailed then NoFinding else Broken(error)
  }

  function VerdictOf<E>(detection: Detection<E>): Verdict {
    match detection
    case NoWorkflow => NoFinding
    case NotStarted => Broken(InitError)
    case Detected(run) =>
      if run.outcome.Report? then Finding
      else if run.outcome.NoReport? || run.outcome.error == ActionFailed then NoFinding
      else Broken(run.outcome.error)
  }
}
