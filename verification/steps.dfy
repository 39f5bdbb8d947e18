/** The steps of a trick (src/tricks/steps.rs): a closed sum of seven kinds, each run by
    `RunStep::run`, which maps the step's own `do_run` result to one of its two outcomes.
    Everything a step's `do_run` depends on outside the engine is in a `StepEnv`. */
module Steps {
  import opened Results
  import opened Statuses
  import opened Processes
  import opened DockerCmd
  import DockerContainer
  import opened VersionChecks
  import opened ContainerSteps
  import opened HostSteps
  import opened WaitSteps
  import opened EnvironmentSteps

  datatype Step =
    | CreateEnvironmentStep(createEnvironment: CreateEnvironment)
    | VersionCheckStep(versionCheck: VersionCheck)
    | SpawnContainerStep(spawnContainer: SpawnContainer)
    | KillContainerStep(killContainer: KillContainer)
    | ContainerStep(container: Container)
    | HostStep(host: Host)
    | WaitStep(wait: Wait)

  /** What the world answers to one step: the `make` and `qemu` runs, the host the version
      probes see, the daemon's answers to a spawn, a kill and the `i`th exec of a script,
      the outcome of the `i`th host command, and whether reading stdin works. */
  datatype StepEnv = StepEnv(
    make: ProcessOutput,
    qemu: ProcessOutput,
    sys: System,
    spawn: DockerContainer.SpawnOracle,
    kill: KillOracle,
    exec: nat -> ExecOracle,
    host: nat -> ProcessOutput,
    stdinRead: bool)

  /** Why a step's `do_run` failed. */
  datatype StepError =
    | VersionCheckFailed(check: CheckError)
    | DockerFailed(docker: DockerContainer.DockerError)
    | HostFailed(hostError: HostError)
    | OtherFailure(message: string)

  /** `do_run` of the wrapped step. */
  function DoRun(step: Step, env: StepEnv): (r: Result<(), StepError>)
    ensures step.CreateEnvironmentStep? || step.WaitStep? ==> r.Ok?
    ensures step.VersionCheckStep? ==> (r.Ok? <==> Passes(step.versionCheck, env.sys))
    ensures step.SpawnContainerStep? ==> (r.Ok? <==> DoSpawn(step.spawnContainer, env.spawn).result.Ok?)
    ensures step.KillContainerStep? ==> (r.Ok? <==> env.kill.clientOk && env.kill.killOk)
    ensures step.ContainerStep? ==> (r.Ok? <==> DoContainer(step.container, env.exec).result.Ok?)
    ensures step.HostStep? ==>
      (r.Ok? <==> forall i | 0 <= i < |step.host.script| :: env.host(i).Finished? && ExitSuccess(env.host(i).status))
  {
    match step
    case CreateEnvironmentStep(c) =>
      (match DoCreateEnvironment(c, env.make, env.qemu).result
       case Ok(_) => Ok(())
       case Err(e) => Err(OtherFailure(e)))
    case VersionCheckStep(v) =>
      var run := VersionChecks.DoRun(v, env.sys);
      if run.result.Ok? then Ok(()) else Err(VersionCheckFailed(run.result.error))
    case SpawnContainerStep(s) =>
      var e := DoSpawn(s, env.spawn);
      if e.result.Ok? then Ok(()) else Err(DockerFailed(e.result.error))
    case KillContainerStep(k) =>
      var e := DoKill(k, env.kill);
      if e.result.Ok? then Ok(()) else Err(DockerFailed(e.result.error))
    case ContainerStep(c) =>
      var run := DoContainer(c, env.exec);
      if run.result.Ok? then Ok(()) else Err(DockerFailed(run.result.error))
    case HostStep(h) =>
      var run := DoHost(h, env.host);
      if run.result.Ok? then Ok(()) else Err(HostFailed(run.result.error))
    case WaitStep(w) =>
      (match DoWait(w, env.stdinRead)
       case Ok(_) => Ok(())
       case Err(e) => Err(OtherFailure(e)))
  }

  /** `on_success` of the wrapped step: its `success` field, or `Undecided` for a wait. */
  function OnSuccess(step: Step): (s: Status)
    ensures step.CreateEnvironmentStep? ==> s == step.createEnvironment.success
    ensures step.VersionCheckStep? ==> s == step.versionCheck.success
    ensures step.SpawnContainerStep? ==> s == step.spawnContainer.success
    ensures step.KillContainerStep? ==> s == step.killContainer.success
    ensures step.ContainerStep? ==> s == step.container.success
    ensures step.HostStep? ==> s == step.host.success
    ensures step.WaitStep? ==> !IsFinal(s)
  {
    match step
    case CreateEnvironmentStep(c) => c.success
    case VersionCheckStep(v) => v.success
    case SpawnContainerStep(s) => s.success
    case KillContainerStep(k) => k.success
    case ContainerStep(c) => c.success
    case HostStep(h) => h.success
    case WaitStep(w) => WaitSuccess(w)
  }

  /** `on_failure` of the wrapped step: its `failure` field, or `Undecided` for a wait. */
  function OnFailure(step: Step): (s: Status)
    ensures step.CreateEnvironmentStep? ==> s == step.createEnvironment.failure
    ensures step.VersionCheckStep? ==> s == step.versionCheck.failure
    ensures step.SpawnContainerStep? ==> s == step.spawnContainer.failure
    ensures step.KillContainerStep? ==> s == step.killContainer.failure
    ensures step.ContainerStep? ==> s == step.container.failure
    ensures step.HostStep? ==> s == step.host.failure
    ensures step.WaitStep? ==> !IsFinal(s)
  {
    match step
    case CreateEnvironmentStep(c) => c.failure
    case VersionCheckStep(v) => v.failure
    case SpawnContainerStep(s) => s.failure
    case KillContainerStep(k) => k.failure
    case ContainerStep(c) => c.failure
    case HostStep(h) => h.failure
    case WaitStep(w) => WaitFailure(w)
  }

  /** `RunStep::run`: the success outcome when `do_run` succeeds and the failure outcome
      when it fails; the error itself goes no further. */
  function RunStep<E>(result: Result<(), E>, success: Status, failure: Status): (s: Status)
    ensures result.Ok? ==> s == success
    ensures result.Err? ==> s == failure
  {
    match result
    case Ok(_) => success
    case Err(_) => failure
  }

  /** `Step::run`: `RunStep::run` of the wrapped step. */
  function Run(step: Step, env: StepEnv): (s: Status)
    ensures s == OnSuccess(step) || s == OnFailure(step)
    ensures DoRun(step, env).Ok? ==> s == OnSuccess(step)
    ensures DoRun(step, env).Err? ==> s == OnFailure(step)
  {
    RunStep(DoRun(step, env), OnSuccess(step), OnFailure(step))
  }

  /** The errors of `do_run` never reach the caller: two runs that both fail give the same
      status, whatever their errors. */
  lemma RunForgetsErrors<E>(e1: E, e2: E, success: Status, failure: Status)
    ensures RunStep(Err(e1), success, failure) == RunStep(Err(e2), success, failure)
  {
  }

  /** A wait step never ends a trick. */
  lemma WaitNeverHalts(w: Wait, env: StepEnv)
    ensures !IsFinal(Run(WaitStep(w), env))
  {
  }

  /** A create-environment step always yields its success outcome, whatever `make` and
      `qemu` did. */
  lemma CreateEnvironmentSucceeds(c: CreateEnvironment, env: StepEnv)
    ensures Run(CreateEnvironmentStep(c), env) == c.success
  {
  }

  /** A container step with an empty script yields its success outcome. */
  lemma EmptyContainerScriptSucceeds(c: Container, env: StepEnv)
    requires c.script == []
    ensures Run(ContainerStep(c), env) == c.success
  {
  }

  /** A version check yields its success outcome exactly when every bounded component's
      probe works and its version lies within the bounds. */
  lemma VersionCheckOutcome(v: VersionCheck, env: StepEnv)
    ensures Run(VersionCheckStep(v), env) == (if Passes(v, env.sys) then v.success else v.failure)
  {
  }

  /** The name a spawn step registers for cleanup, if the step is a spawn. */
  function SpawnedName(step: Step): (n: Option<string>)
    ensures n.Some? <==> step.SpawnContainerStep?
    ensures n.Some? ==> n.value == step.spawnContainer.name
  {
    match step
    case SpawnContainerStep(s) => Some(s.name)
    case _ => None
  }
}
