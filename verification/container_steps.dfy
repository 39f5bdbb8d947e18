/** The steps that manipulate containers (src/tricks/steps/container.rs): spawning one,
    killing one, and running a script in one. Each passes its fields straight to the docker
    helpers of `DockerContainer`. */
module ContainerSteps {
  import opened Results
  import opened Statuses
  import opened SerdeDefaults
  import opened DockerImage
  import opened DockerCmd
  import DockerContainer
  import opened Scripts

  datatype SpawnContainer = SpawnContainer(
    name: string,
    image: string,
    imagePolicy: ImagePullPolicy,
    cmd: Option<string>,
    volumes: seq<string>,
    security: seq<string>,
    privileged: bool,
    failure: Status,
    success: Status)

  /** A spawn step with every optional field left out: pull when missing, no volumes, no
      security options, unprivileged; a failed spawn is a setup failure. */
  function DefaultSpawnContainer(name: string, image: string, cmd: Option<string>): (s: SpawnContainer)
    ensures s.name == name && s.image == image && s.cmd == cmd
    ensures s.imagePolicy == DefaultPolicy()
    ensures s.volumes == [] && s.security == [] && !s.privileged
    ensures s.failure == SetupFailure && IsFinal(s.failure)
    ensures s.success == Undecided && !IsFinal(s.success)
  {
    SpawnContainer(name, image, DefaultPolicy(), cmd, [], [], DefaultFalse(), DefaultSetupFailure(), DefaultStatus())
  }

  /** `SpawnContainer::do_run`: `spawn_container` with the step's own fields. */
  function DoSpawn(s: SpawnContainer, daemon: DockerContainer.SpawnOracle): (e: DockerContainer.Effect)
    ensures e == DockerContainer.SpawnContainer(s.name, s.image, s.imagePolicy, s.cmd, s.volumes,
                                                s.privileged, s.security, daemon)
    ensures e.result.Ok? <==>
      AcquireImage(s.imagePolicy, s.image, daemon.pull).result.Ok? && daemon.clientOk && daemon.createOk && daemon.startOk
  {
    DockerContainer.SpawnContainer(s.name, s.image, s.imagePolicy, s.cmd, s.volumes, s.privileged, s.security, daemon)
  }

  /** Whatever the daemon answers, a spawn step with policy `Build` fails before any
      container is created. */
  lemma BuildPolicySpawnFails(s: SpawnContainer, daemon: DockerContainer.SpawnOracle)
    requires s.imagePolicy.Build?
    ensures DoSpawn(s, daemon) == DockerContainer.Effect([], Err(DockerContainer.AcquireFailed(BuildUnimplemented)))
  {
  }

  datatype KillContainer = KillContainer(name: string, failure: Status, success: Status)

  /** A kill step whose outcomes were left out: neither outcome ends the trick. */
  function DefaultKillContainer(name: string): (k: KillContainer)
    ensures k.name == name
    ensures k.failure == Undecided && k.success == Undecided
    ensures !IsFinal(k.failure) && !IsFinal(k.success)
  {
    KillContainer(name, DefaultStatus(), DefaultStatus())
  }

  /** The daemon's side of a kill. */
  datatype KillOracle = KillOracle(clientOk: bool, killOk: bool)

  /** `KillContainer::do_run`: `kill_container` on the step's name. */
  function DoKill(k: KillContainer, daemon: KillOracle): (e: DockerContainer.Effect)
    ensures e.requests == (if daemon.clientOk then [DockerContainer.KillContainer(k.name)] else [])
    ensures e.result.Ok? <==> daemon.clientOk && daemon.killOk
  {
    DockerContainer.KillContainerNamed(k.name, daemon.clientOk, daemon.killOk)
  }

  datatype Container = Container(
    name: string,
    script: seq<ShellCommand>,
    privileged: bool,
    tty: bool,
    failure: Status,
    success: Status)

  /** A container step with its optional fields left out: unprivileged, with a TTY, and
      neither outcome ends the trick. */
  function DefaultContainer(name: string, script: seq<ShellCommand>): (c: Container)
    ensures c.name == name && c.script == script
    ensures !c.privileged && c.tty
    ensures c.failure == Undecided && c.success == Undecided
  {
    Container(name, script, DefaultFalse(), DefaultTrue(), DefaultStatus(), DefaultStatus())
  }

  /** Running the `i`th command of the script in the step's container; the daemon's answer
      to that exec is `daemon(i)`. */
  function ExecAttempt(c: Container, daemon: nat -> ExecOracle, i: nat, cmd: ShellCommand): (e: DockerContainer.Effect)
    ensures e == DockerContainer.RunCommand(c.name, cmd.command, cmd.args, c.privileged, c.tty, daemon(i))
    ensures daemon(i).clientOk ==>
      e.requests[0] == DockerContainer.CreateExec(c.name, ExecOptionsFor([cmd.command] + cmd.args, c.privileged, c.tty))
  {
    DockerContainer.RunCommand(c.name, cmd.command, cmd.args, c.privileged, c.tty, daemon(i))
  }

  function ExecOutcome(c: Container, daemon: nat -> ExecOracle): (nat, ShellCommand) -> Result<(), DockerContainer.DockerError> {
    (i: nat, cmd: ShellCommand) => ExecAttempt(c, daemon, i, cmd).result
  }

  /** `Container::do_run`: runs the script in order; a command fails when its exec fails or
      exits with anything but 0, and the first failure ends the step. */
  function DoContainer(c: Container, daemon: nat -> ExecOracle): (r: ScriptRun<DockerContainer.DockerError>)
    ensures r.ran <= |c.script|
    ensures r.result.Ok? <==>
      forall i | 0 <= i < |c.script| :: ExecAttempt(c, daemon, i, c.script[i]).result.Ok?
    ensures r.result.Ok? ==> r.ran == |c.script|
    ensures r.result.Err? ==>
      0 < r.ran
      && (forall i | 0 <= i < r.ran - 1 :: ExecAttempt(c, daemon, i, c.script[i]).result.Ok?)
      && r.result == ExecAttempt(c, daemon, r.ran - 1, c.script[r.ran - 1]).result
  {
    RunScript(c.script, ExecOutcome(c, daemon))
  }

  /** A command fails exactly when the daemon does not report exit code 0 for it. */
  lemma ExecAttemptFails(c: Container, daemon: nat -> ExecOracle, i: nat, cmd: ShellCommand)
    ensures ExecAttempt(c, daemon, i, cmd).result.Ok? <==>
      var d := daemon(i); d.clientOk && d.createOk && d.startOk && d.inspect == Ok(Some(0))
  {
  }
}
