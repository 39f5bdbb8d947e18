/** Container lifecycle helpers (src/docker/container.rs): spawn, kill, reap and running a
    command by exec. Each docker call is answered by an oracle; each helper returns the
    requests it sent, in order, together with its result. */
module DockerContainer {
  import opened Results
  import opened Text
  import opened DockerImage
  import opened DockerCmd

  /** A wrapper for a container ID. */
  datatype ContainerId = ContainerId(value: string)

  /** `From<String> for ContainerId`. */
  function IdFromString(s: string): (id: ContainerId)
    ensures IdToString(id) == s
  {
    ContainerId(s)
  }

  /** `From<ContainerId> for String` (also what `Display` writes). */
  function IdToString(id: ContainerId): (s: string)
    ensures ContainerId(s) == id
  {
    id.value
  }

  /** The host part of a container's configuration. */
  datatype HostConfig = HostConfig(
    binds: seq<string>,
    autoRemove: bool,
    securityOpt: seq<string>,
    privileged: bool)

  datatype ContainerConfig = ContainerConfig(
    cmd: Option<seq<string>>,
    image: string,
    hostConfig: HostConfig)

  /** A request sent to the docker daemon. */
  datatype DockerRequest =
    | ImageStep(request: ImageRequest)
    | CreateContainer(name: string, config: ContainerConfig)
    | StartContainer(name: string)
    | KillContainer(name: string)
    | RemoveContainer(name: string, force: bool, removeVolumes: bool, removeLink: bool)
    | WaitRemoved(name: string)
    | CreateExec(container: string, options: ExecOptions)
    | StartExec
    | InspectExec

  datatype DockerError =
    | NoClient
    | AcquireFailed(cause: ImageError)
    | CreateFailed
    | StartFailed
    | KillFailed
    | RemoveFailed
    | CreateExecFailed
    | StartExecFailed
    | InspectFailed(message: string)
    | UnknownExitStatus
    | CommandFailed(code: int)

  /** The requests sent and the result of one helper. */
  datatype Effect = Effect(requests: seq<DockerRequest>, result: Result<(), DockerError>)

  /** The image requests of an acquisition, as requests to the daemon. */
  function ImageRequests(a: Acquisition): (rs: seq<DockerRequest>)
    ensures |rs| == |a.requests|
    ensures forall i | 0 <= i < |rs| :: rs[i] == ImageStep(a.requests[i])
  {
    seq(|a.requests|, i requires 0 <= i < |a.requests| => ImageStep(a.requests[i]))
  }

  /** The configuration `spawn_container` creates: the command split on whitespace, the
      volumes as binds, removal on exit, the security options and the privilege flag. */
  function SpawnConfig(image: string, cmd: Option<string>, volumes: seq<string>,
                       privileged: bool, security: seq<string>): (c: ContainerConfig)
    ensures c.image == image
    ensures c.cmd.Some? <==> cmd.Some?
    ensures cmd.Some? ==> c.cmd.value == SplitWhitespace(cmd.value)
    ensures cmd.Some? ==> Concat(c.cmd.value) == Visible(cmd.value)
    ensures c.hostConfig == HostConfig(volumes, true, security, privileged)
  {
    assert cmd.Some? ==> Concat(SplitWhitespace(cmd.value)) == Visible(cmd.value) by {
      if cmd.Some? {
        SplitWhitespaceVisible(cmd.value);
      }
    }
    ContainerConfig(if cmd.Some? then Some(SplitWhitespace(cmd.value)) else None, image,
                    HostConfig(volumes, true, security, privileged))
  }

  /** The daemon's side of one spawn. */
  datatype SpawnOracle = SpawnOracle(pull: PullOracle, clientOk: bool, createOk: bool, startOk: bool)

  /** `spawn_container`: acquire the image, then create the container, then start it; the
      first failure ends the spawn and nothing after it is requested. */
  function SpawnContainer(name: string, image: string, policy: ImagePullPolicy, cmd: Option<string>,
                          volumes: seq<string>, privileged: bool, security: seq<string>,
                          daemon: SpawnOracle): (e: Effect)
    ensures var acq := AcquireImage(policy, image, daemon.pull);
      && ImageRequests(acq) <= e.requests
      && (acq.result.Err? ==> e == Effect(ImageRequests(acq), Err(AcquireFailed(acq.result.error))))
      && (acq.result.Ok? && daemon.clientOk ==>
            e.requests[|ImageRequests(acq)|..] ==
              [CreateContainer(name, SpawnConfig(image, cmd, volumes, privileged, security))]
              + (if daemon.createOk then [StartContainer(name)] else []))
    ensures e.result.Ok? <==>
      AcquireImage(policy, image, daemon.pull).result.Ok? && daemon.clientOk && daemon.createOk && daemon.startOk
  {
    var acq := AcquireImage(policy, image, daemon.pull);
    var pulled := ImageRequests(acq);
    if acq.result.Err? then Effect(pulled, Err(AcquireFailed(acq.result.error)))
    else if !daemon.clientOk then Effect(pulled, Err(NoClient))
    else
      var create := CreateContainer(name, SpawnConfig(image, cmd, volumes, privileged, security));
      if !daemon.createOk then Effect(pulled + [create], Err(CreateFailed))
      else Effect(pulled + [create, StartContainer(name)], if daemon.startOk then Ok(()) else Err(StartFailed))
  }

  /** `kill_container`. */
  function KillContainerNamed(name: string, clientOk: bool, killOk: bool): (e: Effect)
    ensures e.requests == (if clientOk then [KillContainer(name)] else [])
    ensures e.result.Ok? <==> clientOk && killOk
  {
    if !clientOk then Effect([], Err(NoClient))
    else Effect([KillContainer(name)], if killOk then Ok(()) else Err(KillFailed))
  }

  /** The daemon's side of one reap: whether the client connects, whether the forced
      removal succeeds, and the items of the wait stream (errors among them included). */
  datatype ReapOracle = ReapOracle(clientOk: bool, removeOk: bool, waitStream: seq<Result<(), string>>)

  /** `reap_container`: force-remove the container with its volumes, then drain the wait
      for its removal, ignoring every error the wait reports. */
  function ReapContainer(name: string, daemon: ReapOracle): (e: Effect)
    ensures e.result.Ok? <==> daemon.clientOk && daemon.removeOk
    ensures daemon.clientOk ==> |e.requests| >= 1 && e.requests[0] == RemoveContainer(name, true, true, false)
    ensures e.result.Ok? ==> e.requests == [RemoveContainer(name, true, true, false), WaitRemoved(name)]
  {
    if !daemon.clientOk then Effect([], Err(NoClient))
    else if !daemon.removeOk then Effect([RemoveContainer(name, true, true, false)], Err(RemoveFailed))
    else Effect([RemoveContainer(name, true, true, false), WaitRemoved(name)], Ok(()))
  }

  /** Errors on the wait stream never change the outcome of a reap. */
  lemma ReapIgnoresWaitErrors(name: string, clientOk: bool, removeOk: bool,
                              w1: seq<Result<(), string>>, w2: seq<Result<(), string>>)
    ensures ReapContainer(name, ReapOracle(clientOk, removeOk, w1)) == ReapContainer(name, ReapOracle(clientOk, removeOk, w2))
  {
  }

  /** `run_command`: execs `cmd` with `args` in container `name` and classifies the exit:
      no exit code and a non-zero code are errors, code 0 is success. */
  function RunCommand(name: string, cmd: string, args: seq<string>, privileged: bool, tty: bool,
                      daemon: ExecOracle): (e: Effect)
    ensures daemon.clientOk ==>
      |e.requests| >= 1 && e.requests[0] == CreateExec(name, ExecOptionsFor([cmd] + args, privileged, tty))
    ensures e.result.Ok? <==>
      daemon.clientOk && daemon.createOk && daemon.startOk && daemon.inspect == Ok(Some(0))
    ensures e.result == Err(UnknownExitStatus) <==>
      daemon.clientOk && daemon.createOk && daemon.startOk && daemon.inspect == Ok(None)
    ensures forall c :: e.result == Err(CommandFailed(c)) <==>
      daemon.clientOk && daemon.createOk && daemon.startOk && daemon.inspect == Ok(Some(c)) && c != 0
  {
    var create := CreateExec(name, ExecOptionsFor([cmd] + args, privileged, tty));
    if !daemon.clientOk then Effect([], Err(NoClient))
    else if !daemon.createOk then Effect([create], Err(CreateExecFailed))
    else if !daemon.startOk then Effect([create, StartExec], Err(StartExecFailed))
    else
      var requests := [create, StartExec, InspectExec];
      match daemon.inspect
      case Err(msg) => Effect(requests, Err(InspectFailed(msg)))
      case Ok(None) => Effect(requests, Err(UnknownExitStatus))
      case Ok(Some(c)) =>
        Effect(requests, if Success(ExitCode(c)) then Ok(()) else Err(CommandFailed(c)))
  }
}
