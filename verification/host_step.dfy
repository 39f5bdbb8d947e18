/** The step that runs a script on the host (src/tricks/steps/host.rs). Each command's
    outcome, as the operating system reports it, is an oracle. */
module HostSteps {
  import opened Results
  import opened Statuses
  import opened Processes
  import opened Scripts

  datatype Host = Host(script: seq<ShellCommand>, failure: Status, success: Status)

  /** A host step whose outcomes were left out: neither ends the trick. */
  function DefaultHost(script: seq<ShellCommand>): (h: Host)
    ensures h.script == script
    ensures h.failure == Undecided && h.success == Undecided
  {
    Host(script, DefaultStatus(), DefaultStatus())
  }

  /** The process a script command starts: its program with its arguments. */
  function CommandInvocation(cmd: ShellCommand): (inv: Invocation)
    ensures inv.program == cmd.command && inv.args == cmd.args
  {
    Invocation(cmd.command, cmd.args)
  }

  datatype HostError = HostSpawnFailed | ExitedWith(code: int) | KilledBy(signal: int)

  /** One command of the script: failing to spawn it is an error; a command that does not
      succeed reports its exit code when it has one, and its signal otherwise. Its output is
      only logged. */
  function HostCommand(out: ProcessOutput): (r: Result<(), HostError>)
    ensures r.Ok? <==> out.Finished? && ExitSuccess(out.status)
    ensures r == Err(HostSpawnFailed) <==> out.NotSpawned?
    ensures forall code :: r == Err(ExitedWith(code)) <==> out.Finished? && out.status == Exited(code) && code != 0
    ensures forall sig :: r == Err(KilledBy(sig)) <==> out.Finished? && out.status == Signaled(sig)
  {
    match out
    case NotSpawned => Err(HostSpawnFailed)
    case Finished(status, _) =>
      if ExitSuccess(status) then Ok(())
      else
        match status
        case Exited(code) => Err(ExitedWith(code))
        case Signaled(sig) => Err(KilledBy(sig))
  }

  function HostOutcome(outcomes: nat -> ProcessOutput): (nat, ShellCommand) -> Result<(), HostError> {
    (i: nat, cmd: ShellCommand) => HostCommand(outcomes(i))
  }

  /** The commands of a host script run in order, the `i`th ending as `outcomes(i)` says,
      until the first one that fails. */
  function RunHostScript(script: seq<ShellCommand>, outcomes: nat -> ProcessOutput): (r: ScriptRun<HostError>)
    ensures r.ran <= |script|
    ensures r.result.Ok? <==>
      forall i | 0 <= i < |script| :: outcomes(i).Finished? && ExitSuccess(outcomes(i).status)
    ensures r.result.Ok? ==> r.ran == |script|
    ensures r.result.Err? ==>
      0 < r.ran
      && (forall i | 0 <= i < r.ran - 1 :: outcomes(i).Finished? && ExitSuccess(outcomes(i).status))
      && r.result == HostCommand(outcomes(r.ran - 1))
  {
    var r := RunScript(script, HostOutcome(outcomes));
    assert forall i | 0 <= i < |script| :: HostOutcome(outcomes)(i, script[i]) == HostCommand(outcomes(i));
    r
  }

  /** What a host step did: the processes it started, in order, and its result. */
  datatype HostRun = HostRun(invoked: seq<Invocation>, result: Result<(), HostError>)

  /** `Host::do_run`: the `i`th command of the script ends as `outcomes(i)` says; commands
      are started in order and the first one that fails ends the step. */
  function DoHost(h: Host, outcomes: nat -> ProcessOutput): (r: HostRun)
    ensures |r.invoked| <= |h.script|
    ensures forall i | 0 <= i < |r.invoked| :: r.invoked[i] == CommandInvocation(h.script[i])
    ensures r.result.Ok? <==>
      forall i | 0 <= i < |h.script| :: outcomes(i).Finished? && ExitSuccess(outcomes(i).status)
    ensures r.result.Ok? ==> |r.invoked| == |h.script|
    ensures r.result.Err? ==>
      0 < |r.invoked|
      && (forall i | 0 <= i < |r.invoked| - 1 :: outcomes(i).Finished? && ExitSuccess(outcomes(i).status))
      && r.result == HostCommand(outcomes(|r.invoked| - 1))
  {
    var run := RunHostScript(h.script, outcomes);
    HostRun(Invocations(h.script[..run.ran]), run.result)
  }

  /** The processes the commands of a script start, one each, in order. */
  function Invocations(script: seq<ShellCommand>): (invs: seq<Invocation>)
    ensures |invs| == |script|
    ensures forall i | 0 <= i < |script| :: invs[i] == CommandInvocation(script[i])
  {
    if script == [] then [] else [CommandInvocation(script[0])] + Invocations(script[1..])
  }

  /** An empty host script succeeds without starting a process. */
  lemma EmptyHostScriptSucceeds(outcomes: nat -> ProcessOutput)
    ensures DoHost(Host([], Undecided, Undecided), outcomes) == HostRun([], Ok(()))
  {
  }
}
