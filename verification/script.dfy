/** Scripts of shell commands (src/tricks/steps/command.rs) and the way the `Container` and
    `Host` steps run them: in order, with the first failing command ending the script. */
module Scripts {
  import opened Results

  /** A command to run in a container or on the host. */
  datatype ShellCommand = ShellCommand(command: string, args: seq<string>)

  /** How far a script got: the number of commands run, and the first error if any. */
  datatype ScriptRun<+E> = ScriptRun(ran: nat, result: Result<(), E>)

  /** Every command of `script` before `k` succeeded. */
  predicate SucceededBefore<E>(script: seq<ShellCommand>, attempt: (nat, ShellCommand) -> Result<(), E>, k: nat)
    requires k <= |script|
  {
    forall i | 0 <= i < k :: attempt(i, script[i]).Ok?
  }

  /** Runs the commands of `script` from index `k` on; `attempt(i, cmd)` is the outcome of
      running the `i`th command. */
  function RunFrom<E>(script: seq<ShellCommand>, attempt: (nat, ShellCommand) -> Result<(), E>, k: nat): (r: ScriptRun<E>)
    requires k <= |script| && SucceededBefore(script, attempt, k)
    ensures k <= r.ran <= |script|
    ensures r.result.Ok? <==> SucceededBefore(script, attempt, |script|)
    ensures r.result.Ok? ==> r.ran == |script|
    ensures r.result.Err? ==>
      k < r.ran && SucceededBefore(script, attempt, r.ran - 1)
      && r.result == attempt(r.ran - 1, script[r.ran - 1])
    decreases |script| - k
  {
    if k == |script| then ScriptRun(k, Ok(()))
    else
      match attempt(k, script[k])
      case Err(e) => ScriptRun(k + 1, Err(e))
      case Ok(_) => RunFrom(script, attempt, k + 1)
  }

  /** The `for cmd in &self.script { ...? }` loop: commands run in order, the first failure
      ends the script with that failure, and the commands after it never run. */
  function RunScript<E>(script: seq<ShellCommand>, attempt: (nat, ShellCommand) -> Result<(), E>): (r: ScriptRun<E>)
    ensures r.ran <= |script|
    ensures r.result.Ok? <==> SucceededBefore(script, attempt, |script|)
    ensures r.result.Ok? ==> r.ran == |script|
    ensures r.result.Err? ==>
      0 < r.ran && SucceededBefore(script, attempt, r.ran - 1)
      && r.result == attempt(r.ran - 1, script[r.ran - 1])
  {
    RunFrom(script, attempt, 0)
  }

  /** An empty script succeeds without running anything. */
  lemma EmptyScriptSucceeds<E>(attempt: (nat, ShellCommand) -> Result<(), E>)
    ensures RunScript([], attempt) == ScriptRun(0, Ok(()))
  {
  }

  /** Only the commands that ran matter: outcomes of later commands cannot change the run. */
  lemma {:induction false} RunFromIgnoresLater<E>(script: seq<ShellCommand>,
                                                 a1: (nat, ShellCommand) -> Result<(), E>,
                                                 a2: (nat, ShellCommand) -> Result<(), E>, k: nat)
    requires k <= |script| && SucceededBefore(script, a1, k) && SucceededBefore(script, a2, k)
    requires forall i | k <= i < RunFrom(script, a1, k).ran :: a1(i, script[i]) == a2(i, script[i])
    ensures RunFrom(script, a1, k) == RunFrom(script, a2, k)
    decreases |script| - k
  {
    if k < |script| && a1(k, script[k]).Ok? {
      RunFromIgnoresLater(script, a1, a2, k + 1);
    }
  }
}
