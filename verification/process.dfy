/** The boundary with host processes (`std::process`): how a program is invoked and what
    the operating system reports back once it has run. */
module Processes {
  import opened Results

  /** A program and its arguments, as given to `Command::new(..).args(..)`. */
  datatype Invocation = Invocation(program: string, args: seq<string>)

  /** How a finished process ended: with an exit code, or killed by a signal. */
  datatype ExitStatus = Exited(code: int) | Signaled(signal: int)

  /** `ExitStatus::success`: exited with code 0. */
  function ExitSuccess(s: ExitStatus): (b: bool)
    ensures b <==> s == Exited(0)
  {
    match s
    case Exited(code) => code == 0
    case Signaled(_) => false
  }

  /** What `Command::output` returns: the process could not be spawned, or it ran to its
      end with a status and a standard output read as lines (`None` for a line that is
      not valid UTF-8). */
  datatype ProcessOutput =
    | NotSpawned
    | Finished(status: ExitStatus, stdout: seq<Option<string>>)
}
