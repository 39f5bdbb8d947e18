/** The builder for commands executed inside a container (src/docker/cmd.rs). The exec
    itself is done by the docker daemon, modelled as an `ExecOracle`. */
module DockerCmd {
  import opened Results

  newtype byte = x: int | 0 <= x < 256

  /** What a command does with the exec's standard streams. */
  datatype Stdio = Null | Inherit | Piped

  /** The exit code of a container exec (an `i64` in the source; only compared with 0). */
  datatype ExitCode = ExitCode(code: int)

  /** `ExitCode::success`. */
  function Success(c: ExitCode): (b: bool)
    ensures b <==> c.code == 0
  {
    c.code == 0
  }

  datatype Command = Command(
    id: string,
    command: string,
    args: seq<string>,
    tty: bool,
    privileged: bool,
    stdout: Option<Stdio>,
    stderr: Option<Stdio>)

  /** `Command::new`: runs `program` in `container`, with no arguments, no TTY, no extra
      privileges and no stream settings. */
  function New(container: string, program: string): (c: Command)
    ensures c.id == container && c.command == program
    ensures c.args == [] && !c.tty && !c.privileged
    ensures c.stdout.None? && c.stderr.None?
  {
    Command(container, program, [], false, false, None, None)
  }

  /** `Command::arg`: one more argument at the end; nothing else changes. */
  function Arg(c: Command, a: string): (r: Command)
    ensures |r.args| == |c.args| + 1 && r.args[..|c.args|] == c.args && r.args[|c.args|] == a
    ensures r.(args := c.args) == c
  {
    c.(args := c.args + [a])
  }

  /** `Command::args`: pushes each argument in turn. */
  function Args(c: Command, xs: seq<string>): (r: Command)
    ensures r.args == c.args + xs
    ensures r.(args := c.args) == c
    decreases |xs|
  {
    if xs == [] then c else Args(Arg(c, xs[0]), xs[1..])
  }

  /** `Command::tty`: sets only the TTY flag. */
  function Tty(c: Command, tty: bool): (r: Command)
    ensures r.tty == tty && r.(tty := c.tty) == c
  {
    c.(tty := tty)
  }

  /** `Command::privileged`: sets only the privilege flag. */
  function Privileged(c: Command, privileged: bool): (r: Command)
    ensures r.privileged == privileged && r.(privileged := c.privileged) == c
  {
    c.(privileged := privileged)
  }

  /** `Command::stdout`: sets only the stdout mode. */
  function Stdout(c: Command, s: Stdio): (r: Command)
    ensures r.stdout == Some(s) && r.(stdout := c.stdout) == c
  {
    c.(stdout := Some(s))
  }

  /** `Command::stderr`: sets only the stderr mode. */
  function Stderr(c: Command, s: Stdio): (r: Command)
    ensures r.stderr == Some(s) && r.(stderr := c.stderr) == c
  {
    c.(stderr := Some(s))
  }

  /** The argv of the exec: the program, then its arguments. */
  function ExecArgv(c: Command): (argv: seq<string>)
    ensures |argv| == |c.args| + 1 && argv[0] == c.command && argv[1..] == c.args
  {
    [c.command] + c.args
  }

  /** A command built by `new`, `args` and `arg` execs the program followed by every
      argument in the order it was added. */
  lemma BuiltArgv(container: string, program: string, xs: seq<string>, y: string)
    ensures ExecArgv(Arg(Args(New(container, program), xs), y)) == [program] + xs + [y]
  {
  }

  /** The options of the exec request: stdout and stderr attached, stdin not. */
  datatype ExecOptions = ExecOptions(
    attachStdin: bool,
    attachStdout: bool,
    attachStderr: bool,
    tty: bool,
    cmd: seq<string>,
    privileged: bool)

  function ExecOptionsFor(argv: seq<string>, privileged: bool, tty: bool): (o: ExecOptions)
    ensures !o.attachStdin && o.attachStdout && o.attachStderr
    ensures o.cmd == argv && o.tty == tty && o.privileged == privileged
  {
    ExecOptions(false, true, true, tty, argv, privileged)
  }

  /** The exec request `Command::exec` creates in container `c.id`. */
  function ExecRequestOf(c: Command): (o: ExecOptions)
    ensures o.cmd == ExecArgv(c) && o.tty == c.tty && o.privileged == c.privileged
    ensures !o.attachStdin && o.attachStdout && o.attachStderr
  {
    ExecOptionsFor(ExecArgv(c), c.privileged, c.tty)
  }

  /** One item of an attached exec's output stream. */
  datatype LogOutput =
    | StdErr(message: seq<byte>)
    | StdOut(message: seq<byte>)
    | StdIn(message: seq<byte>)
    | Console(message: seq<byte>)

  /** The daemon's side of one exec: whether the client, the exec creation and its start
      succeed, the output stream, and the inspection that reports the exit code. */
  datatype ExecOracle = ExecOracle(
    clientOk: bool,
    createOk: bool,
    startOk: bool,
    stream: seq<Result<LogOutput, string>>,
    inspect: Result<Option<int>, string>)

  /** Bytes a stream item adds to the collected output: those of stdout and stderr items. */
  function Captured(item: LogOutput): seq<byte> {
    match item
    case StdErr(m) => m
    case StdOut(m) => m
    case _ => []
  }

  /** Collects the output stream the way `Command::exec` does: stdout and stderr bytes go
      to the same buffer, other items are skipped, and the first stream error ends it. */
  function CollectOutput(stream: seq<Result<LogOutput, string>>): seq<byte> {
    if stream == [] || stream[0].Err? then []
    else Captured(stream[0].value) + CollectOutput(stream[1..])
  }

  /** Collection is a concatenation over an error-free prefix, and stops at an error. */
  lemma {:induction false} CollectOutputAppend(a: seq<Result<LogOutput, string>>,
                                              b: seq<Result<LogOutput, string>>)
    requires forall i | 0 <= i < |a| :: a[i].Ok?
    ensures CollectOutput(a + b) == CollectOutput(a) + CollectOutput(b)
    ensures b != [] && b[0].Err? ==> CollectOutput(a + b) == CollectOutput(a)
  {
    if a == [] {
      assert a + b == b;
    } else {
      assert (a + b)[0] == a[0];
      assert (a + b)[1..] == a[1..] + b;
      CollectOutputAppend(a[1..], b);
    }
  }

  datatype Output = Output(code: Option<ExitCode>, stdout: seq<byte>, stderr: seq<byte>)

  datatype ExecError = ClientUnavailable | ExecNotCreated | ExecNotStarted | ExecNotInspected(message: string)

  /** What one exec did: the exec it created, as the container it runs in and the
      request sent (none when no client was reached), and its result. */
  datatype ExecRun = ExecRun(created: Option<(string, ExecOptions)>, result: Result<Output, ExecError>)

  /** `Command::exec` (reached through `output`): creates an exec of the command in the
      container `c.id`, runs it and gathers its output. Both streams end up in `stdout`,
      so `stderr` is always empty. */
  function Exec(c: Command, daemon: ExecOracle): (r: ExecRun)
    ensures r.created.Some? <==> daemon.clientOk
    ensures r.created.Some? ==> r.created.value == (c.id, ExecRequestOf(c))
    ensures r.result.Ok? <==> daemon.clientOk && daemon.createOk && daemon.startOk && daemon.inspect.Ok?
    ensures r.result.Ok? ==> r.result.value.stderr == [] && r.result.value.stdout == CollectOutput(daemon.stream)
    ensures r.result.Ok? ==> (r.result.value.code.Some? <==> daemon.inspect.value.Some?)
    ensures r.result.Ok? && r.result.value.code.Some? ==>
      r.result.value.code.value.code == daemon.inspect.value.value
  {
    if !daemon.clientOk then ExecRun(None, Err(ClientUnavailable))
    else
      var created := Some((c.id, ExecRequestOf(c)));
      if !daemon.createOk then ExecRun(created, Err(ExecNotCreated))
      else if !daemon.startOk then ExecRun(created, Err(ExecNotStarted))
      else
        match daemon.inspect
        case Err(e) => ExecRun(created, Err(ExecNotInspected(e)))
        case Ok(code) =>
          ExecRun(created, Ok(Output(if code.Some? then Some(ExitCode(code.value)) else None,
                                     CollectOutput(daemon.stream), [])))
  }

  /** `Command::status`: the exit code of the output, if the daemon reported one. */
  function Status(c: Command, daemon: ExecOracle): (r: Result<Option<ExitCode>, ExecError>)
    ensures r.Ok? <==> Exec(c, daemon).result.Ok?
    ensures r.Ok? ==> r.value == Exec(c, daemon).result.value.code
  {
    match Exec(c, daemon).result
    case Err(e) => Err(e)
    case Ok(out) => Ok(out.code)
  }
}
