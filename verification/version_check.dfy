/** The version-check step and the probes it relies on (src/tricks/steps/version.rs): the
    kernel release from `uname`, and the first matching line of `docker --version` and
    `runc --version`. The operating system's answers are an oracle, `System`. */
module VersionChecks {
  import opened Results
  import opened Text
  import opened Statuses
  import opened SerdeDefaults
  import opened Processes
  import opened Versions

  /** The part of `uname`'s answer the engine reads; `release` is `None` when it is not
      valid UTF-8. */
  datatype Uname = Uname(nodename: string, release: Option<string>)

  /** The host as the probes see it: `uname` (`None` when the call fails), the outputs of
      `docker --version` and `runc --version`, and the parser of `Versioning::new`. */
  datatype System = System(
    uname: Option<Uname>,
    docker: ProcessOutput,
    runc: ProcessOutput,
    parse: string -> Option<Versioning>)

  /** The two programs the probes run. */
  const DockerProbe: Invocation := Invocation("docker", ["--version"])
  const RuncProbe: Invocation := Invocation("runc", ["--version"])

  datatype ProbeError =
    | UnameFailed
    | NonUtf8Release
    | SpawnFailed
    | ProbeCommandFailed(status: ExitStatus)
    | UnreadableLine
    | VersionLineMissing
    | InvalidVersion(text: string)

  /** `parse_version`. */
  function ParseVersion(text: string, parse: string -> Option<Versioning>): (r: Result<Versioning, ProbeError>)
    ensures r.Ok? <==> parse(text).Some?
    ensures r.Ok? ==> r.value == parse(text).value
    ensures r.Err? ==> r.error == InvalidVersion(text)
  {
    match parse(text)
    case Some(v) => Ok(v)
    case None => Err(InvalidVersion(text))
  }

  const DockerPrefix: string := "Docker version"
  const RuncPrefix: string := "runc version"

  /** The version text of a `docker --version` line: after "Docker version", trimmed, up
      to the first comma. A line without the prefix or without a comma yields nothing. */
  function DockerVersionText(line: string): (r: Option<string>)
    ensures r.Some? <==> DockerPrefix <= line && ',' in Trim(line[|DockerPrefix|..])
    ensures r.Some? ==> r.value + [','] <= Trim(line[|DockerPrefix|..]) && ',' !in r.value
  {
    match StripPrefix(line, DockerPrefix)
    case None => None
    case Some(rest) =>
      assert rest == line[|DockerPrefix|..];
      match SplitOnce(Trim(rest), ',')
      case None => None
      case Some(parts) => Some(parts.0)
  }

  /** The version text of a `runc --version` line: everything after "runc version",
      trimmed. A line without the prefix yields nothing. */
  function RuncVersionText(line: string): (r: Option<string>)
    ensures r.Some? <==> RuncPrefix <= line
    ensures r.Some? ==> r.value == Trim(line[|RuncPrefix|..]) && IsTrimmed(r.value)
  {
    match StripPrefix(line, RuncPrefix)
    case None => None
    case Some(rest) =>
      assert rest == line[|RuncPrefix|..];
      Some(Trim(rest))
  }

  /** The banner `docker --version` prints, "Docker version <version>, build <build>",
      yields the version back, for any version without a comma or surrounding whitespace
      and any build that does not end in whitespace. */
  lemma DockerBannerRoundTrip(version: string, build: string)
    requires version != [] && IsTrimmed(version) && ',' !in version
    requires build != [] && !IsWhitespace(build[|build| - 1])
    ensures DockerVersionText(DockerPrefix + " " + version + ", build " + build) == Some(version)
  {
    var after := " build " + build;
    var body := version + [','] + after;
    var line := DockerPrefix + " " + version + ", build " + build;
    assert line == DockerPrefix + ([' '] + body);
    assert StripPrefix(line, DockerPrefix) == Some([' '] + body);
    assert body[0] == version[0] && body[|body| - 1] == build[|build| - 1];
    TrimLeadingSpace(body);
    SplitOnceAt(version, ',', after);
    assert SplitOnce(Trim([' '] + body), ',') == Some((version, after));
  }

  /** The banner `runc --version` prints, "runc version <version>", yields the version
      back, for any version without surrounding whitespace. */
  lemma RuncBannerRoundTrip(version: string)
    requires version != [] && IsTrimmed(version)
    ensures RuncVersionText(RuncPrefix + " " + version) == Some(version)
  {
    var line := RuncPrefix + " " + version;
    assert line == RuncPrefix + ([' '] + version);
    assert line[|RuncPrefix|..] == [' '] + version;
    TrimLeadingSpace(version);
  }

  /** Every line before `k` was read and did not match. */
  predicate Skipped(lines: seq<Option<string>>, k: nat, extract: string -> Option<string>)
    requires k <= |lines|
  {
    forall j | 0 <= j < k :: lines[j].Some? && extract(lines[j].value).None?
  }

  /** The scan of standard output from line `k` on: the first unreadable line is an error,
      the first matching line decides, and running out of lines is an error. */
  function ScanFrom(lines: seq<Option<string>>, k: nat, extract: string -> Option<string>,
                    parse: string -> Option<Versioning>): (r: Result<Versioning, ProbeError>)
    requires k <= |lines| && Skipped(lines, k, extract)
    ensures r.Err? ==> r.error.VersionLineMissing? || r.error.UnreadableLine? || r.error.InvalidVersion?
    ensures r == Err(VersionLineMissing) <==> Skipped(lines, |lines|, extract)
    ensures r == Err(UnreadableLine) ==>
      exists i | k <= i < |lines| :: lines[i].None? && Skipped(lines, i, extract)
    ensures r != Err(VersionLineMissing) && r != Err(UnreadableLine) ==>
      exists i | k <= i < |lines| ::
        lines[i].Some? && extract(lines[i].value).Some? && Skipped(lines, i, extract)
        && r == ParseVersion(extract(lines[i].value).value, parse)
    decreases |lines| - k
  {
    if k == |lines| then Err(VersionLineMissing)
    else match lines[k]
      case None => Err(UnreadableLine)
      case Some(line) =>
        match extract(line)
        case Some(text) => ParseVersion(text, parse)
        case None => ScanFrom(lines, k + 1, extract, parse)
  }

  /** The loop over the lines of a probe's standard output. */
  function ScanVersion(lines: seq<Option<string>>, extract: string -> Option<string>,
                       parse: string -> Option<Versioning>): (r: Result<Versioning, ProbeError>)
    ensures r.Err? ==> r.error.VersionLineMissing? || r.error.UnreadableLine? || r.error.InvalidVersion?
    ensures r == Err(VersionLineMissing) <==> Skipped(lines, |lines|, extract)
    ensures r == Err(UnreadableLine) ==>
      exists i | 0 <= i < |lines| :: lines[i].None? && Skipped(lines, i, extract)
    ensures r != Err(VersionLineMissing) && r != Err(UnreadableLine) ==>
      exists i | 0 <= i < |lines| ::
        lines[i].Some? && extract(lines[i].value).Some? && Skipped(lines, i, extract)
        && r == ParseVersion(extract(lines[i].value).value, parse)
  {
    ScanFrom(lines, 0, extract, parse)
  }

  /** Running a probe program: spawn failure and an unsuccessful exit are errors; otherwise
      its output is scanned. */
  function ProbeOutput(out: ProcessOutput, extract: string -> Option<string>,
                       parse: string -> Option<Versioning>): (r: Result<Versioning, ProbeError>)
    ensures r == Err(SpawnFailed) <==> out.NotSpawned?
    ensures out.Finished? && !ExitSuccess(out.status) ==> r == Err(ProbeCommandFailed(out.status))
    ensures out.Finished? && ExitSuccess(out.status) ==> r == ScanVersion(out.stdout, extract, parse)
  {
    match out
    case NotSpawned => Err(SpawnFailed)
    case Finished(status, lines) =>
      if !ExitSuccess(status) then Err(ProbeCommandFailed(status))
      else ScanVersion(lines, extract, parse)
  }

  /** `get_linux_version`. */
  function LinuxVersion(sys: System): (r: Result<Versioning, ProbeError>)
    ensures r == Err(UnameFailed) <==> sys.uname.None?
    ensures sys.uname.Some? && sys.uname.value.release.None? ==> r == Err(NonUtf8Release)
    ensures sys.uname.Some? && sys.uname.value.release.Some? ==>
      r == ParseVersion(sys.uname.value.release.value, sys.parse)
  {
    match sys.uname
    case None => Err(UnameFailed)
    case Some(u) =>
      match u.release
      case None => Err(NonUtf8Release)
      case Some(text) => ParseVersion(text, sys.parse)
  }

  /** `get_docker_version`: the probe of `docker --version`. */
  function DockerVersion(sys: System): (r: Result<Versioning, ProbeError>)
    ensures r == ProbeOutput(sys.docker, DockerVersionText, sys.parse)
  {
    ProbeOutput(sys.docker, DockerVersionText, sys.parse)
  }

  /** What `get_docker_version` gives: `docker --version` must spawn and exit
      successfully; then the first line of its output that starts with "Docker version"
      and has a comma after it gives the version text, and an unreadable line before it,
      or no such line, is an error. */
  lemma DockerVersionProbe(sys: System)
    ensures var r := DockerVersion(sys);
      && (r == Err(SpawnFailed) <==> sys.docker.NotSpawned?)
      && (sys.docker.Finished? && !ExitSuccess(sys.docker.status) ==>
          r == Err(ProbeCommandFailed(sys.docker.status)))
      && (r == Err(VersionLineMissing) <==>
          sys.docker.Finished? && ExitSuccess(sys.docker.status)
          && Skipped(sys.docker.stdout, |sys.docker.stdout|, DockerVersionText))
      && (r == Err(UnreadableLine) ==>
          sys.docker.Finished? && ExitSuccess(sys.docker.status)
          && exists i | 0 <= i < |sys.docker.stdout| ::
               sys.docker.stdout[i].None? && Skipped(sys.docker.stdout, i, DockerVersionText))
      && (r.Ok? ==>
          sys.docker.Finished? && ExitSuccess(sys.docker.status)
          && exists i | 0 <= i < |sys.docker.stdout| ::
               sys.docker.stdout[i].Some? && DockerVersionText(sys.docker.stdout[i].value).Some?
               && Skipped(sys.docker.stdout, i, DockerVersionText)
               && r == ParseVersion(DockerVersionText(sys.docker.stdout[i].value).value, sys.parse))
  {
  }

  /** `get_runc_version`: the probe of `runc --version`. */
  function RuncVersion(sys: System): (r: Result<Versioning, ProbeError>)
    ensures r == ProbeOutput(sys.runc, RuncVersionText, sys.parse)
  {
    ProbeOutput(sys.runc, RuncVersionText, sys.parse)
  }

  /** What `get_runc_version` gives: `runc --version` must spawn and exit successfully;
      then the first line of its output that starts with "runc version" gives the version
      text, and an unreadable line before it, or no such line, is an error. */
  lemma RuncVersionProbe(sys: System)
    ensures var r := RuncVersion(sys);
      && (r == Err(SpawnFailed) <==> sys.runc.NotSpawned?)
      && (sys.runc.Finished? && !ExitSuccess(sys.runc.status) ==>
          r == Err(ProbeCommandFailed(sys.runc.status)))
      && (r == Err(VersionLineMissing) <==>
          sys.runc.Finished? && ExitSuccess(sys.runc.status)
          && Skipped(sys.runc.stdout, |sys.runc.stdout|, RuncVersionText))
      && (r == Err(UnreadableLine) ==>
          sys.runc.Finished? && ExitSuccess(sys.runc.status)
          && exists i | 0 <= i < |sys.runc.stdout| ::
               sys.runc.stdout[i].None? && Skipped(sys.runc.stdout, i, RuncVersionText))
      && (r.Ok? ==>
          sys.runc.Finished? && ExitSuccess(sys.runc.status)
          && exists i | 0 <= i < |sys.runc.stdout| ::
               sys.runc.stdout[i].Some? && RuncVersionText(sys.runc.stdout[i].value).Some?
               && Skipped(sys.runc.stdout, i, RuncVersionText)
               && r == ParseVersion(RuncVersionText(sys.runc.stdout[i].value).value, sys.parse))
  {
  }

  /** A docker that prints its usual banner first has the version in it parsed. */
  lemma DockerBannerIsParsed(sys: System, version: string, build: string, rest: seq<Option<string>>)
    requires version != [] && IsTrimmed(version) && ',' !in version
    requires build != [] && !IsWhitespace(build[|build| - 1])
    requires sys.docker == Finished(Exited(0), [Some(DockerPrefix + " " + version + ", build " + build)] + rest)
    ensures DockerVersion(sys) == ParseVersion(version, sys.parse)
  {
    DockerBannerRoundTrip(version, build);
    var lines := sys.docker.stdout;
    assert lines[0] == Some(DockerPrefix + " " + version + ", build " + build);
    assert ScanFrom(lines, 0, DockerVersionText, sys.parse) == ParseVersion(version, sys.parse);
  }

  /** A runc that prints its usual banner first has the version in it parsed. */
  lemma RuncBannerIsParsed(sys: System, version: string, rest: seq<Option<string>>)
    requires version != [] && IsTrimmed(version)
    requires sys.runc == Finished(Exited(0), [Some(RuncPrefix + " " + version)] + rest)
    ensures RuncVersion(sys) == ParseVersion(version, sys.parse)
  {
    RuncBannerRoundTrip(version);
    var lines := sys.runc.stdout;
    assert lines[0] == Some(RuncPrefix + " " + version);
    assert ScanFrom(lines, 0, RuncVersionText, sys.parse) == ParseVersion(version, sys.parse);
  }

  /** The step: optional bounds for the kernel, docker and runc, and its two outcomes. */
  datatype VersionCheck = VersionCheck(
    kernel: Option<VersionComparison>,
    docker: Option<VersionComparison>,
    runc: Option<VersionComparison>,
    failure: Status,
    success: Status)

  /** A version check whose outcomes were left out of the trick document: a failed check
      skips the trick, a passed one lets it go on. */
  function DefaultVersionCheck(kernel: Option<VersionComparison>, docker: Option<VersionComparison>,
                               runc: Option<VersionComparison>): (v: VersionCheck)
    ensures v.kernel == kernel && v.docker == docker && v.runc == runc
    ensures v.failure == Skip && IsFinal(v.failure)
    ensures v.success == Undecided && !IsFinal(v.success)
  {
    VersionCheck(kernel, docker, runc, DefaultSkip(), DefaultStatus())
  }

  datatype Component = Kernel | Docker | Runc

  datatype CheckError =
    | ProbeFailed(component: Component, cause: ProbeError)
    | OutOfBounds(component: Component, bound: VersionError)

  /** The components probed, in order, and the result of the step. */
  datatype CheckRun = CheckRun(probed: seq<Component>, result: Result<(), CheckError>)

  function Bounds(v: VersionCheck, c: Component): Option<VersionComparison> {
    match c
    case Kernel => v.kernel
    case Docker => v.docker
    case Runc => v.runc
  }

  function Probe(sys: System, c: Component): Result<Versioning, ProbeError> {
    match c
    case Kernel => LinuxVersion(sys)
    case Docker => DockerVersion(sys)
    case Runc => RuncVersion(sys)
  }

  /** The components that have bounds, in the order the step checks them. */
  function Configured(v: VersionCheck): (cs: seq<Component>)
    ensures forall c :: c in cs <==> Bounds(v, c).Some?
    ensures |cs| <= 3
  {
    (if v.kernel.Some? then [Kernel] else [])
    + (if v.docker.Some? then [Docker] else [])
    + (if v.runc.Some? then [Runc] else [])
  }

  /** The verdict on one component: nothing to check without bounds; otherwise the probe
      must succeed and its version must lie within the bounds. */
  function CheckComponent(v: VersionCheck, sys: System, c: Component): (r: Result<(), CheckError>)
    ensures Bounds(v, c).None? ==> r.Ok?
    ensures Bounds(v, c).Some? ==>
      (r.Ok? <==> Probe(sys, c).Ok? && WithinBounds(Bounds(v, c).value, Probe(sys, c).value))
    ensures r.Err? ==> r.error.component == c
    ensures r.Err? && r.error.ProbeFailed? ==> Probe(sys, c) == Err(r.error.cause)
  {
    match Bounds(v, c)
    case None => Ok(())
    case Some(bounds) =>
      match Probe(sys, c)
      case Err(e) => Err(ProbeFailed(c, e))
      case Ok(version) =>
        match Compare(bounds, version)
        case Err(e) => Err(OutOfBounds(c, e))
        case Ok(_) => Ok(())
  }

  /** Every component in `cs` passes its check. */
  predicate AllPass(v: VersionCheck, sys: System, cs: seq<Component>) {
    forall i | 0 <= i < |cs| :: CheckComponent(v, sys, cs[i]).Ok?
  }

  /** Every component in `cs` gets a passing verdict. */
  predicate AllOk(verdict: Component -> Result<(), CheckError>, cs: seq<Component>) {
    forall i | 0 <= i < |cs| :: verdict(cs[i]).Ok?
  }

  /** Checks the components of `cs` in order, `verdict(c)` being the outcome of checking
      `c`; the first failure ends the run, and the components after it are never probed. */
  function RunChecks(verdict: Component -> Result<(), CheckError>, cs: seq<Component>): (run: CheckRun)
    ensures run.probed <= cs
    ensures run.result.Ok? <==> AllOk(verdict, cs)
    ensures run.result.Ok? ==> run.probed == cs
    ensures run.result.Err? ==>
      run.probed != [] && run.result == verdict(run.probed[|run.probed| - 1])
      && AllOk(verdict, run.probed[..|run.probed| - 1])
  {
    if cs == [] then CheckRun([], Ok(()))
    else if verdict(cs[0]).Err? then CheckRun([cs[0]], verdict(cs[0]))
    else
      var rest := RunChecks(verdict, cs[1..]);
      assert forall i | 1 <= i < |cs| :: cs[i] == cs[1..][i - 1];
      var probed := [cs[0]] + rest.probed;
      assert rest.result.Err? ==> probed[..|probed| - 1] == [cs[0]] + rest.probed[..|rest.probed| - 1];
      CheckRun(probed, rest.result)
  }

  /** The check of each component under `v` on `sys`. */
  function Verdict(v: VersionCheck, sys: System): (verdict: Component -> Result<(), CheckError>)
    ensures forall c :: verdict(c) == CheckComponent(v, sys, c)
  {
    c => CheckComponent(v, sys, c)
  }

  lemma VerdictsAreChecks(v: VersionCheck, sys: System)
    ensures forall cs :: AllOk(Verdict(v, sys), cs) <==> AllPass(v, sys, cs)
  {
  }

  /** Every component passes: the unbounded ones trivially. */
  predicate Passes(v: VersionCheck, sys: System) {
    CheckComponent(v, sys, Kernel).Ok? && CheckComponent(v, sys, Docker).Ok? && CheckComponent(v, sys, Runc).Ok?
  }

  /** Checking the bounded components is checking all of them. */
  lemma AllPassConfigured(v: VersionCheck, sys: System)
    ensures AllPass(v, sys, Configured(v)) <==> Passes(v, sys)
  {
    var cs := Configured(v);
    if AllPass(v, sys, cs) {
      forall c | Bounds(v, c).Some?
        ensures CheckComponent(v, sys, c).Ok?
      {
        assert c in cs;
        var i :| 0 <= i < |cs| && cs[i] == c;
      }
    } else {
      var i :| 0 <= i < |cs| && CheckComponent(v, sys, cs[i]).Err?;
      assert Bounds(v, cs[i]).Some?;
    }
  }

  /** `do_run`: checks the kernel, then docker, then runc, each only when bounded; the
      first failing probe or comparison ends the step. */
  function DoRun(v: VersionCheck, sys: System): (run: CheckRun)
    ensures run.probed <= Configured(v)
    ensures run.result.Ok? <==> Passes(v, sys)
    ensures run.result.Ok? ==> run.probed == Configured(v)
    ensures run.result.Err? ==>
      run.probed != [] && run.result == CheckComponent(v, sys, run.probed[|run.probed| - 1])
      && AllPass(v, sys, run.probed[..|run.probed| - 1])
  {
    AllPassConfigured(v, sys);
    VerdictsAreChecks(v, sys);
    RunChecks(Verdict(v, sys), Configured(v))
  }

  /** A version check with no bounds at all passes without probing anything. */
  lemma UnboundedCheckPasses(sys: System)
    ensures DoRun(VersionCheck(None, None, None, Skip, Undecided), sys) == CheckRun([], Ok(()))
  {
  }
}
