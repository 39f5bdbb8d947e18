/** Reports on trick runs (src/tricks/report.rs): append-only accumulators of step and trick
    reports, the system information gathered for each trick, and the file name a report is
    written under. */
module Reports {
  import opened Results
  import opened Text
  import opened Statuses
  import opened Versions
  import opened VersionChecks
  import opened Steps

  /** Facts about the machine that ran a trick. */
  datatype SystemInfo = SystemInfo(
    host: string,
    kernel: Option<Versioning>,
    docker: Option<Versioning>,
    runc: Option<Versioning>)

  /** `SystemInfo::default`. */
  function DefaultSystemInfo(): (info: SystemInfo)
    ensures info.host == [] && info.kernel.None? && info.docker.None? && info.runc.None?
  {
    SystemInfo("", None, None, None)
  }

  /** `Result::ok`: the value of a success, nothing for a failure. */
  function OkValue<T, E>(r: Result<T, E>): (o: Option<T>)
    ensures o.Some? <==> r.Ok?
    ensures o.Some? ==> o.value == r.value
  {
    match r
    case Ok(v) => Some(v)
    case Err(_) => None
  }

  /** `SystemInfo::populate`: the node name, or "Unknown" when `uname` fails; then each
      version, or nothing when its own probe fails. Each field depends on its own probe. */
  function Populate(sys: System): (info: SystemInfo)
    ensures sys.uname.None? ==> info.host == "Unknown"
    ensures sys.uname.Some? ==> info.host == sys.uname.value.nodename
    ensures info.kernel.Some? <==> LinuxVersion(sys).Ok?
    ensures info.kernel.Some? ==> info.kernel.value == LinuxVersion(sys).value
    ensures info.docker.Some? <==> DockerVersion(sys).Ok?
    ensures info.docker.Some? ==> info.docker.value == DockerVersion(sys).value
    ensures info.runc.Some? <==> RuncVersion(sys).Ok?
    ensures info.runc.Some? ==> info.runc.value == RuncVersion(sys).value
  {
    var host := match sys.uname case Some(u) => u.nodename case None => "Unknown";
    SystemInfo(host, OkValue(LinuxVersion(sys)), OkValue(DockerVersion(sys)), OkValue(RuncVersion(sys)))
  }

  /** A failing docker probe affects nothing but the docker field. */
  lemma DockerProbeIsIndependent(sys: System, docker: Processes.ProcessOutput)
    requires docker.NotSpawned?
    ensures Populate(sys.(docker := docker)) == Populate(sys).(docker := None)
  {
  }

  /** A step together with the status its run gave. */
  datatype StepReport = StepReport(inner: Step, status: Status)

  /** `StepReport::new`: a copy of the step and its status. */
  function NewStepReport(step: Step, status: Status): (r: StepReport)
    ensures r.inner == step && r.status == status
  {
    StepReport(step, status)
  }

  datatype TrickReport = TrickReport(
    name: string,
    systemInfo: SystemInfo,
    steps: seq<StepReport>,
    status: Status)

  /** `TrickReport::new`: the trick's name, default system information, no steps yet, and
      a status that does not end anything. */
  function NewTrickReport(name: string): (r: TrickReport)
    ensures r.name == name && r.steps == [] && r.status == Undecided
    ensures r.systemInfo == DefaultSystemInfo()
  {
    TrickReport(name, DefaultSystemInfo(), [], DefaultStatus())
  }

  /** `TrickReport::add`: one step report more at the end; the earlier ones and every other
      field stay as they were. */
  function AddStep(r: TrickReport, s: StepReport): (r': TrickReport)
    ensures |r'.steps| == |r.steps| + 1 && r'.steps[..|r.steps|] == r.steps && r'.steps[|r.steps|] == s
    ensures r'.(steps := r.steps) == r
  {
    r.(steps := r.steps + [s])
  }

  /** `TrickReport::set_status`: overwrites the status and nothing else. */
  function SetStatus(r: TrickReport, s: Status): (r': TrickReport)
    ensures r'.status == s && r'.(status := r.status) == r
  {
    r.(status := s)
  }

  /** `TrickReport::set_system_info`: overwrites the system information with what the
      probes find, and nothing else. */
  function SetSystemInfo(r: TrickReport, sys: System): (r': TrickReport)
    ensures r'.systemInfo == Populate(sys) && r'.(systemInfo := r.systemInfo) == r
  {
    r.(systemInfo := Populate(sys))
  }

  /** A point in time, as the clock reports it. */
  datatype Date = Date(instant: int)

  datatype Report = Report(date: Date, exploits: seq<TrickReport>)

  /** `Report::new`: the given time (the clock is read by the caller) and no reports. */
  function NewReport(now: Date): (r: Report)
    ensures r.date == now && r.exploits == []
  {
    Report(now, [])
  }

  /** `Report::add`: one trick report more at the end; the date and the earlier reports
      stay as they were. */
  function AddTrick(r: Report, t: TrickReport): (r': Report)
    ensures r'.date == r.date
    ensures |r'.exploits| == |r.exploits| + 1 && r'.exploits[..|r.exploits|] == r.exploits
    ensures r'.exploits[|r.exploits|] == t
  {
    r.(exploits := r.exploits + [t])
  }

  /** Adding trick reports one by one, in order. */
  function AddTricks(r: Report, ts: seq<TrickReport>): (r': Report)
    decreases |ts|
  {
    if ts == [] then r else AddTricks(AddTrick(r, ts[0]), ts[1..])
  }

  /** A report only ever grows at its end: adding reports keeps everything there was and
      puts the new reports after it, in order. */
  lemma {:induction false} AddTricksAppends(r: Report, ts: seq<TrickReport>)
    ensures AddTricks(r, ts) == Report(r.date, r.exploits + ts)
    decreases |ts|
  {
    if ts != [] {
      AddTricksAppends(AddTrick(r, ts[0]), ts[1..]);
      assert r.exploits + [ts[0]] + ts[1..] == r.exploits + ts;
    }
  }

  /** A value of `DefaultHasher::finish`. */
  type U64 = x: nat | x < 0x1_0000_0000_0000_0000

  const FilenamePrefix: string := "report."
  const FilenameSuffix: string := ".json"

  /** The name `write_to_disk` gives the report file: the hash of the date, in decimal,
      between "report." and ".json". */
  function ReportFilename(hash: U64): (name: string)
    ensures FilenamePrefix <= name
    ensures name[|name| - |FilenameSuffix|..] == FilenameSuffix
  {
    var name := FilenamePrefix + Decimal(hash) + FilenameSuffix;
    assert name[|name| - |FilenameSuffix|..] == FilenameSuffix;
    assert FilenamePrefix <= name by {
      assert name[..|FilenamePrefix|] == FilenamePrefix;
    }
    name
  }

  /** The hash written into a report file name, when `name` has that form. */
  function FilenameHash(name: string): (h: Option<nat>) {
    if |name| >= |FilenamePrefix| + |FilenameSuffix| && FilenamePrefix <= name
       && name[|name| - |FilenameSuffix|..] == FilenameSuffix then
      var digits := name[|FilenamePrefix|..|name| - |FilenameSuffix|];
      if forall i | 0 <= i < |digits| :: IsDigit(digits[i]) then Some(DecimalValue(digits)) else None
    else None
  }

  /** The file name gives back the hash it was made from, so reports whose dates hash
      differently are written to different files. */
  lemma ReportFilenameRoundTrip(hash: U64)
    ensures FilenameHash(ReportFilename(hash)) == Some(hash as nat)
  {
    var digits := Decimal(hash);
    var name := ReportFilename(hash);
    assert name == FilenamePrefix + digits + FilenameSuffix;
    assert name[|FilenamePrefix|..|name| - |FilenameSuffix|] == digits;
    DecimalRoundTrip(hash);
  }

  /** Distinct hashes give distinct file names. */
  lemma ReportFilenameInjective(h1: U64, h2: U64)
    requires h1 != h2
    ensures ReportFilename(h1) != ReportFilename(h2)
  {
    ReportFilenameRoundTrip(h1);
    ReportFilenameRoundTrip(h2);
  }

  /** `write_to_disk`'s file name for a report; `hash` is `DefaultHasher` applied to a date. */
  function ReportFile(r: Report, hash: Date -> U64): (name: string)
    ensures FilenameHash(name) == Some(hash(r.date) as nat)
  {
    ReportFilenameRoundTrip(hash(r.date));
    ReportFilename(hash(r.date))
  }
}
