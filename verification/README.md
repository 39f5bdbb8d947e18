# Houdini's trick engine, in Dafny

Houdini runs *tricks*: container-escape experiments written as a list of steps. This
project models the engine that executes one trick. That covers:

- the seven kinds of step: create environment, version check, spawn container, kill
  container, run a script in a container, run a script on the host, and wait;
- the status lattice that decides when a trick stops;
- the report each run produces;
- the cleanup of every container a trick spawned.

It also models the parts of the engine these steps depend on:

- the docker helpers: image pull policies, the exec command builder, and spawn, kill, reap
  and run-command;
- the buildroot configuration file format;
- the guest image matrix.

Everything outside the engine is given to the model as a parameter. That includes:

- the docker daemon's answers;
- host processes and their exit statuses;
- `uname` and the version parsers of the `versions` crate;
- the standard input read of a wait step;
- the clock, and the hash of the report date.

The files follow the source layout:

| file | module | source |
|---|---|---|
| `status.dfy` | `Statuses` | `Status` of `src/tricks.rs` |
| `serde_defaults.dfy` | `SerdeDefaults` | `src/serde_defaults.rs` |
| `process.dfy` | `Processes` | how host processes are invoked and end |
| `docker_image.dfy` | `DockerImage` | `src/docker/image.rs` |
| `docker_cmd.dfy` | `DockerCmd` | `src/docker/cmd.rs` |
| `docker_container.dfy` | `DockerContainer` | `src/docker/container.rs` |
| `versioning.dfy` | `Versions` | version values and their order (`versions` crate and `strip_version`) |
| `version_check.dfy` | `VersionChecks` | `src/tricks/steps/version.rs` |
| `script.dfy` | `Scripts` | `src/tricks/steps/command.rs` and the script loops that use it |
| `container_steps.dfy` | `ContainerSteps` | `src/tricks/steps/container.rs` |
| `host_step.dfy` | `HostSteps` | `src/tricks/steps/host.rs` |
| `wait_step.dfy` | `WaitSteps` | `src/tricks/steps/wait.rs` |
| `environment_step.dfy` | `EnvironmentSteps` | `src/tricks/steps/environment.rs` |
| `environment.dfy` | `Configs` | `src/tricks/environment.rs` |
| `steps.dfy` | `Steps` | `src/tricks/steps.rs` |
| `report.dfy` | `Reports` | `src/tricks/report.rs` |
| `guest.dfy` | `Guests` | `src/tricks/guest.rs` |
| `tricks.dfy` | `Tricks` | `Trick` and `Trick::run` of `src/tricks.rs` |
| `results.dfy`, `text.dfy` | `Results`, `Text` | `Option`/`Result`, and the Rust string operations the engine uses |

Decisions worth knowing:

- **Trick execution.**
  - `Tricks.Execute` is the step loop as a recursive fold.
  - `Tricks.LoopSteps` and `Tricks.Run` are the loop as the source writes it, with `break`,
    followed by the reap loop. Both are proved equal to the fold.
  - The daemon's answers to the `i`th step are `env(i)`.
- **Cleanup of failed spawns.** `Trick::run` first runs a step (`src/tricks.rs:49`). Then,
  if the step is a spawn step, it inserts the container name into the set to clean up
  (`src/tricks.rs:51-53`). The insertion does not look at the step's status, so the name
  of a spawn that failed is collected and reaped too. `Tricks.Collect` and
  `Tricks.CleanupCoversSpawns` state this.
- **Where exec output goes.** `Command::exec` appends standard-error items to the
  *stdout* buffer (`src/docker/cmd.rs:150-152`). The model does the same: `DockerCmd.Exec`
  always returns an empty stderr.
- **Default statuses in `serde_defaults.rs`.** They are typed `ExploitStatus`. That type is
  not part of this model. They are modelled with the trick `Status`, whose `SetupFailure`
  and `Skip` they are used for.

## Model

| member | source | states |
|---|---|---|
| Statuses.IsFinal | src/tricks.rs:111-119 | every status except `Undecided` ends the trick |
| Statuses.DefaultStatus | src/tricks.rs:122-126 | the default status does not end a trick |
| SerdeDefaults.DefaultTrue | src/serde_defaults.rs:12-14 | the default of an omitted flag that defaults on |
| SerdeDefaults.DefaultFalse | src/serde_defaults.rs:16-18 | the default of an omitted flag that defaults off |
| SerdeDefaults.DefaultSetupFailure | src/serde_defaults.rs:20-22 | the default failure outcome is `SetupFailure`, a final status |
| SerdeDefaults.DefaultSkip | src/serde_defaults.rs:24-26 | the default failure outcome of a version check is `Skip`, a final status |
| DockerImage.DefaultPolicy | src/docker/image.rs:47-55 | the default policy pulls only when the image is missing, with no checksum and no repository |
| DockerImage.SplitImageRef | src/docker/image.rs:81-86 | the reference splits at its first ':': name, ':' and tag give back the reference, and the name holds no ':'; with no ':' there is no tag |
| DockerImage.PullTag | src/docker/image.rs:102-106 | the pulled tag is the reference's own tag, or "latest" without one |
| DockerImage.DrainPull | src/docker/image.rs:113-140 | the pull succeeds exactly when no stream item is an error item or a transport error; a failure is the error of such an item |
| DockerImage.PullImageWith | src/docker/image.rs:75-151 | an image already present is not pulled unless `always`; otherwise the pull is followed by an inspection, and it succeeds exactly when the stream drains cleanly and the image is then present |
| DockerImage.PullIgnoresChecksum | src/docker/image.rs:75-80 | the checksum argument changes neither the requests nor the result |
| DockerImage.AcquireImage | src/docker/image.rs:59-72 | `Never` does nothing and succeeds; `Pull` is `pull_image`; `Build` sends no request and fails |
| DockerCmd.Success | src/docker/cmd.rs:39-43 | an exec succeeded exactly when its exit code is 0 |
| DockerCmd.New | src/docker/cmd.rs:69-79 | a new command has no arguments, no TTY, no privileges and no stream redirections |
| DockerCmd.Arg | src/docker/cmd.rs:82-85 | one argument is appended after the existing ones; no other field changes |
| DockerCmd.Args | src/docker/cmd.rs:88-93 | the arguments are appended in order; no other field changes |
| DockerCmd.Tty | src/docker/cmd.rs:96-99 | only the TTY flag changes |
| DockerCmd.Privileged | src/docker/cmd.rs:102-105 | only the privilege flag changes |
| DockerCmd.Stdout | src/docker/cmd.rs:108-111 | only the stdout mode changes |
| DockerCmd.Stderr | src/docker/cmd.rs:114-117 | only the stderr mode changes |
| DockerCmd.ExecArgv | src/docker/cmd.rs:127-131 | the exec runs the program first and then its arguments |
| DockerCmd.BuiltArgv | src/docker/cmd.rs:69-93 | a command built with `new`, `args` and `arg` execs the program and then every argument, in the order given |
| DockerCmd.ExecOptionsFor | src/docker/cmd.rs:122-134 | stdin is not attached, stdout and stderr are; the command, TTY and privilege are the ones given |
| DockerCmd.ExecRequestOf | src/docker/cmd.rs:122-134 | the exec request carries the command's argv, TTY and privilege flags |
| DockerCmd.CollectOutputAppend | src/docker/cmd.rs:146-158 | the collected output of an error-free stream prefix concatenates; collection stops at the first error item |
| DockerCmd.Exec | src/docker/cmd.rs:119-167 | once the client is reached, the exec created is in the command's container with the command's argv, TTY and privilege flags; the exec succeeds exactly when the client, creation, start and inspection all work; its output is everything the stream delivered, and its code is the one the inspection reported |
| DockerCmd.Status | src/docker/cmd.rs:175-178 | `status` fails exactly when the exec fails, and otherwise gives the exec's exit code |
| DockerContainer.IdFromString | src/docker/container.rs:30-34 | converting a string to an id and back gives the string |
| DockerContainer.IdToString | src/docker/container.rs:36-40 | converting an id to a string and back gives the id |
| DockerContainer.SpawnConfig | src/docker/container.rs:132-155 | the container's command is present exactly when `cmd` is, and is then `cmd` split at whitespace, whose words concatenate to its visible characters; auto-remove is on; binds, security options and privilege are the ones given |
| Text.SplitJoinWords | src/docker/container.rs:146 | splitting at whitespace gives back any non-empty, whitespace-free words that were joined by spaces: the split cuts at whitespace and nowhere else |
| DockerContainer.SpawnContainer | src/docker/container.rs:116-166 | image acquisition comes first, then container creation, then start; the spawn succeeds exactly when all of them succeed; a failed acquisition creates nothing |
| DockerContainer.KillContainerNamed | src/docker/container.rs:169-176 | a kill request is sent when the client connects, and the kill succeeds exactly when the client connects and the kill succeeds |
| DockerContainer.ReapContainer | src/docker/container.rs:92-113 | a forced removal with volumes comes first; the reap succeeds exactly when the client connects and the removal succeeds, and it then waits for removal |
| DockerContainer.ReapIgnoresWaitErrors | src/docker/container.rs:105-110 | whatever the wait stream yields does not change the reap |
| DockerContainer.RunCommand | src/docker/container.rs:179-262 | the command succeeds exactly when every daemon call works and the exit code is 0; no exit code is `unknown exit status`, and a non-zero code `c` is a failure with `c` |
| Versions.Strip | src/tricks/steps/version.rs:164-179 | stripping drops the pre-release and metadata of a semantic version and the metadata of a general version; it leaves a complex version alone, it is idempotent, and it keeps the comparison key |
| Versions.CmpStrippedIsKeyOrder | src/tricks/steps/version.rs:91-103 | on stripped versions the order compares the major.minor.patch (or chunk) keys |
| Versions.StrippedOrderIsTotalPreorder | src/tricks/steps/version.rs:91-103 | on stripped versions, "not after" is reflexive, total and transitive |
| Versions.Compare | src/tricks/steps/version.rs:88-106 | a version passes exactly when its stripped key lies within the inclusive stripped bounds; the maximum is checked first |
| Versions.CompareAdmitsBoundItself | src/tricks/steps/version.rs:88-106 | both bounds are inclusive: a version passes bounds equal to itself |
| Versions.CompareAdmitsInterval | src/tricks/steps/version.rs:88-106 | the versions that pass form an interval |
| Versions.KernelMaximumExample | src/tricks/steps/version.rs:229-249 | with maximum 5.18.9-arch1-1, the versions 5.18.9-arch1-1, 5.18.9-foobar and 5.18.9 pass; 5.18.10, 5.19.0 and 6.0.0 do not |
| Versions.DeserializeVersioning | src/tricks/steps/version.rs:196-222 | an absent string is no version; otherwise the first of the semantic, general and complex parsers to accept wins, and a string none accepts is an error |
| VersionChecks.ParseVersion | src/tricks/steps/version.rs:159-161 | a text is a version exactly when the parser accepts it; the error names the text |
| VersionChecks.DockerVersionText | src/tricks/steps/version.rs:148-150 | a line matches exactly when it starts with "Docker version" and its trimmed remainder has a comma; the version is what precedes the first comma |
| VersionChecks.RuncVersionText | src/tricks/steps/version.rs:130 | a line matches exactly when it starts with "runc version"; the version is the trimmed remainder |
| VersionChecks.DockerBannerRoundTrip | src/tricks/steps/version.rs:146-153 | the usual banner "Docker version V, build B" yields V |
| VersionChecks.RuncBannerRoundTrip | src/tricks/steps/version.rs:128-133 | the banner "runc version V" yields V |
| VersionChecks.ScanVersion | src/tricks/steps/version.rs:128-134 | the scan stops at the first unreadable line or the first matching line; when no line matches, the version line is missing |
| VersionChecks.ProbeOutput | src/tricks/steps/version.rs:120-127 | a probe that cannot be spawned or exits unsuccessfully is an error; otherwise its standard output is scanned |
| VersionChecks.LinuxVersion | src/tricks/steps/version.rs:110-117 | a failing `uname` and a non-UTF-8 release are errors; otherwise the release is parsed |
| VersionChecks.DockerVersionProbe | src/tricks/steps/version.rs:138-156 | a docker that fails to spawn, or exits unsuccessfully, is its own error; otherwise the version is the parse of the first output line that starts with "Docker version" and has a comma, every line before it being readable; an unreadable line before it is an error, and no such line is exactly the missing-line error |
| VersionChecks.RuncVersionProbe | src/tricks/steps/version.rs:120-135 | a runc that fails to spawn, or exits unsuccessfully, is its own error; otherwise the version is the parse of the first output line that starts with "runc version", every line before it being readable; an unreadable line before it is an error, and no such line is exactly the missing-line error |
| VersionChecks.RuncBannerIsParsed | src/tricks/steps/version.rs:120-135 | a runc that prints its usual banner first has the version in that banner parsed |
| VersionChecks.DockerBannerIsParsed | src/tricks/steps/version.rs:138-156 | a docker that prints its usual banner first has the version in that banner parsed |
| VersionChecks.DefaultVersionCheck | src/tricks/steps/version.rs:25-36 | an omitted failure outcome is `Skip`, which is final, and an omitted success outcome is `Undecided` |
| VersionChecks.Configured | src/tricks/steps/version.rs:40-61 | exactly the components with bounds are checked |
| VersionChecks.CheckComponent | src/tricks/steps/version.rs:41-58 | an unbounded component passes; a bounded one fails with its probe's error, or passes exactly when its version lies within the bounds |
| VersionChecks.RunChecks | src/tricks/steps/version.rs:40-61 | components are checked in order and the first failure stops the check; the check passes exactly when every verdict passes |
| VersionChecks.VerdictsAreChecks | src/tricks/steps/version.rs:40-61 | the per-component verdicts are the component checks |
| VersionChecks.AllPassConfigured | src/tricks/steps/version.rs:40-61 | checking only the bounded components is the same as checking all of them |
| VersionChecks.DoRun | src/tricks/steps/version.rs:40-61 | the step passes exactly when every component passes; only bounded components are probed, kernel then docker then runc, and the first failure stops the step |
| VersionChecks.UnboundedCheckPasses | src/tricks/steps/version.rs:40-61 | a check without bounds passes without probing anything |
| Scripts.RunScript | src/tricks/steps/container.rs:132-145 | commands run in order; the script succeeds exactly when every command does; otherwise it stops at the first failure and reports that failure |
| Scripts.EmptyScriptSucceeds | src/tricks/steps/container.rs:132-145 | an empty script succeeds without running anything |
| Scripts.RunFromIgnoresLater | src/tricks/steps/container.rs:132-145 | the outcomes of commands after the failing one cannot change the run |
| ContainerSteps.DefaultSpawnContainer | src/tricks/steps/container.rs:24-51 | omitted fields default to the default pull policy, no volumes, no security options, unprivileged, a failure outcome of `SetupFailure` and a success outcome of `Undecided` |
| ContainerSteps.DoSpawn | src/tricks/steps/container.rs:55-66 | the step spawns with its own fields; it succeeds exactly when acquisition, creation and start all succeed |
| ContainerSteps.BuildPolicySpawnFails | src/tricks/steps/container.rs:55-66 | with the `Build` policy the spawn fails before any request is sent |
| ContainerSteps.DefaultKillContainer | src/tricks/steps/container.rs:80-89 | omitted outcomes of a kill default to `Undecided`; neither ends the trick |
| ContainerSteps.DoKill | src/tricks/steps/container.rs:93-95 | the step kills the container of its name |
| ContainerSteps.DefaultContainer | src/tricks/steps/container.rs:109-128 | omitted fields default to unprivileged, with a TTY, and both outcomes `Undecided` |
| ContainerSteps.ExecAttempt | src/tricks/steps/container.rs:132-145 | each script command is a `run_command` in the step's container, with the step's privilege and TTY flags |
| ContainerSteps.DoContainer | src/tricks/steps/container.rs:132-145 | the step succeeds exactly when every command's exec succeeds; otherwise the first failing command ends it with that command's error |
| ContainerSteps.ExecAttemptFails | src/docker/container.rs:252-262 | a command succeeds exactly when every daemon call works and the reported exit code is 0 |
| HostSteps.DefaultHost | src/tricks/steps/host.rs:26-36 | omitted outcomes of a host step default to `Undecided` |
| HostSteps.HostCommand | src/tricks/steps/host.rs:42-81 | a command succeeds exactly when it was spawned and exited with 0; a spawn failure, a non-zero exit code and a killing signal are three distinct errors |
| HostSteps.RunHostScript | src/tricks/steps/host.rs:41-82 | the script succeeds exactly when every command's process was spawned and exited with 0; otherwise the first command that did not ends it with that command's error |
| HostSteps.DoHost | src/tricks/steps/host.rs:40-85 | the step starts the commands in order, each as its program with its arguments, up to and including the first that fails; it succeeds exactly when every command succeeds, having started all of them, and otherwise ends with the first failing command's error |
| HostSteps.EmptyHostScriptSucceeds | src/tricks/steps/host.rs:40-85 | an empty host script succeeds without running anything |
| WaitSteps.DoWait | src/tricks/steps/wait.rs:31-39 | waiting succeeds, whether or not reading stdin works |
| WaitSteps.WaitSuccess | src/tricks/steps/wait.rs:41-43 | the success outcome of a wait does not end the trick |
| WaitSteps.WaitFailure | src/tricks/steps/wait.rs:45-47 | the failure outcome of a wait does not end the trick |
| EnvironmentSteps.DefaultCreateEnvironment | src/tricks/steps/environment.rs:17-31 | an omitted failure outcome is `SetupFailure` and an omitted success outcome is `Undecided` |
| EnvironmentSteps.BuildrootInvocation | src/tricks/steps/environment.rs:52-71 | the step runs `make -C` on its buildroot tree with the step's defconfig and kernel config |
| EnvironmentSteps.DoCreateEnvironment | src/tricks/steps/environment.rs:35-41 | the step runs `make` and then `qemu`, whatever `make` did, and always succeeds |
| Configs.ParseLine | src/tricks/environment.rs:60-66 | a line yields no entry exactly when it is a comment or has no '='; the key and value are trimmed, and the key has no '=' |
| Configs.ParseEach | src/tricks/environment.rs:60-66 | every line is parsed on its own |
| Configs.AssembleKeys | src/tricks/environment.rs:54-70 | a key is in the configuration exactly when some line sets it |
| Configs.AssembleLastWins | src/tricks/environment.rs:54-70 | a key's value is the one its last setting line gives |
| Configs.ParseConfigLastWins | src/tricks/environment.rs:54-70 | the configuration parsed from a text gives each key the value of its last setting line |
| Configs.EntryLines | src/tricks/environment.rs:76-79 | each key of the enumeration is written as one `key=value` line, in order |
| Configs.WriteConfig | src/tricks/environment.rs:72-82 | an empty configuration writes nothing, and any other ends in a newline |
| Configs.AssembleAllEntries | src/tricks/environment.rs:54-82 | the entries written for every key of the map, read back in order, rebuild the whole map |
| Configs.ParseWriteRoundTrip | src/tricks/environment.rs:54-82 | parsing what was written gives back the configuration, when every key and value is already trimmed and holds no newline, and no key holds '=' or starts with '#' |
| Configs.MakeInvocation | src/tricks/environment.rs:89-96 | `make` gets exactly four arguments: `-C`, the folder, `BR2_DEFCONFIG=` with the buildroot configuration and `BR2_LINUX_KERNEL_CUSTOM_CONFIG_FILE=` with the kernel configuration |
| Configs.CreateBuildrootImage | src/tricks/environment.rs:84-106 | the build succeeds exactly when `make` ran and exited successfully; a spawn failure and an unsuccessful exit are distinct errors, the latter with the status |
| Steps.DoRun | src/tricks/steps.rs:48-59 | every step kind delegates to its own `do_run`: environment and wait steps always succeed; a version check passes exactly when every component does; spawn, kill, container and host steps succeed exactly when their daemon or processes do |
| Steps.OnSuccess | src/tricks/steps.rs:37-59 | every step but a wait yields its own `success` field when it succeeds; a wait yields a status that never ends the trick |
| Steps.OnFailure | src/tricks/steps.rs:37-59 | every step but a wait yields its own `failure` field when it fails; a wait yields a status that never ends the trick |
| Steps.RunStep | src/tricks/steps.rs:66-79 | a successful `do_run` yields the success outcome, and a failed one the failure outcome |
| Steps.Run | src/tricks/steps.rs:48-59 | a step's status is its success outcome exactly when its `do_run` succeeds, and otherwise its failure outcome |
| Steps.RunForgetsErrors | src/tricks/steps.rs:66-79 | the error of a failed `do_run` does not affect the status |
| Steps.WaitNeverHalts | src/tricks/steps/wait.rs:41-47 | a wait step never ends a trick |
| Steps.CreateEnvironmentSucceeds | src/tricks/steps/environment.rs:35-41 | an environment step always yields its success outcome |
| Steps.EmptyContainerScriptSucceeds | src/tricks/steps/container.rs:132-145 | a container step with an empty script yields its success outcome |
| Steps.VersionCheckOutcome | src/tricks/steps/version.rs:40-69 | a version check yields its success outcome exactly when every bounded component passes |
| Steps.SpawnedName | src/tricks.rs:51-53 | exactly spawn steps register a name, which is the container's name |
| Reports.DefaultSystemInfo | src/tricks/report.rs:132-144 | default system information has no host name and no versions |
| Reports.Populate | src/tricks/report.rs:154-163 | the host name is "Unknown" when `uname` fails; each version is present exactly when its own probe succeeds, and it is then that probe's version |
| Reports.DockerProbeIsIndependent | src/tricks/report.rs:154-163 | a failing docker probe affects only the docker field |
| Reports.NewStepReport | src/tricks/report.rs:121-126 | a step report holds the step and its status |
| Reports.NewTrickReport | src/tricks/report.rs:87-94 | a new trick report has the trick's name, default system information, no steps, and a status that ends nothing |
| Reports.AddStep | src/tricks/report.rs:96-98 | a step report is appended; the earlier ones and the other fields stay |
| Reports.SetStatus | src/tricks/report.rs:100-102 | only the status changes |
| Reports.SetSystemInfo | src/tricks/report.rs:104-106 | only the system information changes, to what the probes find |
| Reports.NewReport | src/tricks/report.rs:42-47 | a new report has the given date and no trick reports |
| Reports.AddTrick | src/tricks/report.rs:49-51 | a trick report is appended; the date and the earlier reports stay |
| Reports.AddTricksAppends | src/tricks/report.rs:49-51 | adding reports one at a time appends them all, in order |
| Reports.ReportFilename | src/tricks/report.rs:53-58 | the file name starts with "report." and ends with ".json" |
| Reports.ReportFilenameRoundTrip | src/tricks/report.rs:53-58 | the file name gives back the hash it was made from |
| Reports.ReportFilenameInjective | src/tricks/report.rs:53-58 | different hashes give different file names |
| Reports.ReportFile | src/tricks/report.rs:53-58 | the report's file name encodes the hash of its date |
| Guests.DefaultImageSpec | src/tricks/guest.rs:39-46 | an omitted policy is the default pull policy |
| Guests.ProductAt | src/tricks/guest.rs:62-73 | pair (i, j) sits at index i * (number of root filesystems) + j |
| Guests.ProductIndex | src/tricks/guest.rs:62-73 | every index of the product is some pair (i, j) |
| Guests.Expand | src/tricks/guest.rs:62-73 | the matrix expands to (kernels × root filesystems) images, each with a kernel, and to none when either list is empty |
| Guests.ExpandMembers | src/tricks/guest.rs:62-73 | an image is in the expansion exactly when it pairs a kernel and a root filesystem of the matrix |
| Guests.ExpandOrder | src/tricks/guest.rs:62-73 | the expansion is kernel-major |
| Guests.MaybePullKernel | src/tricks/guest.rs:84-93 | no kernel means nothing to acquire; otherwise the kernel image is acquired under its own policy, and its failure is a kernel failure |
| Guests.PullRootfs | src/tricks/guest.rs:95-102 | the root filesystem is acquired under its own policy, and its failure is a root filesystem failure |
| Guests.NeverPolicyKernelIsFree | src/tricks/guest.rs:84-93 | a kernel under policy `Never` sends no request and succeeds |
| Guests.FileSystemName | src/tricks/guest.rs:174-180 | ext4 is displayed as "ext4" |
| Guests.FileSystemNameRoundTrip | src/tricks/guest.rs:170-180 | the displayed name gives back the file system, and a name that is recognised is the displayed one |
| Tricks.Outcomes | src/tricks.rs:48-61 | the `i`th step's status is its run against the world it meets |
| Tricks.SpawnedInNames | src/tricks.rs:51-53 | a name is collected exactly when one of the steps run spawns a container with that name |
| Tricks.Loop | src/tricks.rs:48-61 | the loop reports each step run, in order, with its status; every reported status but the last is non-final; it stops early only on a final status; it collects the names of the spawn steps run |
| Tricks.LoopTurn | src/tricks.rs:48-61 | one turn of the loop records the step and stops exactly on a final status |
| Tricks.Execute | src/tricks.rs:48-61 | the step loop from the start: the reported steps are a prefix run in order, the trick status is the last one, and it is `Undecided` when nothing ran |
| Tricks.FirstFinalIsFirst | src/tricks.rs:58-60 | every step before the first final one yields a non-final status |
| Tricks.ExecuteStopsAtFirstFinal | src/tricks.rs:48-61 | exactly the steps up to and including the first one with a final status are run, or all of them when none is final |
| Tricks.EmptyTrickIsUndecided | src/tricks.rs:39-85 | a trick with no steps ends `Undecided`, with nothing reported or collected |
| Tricks.CleanupCoversSpawns | src/tricks.rs:51-53 | every spawn step that ran is collected for cleanup, even one whose spawn failed |
| Tricks.LoopSteps | src/tricks.rs:48-61 | the loop with `break` computes the fold |
| Tricks.RunSteps | src/tricks.rs:48-61 | the loop over the steps of a trick computes `Execute` |
| Tricks.ReapOneMore | src/tricks.rs:78-82 | reaping a container not reaped before adds its name once to the names reaped |
| Tricks.ReapAll | src/tricks.rs:77-82 | `reap_container` runs exactly once on every collected container and on nothing else, each effect being that of `reap_container` on its name, whatever each reap returns |
| Tricks.Run | src/tricks.rs:39-85 | the report has the trick's name, the probed system information, the steps run and the final status; `reap_container` runs exactly once on every container spawned by a step that ran, with that reap's effect |

## Left out

- Reading trick and report documents (serde, YAML, JSON) and writing them is not modelled. The
  defaults of omitted fields are modelled (`Default…` members); a parse error is not. The
  `Display` and serialised forms are not modelled either, apart from `FileSystem`.
- Logging and tracing are not modelled, because they do not affect any result.
- Booting the guest (`launch_guest` and the body of `launch_image`) and preparing a root
  filesystem (`mkfs`, `mount`, `export_rootfs`, `create_and_populate_filesystem`) are not
  modelled. Only the `qemu` invocation an environment step makes is kept, as an opaque
  process.
- The command-line interface, configuration loading, the transport to the daemon and the
  binaries are not part of this model. Neither is `src/host.rs`, which no step uses.
- Timers are not modelled, and neither is the byte read from stdin. A wait step's read is
  an input bit, and the step succeeds either way.
- The parsers of the `versions` crate are parameters. The crate's order is modelled on
  major.minor.patch and chunk keys. For anything other than two semantic versions this is
  an approximation of the crate's finer rules.
- `build_image` panics with `todo!()` (`src/docker/image.rs:153-155`). It is modelled as the
  error `BuildUnimplemented`, because a Dafny function cannot panic.
- ContainerSteps.BuildPolicySpawnFails: in the source the `Build` policy panics, and nothing
  catches the panic in `RunStep::run` (`src/tricks/steps.rs:63-79`) or `Trick::run`. The model
  turns it into a failed step instead.
- Tricks.Run: for a trick whose spawn step has the `Build` policy, the source panics inside
  the step loop (`src/tricks.rs:48-61`). No report is produced and no container is reaped.
  The model instead reports the failed step, goes on like any other failure and reaps.
- The reap loop drains a `HashSet` in an order the standard library chooses. The model
  states the reaps as a multiset, which holds for every order.
- Strings are sequences of characters. Invalid UTF-8 (`to_string_lossy`, `from_utf8`
  failures) is not modelled, except for the non-UTF-8 kernel release, which is an input.
- Exit codes are unbounded integers. The `i32` and `i64` widths are not modelled; exit
  codes are only compared with 0.
- `DefaultHasher` and the clock (`chrono`) are parameters of the report members.
- I/O errors from reading and writing a configuration file are not modelled. The text is
  given in memory.
- Configs.WriteConfig: the order in which a `HashMap` is iterated is the `order`
  parameter. The function's own contract is only about emptiness and the final newline;
  `Configs.ParseWriteRoundTrip` states what is written.
- Configs.WriteConfig: the source writes each line with `write` and ignores the byte count
  it returns (`src/tricks/environment.rs:78`), so a short write would drop part of a line.
  The model writes every line in full.
- Configs.ParseWriteRoundTrip: holds for the text the model writes. Under a short write in
  the source (see the line above) the text read back can differ.
- DockerImage.DrainPull: the source marks the pull loop as one that can hang forever
  (`src/docker/image.rs:112`). The model drains a finite sequence of stream items, so a
  stream that never ends is not modelled.
- DockerImage.PullImageWith: it rests on `DockerImage.DrainPull`, so it does not model a
  pull that never returns either.
- Configs.ParseConfig: the key-existence if-and-only-if is stated on `Configs.Assemble`
  (`Configs.AssembleKeys`). For a parsed text it follows through `Configs.ParseEach`.
- The daemon and host processes answer through oracle records. What a real daemon does
  with a request (container state, images on disk) is not modelled.
