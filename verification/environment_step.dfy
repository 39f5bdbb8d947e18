/** The step that builds and boots a buildroot environment
    (src/tricks/steps/environment.rs). The `make` and `qemu` runs are host processes whose
    results the step never looks at. */
module EnvironmentSteps {
  import opened Results
  import opened Statuses
  import opened SerdeDefaults
  import opened Processes
  import Configs

  datatype CreateEnvironment = CreateEnvironment(
    kernelTag: string,
    kconfig: string,
    bconfig: string,
    failure: Status,
    success: Status)

  /** An environment step with its outcomes left out: a failure would be a setup
      failure, a success lets the trick go on. */
  function DefaultCreateEnvironment(kernelTag: string, kconfig: string, bconfig: string): (c: CreateEnvironment)
    ensures c.kernelTag == kernelTag && c.kconfig == kconfig && c.bconfig == bconfig
    ensures c.failure == SetupFailure && IsFinal(c.failure)
    ensures c.success == Undecided && !IsFinal(c.success)
  {
    CreateEnvironment(kernelTag, kconfig, bconfig, DefaultSetupFailure(), DefaultStatus())
  }

  /** The buildroot tree the step always builds in. */
  const BuildrootFolder: string := "~/Desktop/buildroot-bpfcontain/buildroot"

  /** The `make` invocation of `create_buildroot_image`. */
  function BuildrootInvocation(bconfig: string, kconfig: string): (inv: Invocation)
    ensures inv.program == "make"
    ensures inv.args == ["-C", BuildrootFolder, "BR2_DEFCONFIG=" + bconfig,
                         "BR2_LINUX_KERNEL_CUSTOM_CONFIG_FILE=" + kconfig]
  {
    Configs.MakeInvocation(BuildrootFolder, bconfig, kconfig)
  }

  /** The `qemu-system-x86_64` invocation of `launch_image`. */
  const LaunchInvocation: Invocation := Invocation("qemu-system-x86_64", [
    "-M", "pc", "-m", "2048", "-nographic", "-smp", "1",
    "-kernel", "~/Desktop/buildroot-bpfcontain/buildroot/output/images/bzImage",
    "-initrd", "~/Desktop/buildroot-bpfcontain/buildroot/output/images/rootfs.cpio",
    "-append", "console=tty1 console=ttyS0",
    "-netdev", "user,id=n1", "-device", "e1000,netdev=n1",
    "-device", "vhost-vsock-pci,id=vhost-vsock-pci0,guest-cid=3",
    "-netdev", "user,id=mynet0,hostfwd=tcp::30022-:22,hostfwd=tcp::32375-:2375",
    "-device", "virtio-net-pci,netdev=mynet0", "&"])

  /** The processes a run starts, and its result. */
  datatype EnvironmentRun = EnvironmentRun(invoked: seq<Invocation>, result: Result<(), string>)

  /** `CreateEnvironment::do_run`: runs `make` and then `qemu`, whatever `make` did, and
      succeeds whatever either did. */
  function DoCreateEnvironment(c: CreateEnvironment, make: ProcessOutput, qemu: ProcessOutput): (r: EnvironmentRun)
    ensures r.result.Ok?
    ensures r.invoked == [BuildrootInvocation(c.bconfig, c.kconfig), LaunchInvocation]
  {
    EnvironmentRun([BuildrootInvocation(c.bconfig, c.kconfig), LaunchInvocation], Ok(()))
  }
}
