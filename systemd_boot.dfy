/** `SystemdBoot.install`: `bootctl install`, the loader configuration and the two boot
    entries. */
module SystemdBoot {
  import opened Wrappers
  import opened Text
  import opened Trace
  import opened Microcode

  const BOOTCTL_INSTALL := "arch-chroot /mnt bootctl install"
  const LOADER_CONF_PATH := "/mnt/boot/loader/loader.conf"
  const ENTRIES_DIR := "/mnt/boot/loader/entries"
  const MAIN_ENTRY_PATH := "/mnt/boot/loader/entries/arch.conf"
  const FALLBACK_ENTRY_PATH := "/mnt/boot/loader/entries/arch-fallback.conf"

  /** `loader.conf`: boot `arch.conf` after 3 seconds, keep the console mode, no editor. */
  function LoaderConf(): string {
    Lines(["default arch.conf", "timeout 3", "console-mode keep", "editor no"])
  }

  /** `loader.conf` reads back as exactly its four newline-terminated lines. */
  lemma LoaderConfLines()
    ensures SplitOn(LoaderConf(), '\n') == ["default arch.conf", "timeout 3", "console-mode keep", "editor no", []]
  {
    var ls := ["default arch.conf", "timeout 3", "console-mode keep", "editor no"];
    assert forall k :: 0 <= k < |ls| ==> NoChar(ls[k], '\n');
    SplitLines(ls);
  }

  /** The extra initrd line, present only for a truthy `microcode_file`. */
  function MicrocodeLines(microcode: Option<string>): (r: seq<string>)
    ensures |r| == (if HasMicrocode(microcode) then 1 else 0)
  {
    if HasMicrocode(microcode) then ["initrd /" + microcode.value] else []
  }

  const NVIDIA_MODESET := " nvidia-drm.modeset=1"

  function BaseOptions(root: string): string {
    "root=" + root + " rw quiet"
  }

  /** The kernel options: the root device, read-write and quiet, and for an NVIDIA GPU the
      DRM kernel mode setting on top. */
  function Options(root: string, gpu: string): (r: string)
    ensures r == BaseOptions(root) || r == BaseOptions(root) + NVIDIA_MODESET
    ensures r == BaseOptions(root) + NVIDIA_MODESET <==> gpu == "nvidia"
  {
    if gpu == "nvidia" then BaseOptions(root) + NVIDIA_MODESET else BaseOptions(root)
  }

  function Title(kernel: string): string {
    "title Arch Linux (" + kernel + ")"
  }

  function LinuxLine(kernel: string): string {
    "linux /vmlinuz-" + kernel
  }

  /** The lines of `arch.conf`. */
  function MainEntryLines(root: string, kernel: string, gpu: string, microcode: Option<string>): seq<string> {
    [Title(kernel), LinuxLine(kernel)] + MicrocodeLines(microcode)
    + ["initrd /initramfs-" + kernel + ".img", "options " + Options(root, gpu)]
  }

  /** The lines of `arch-fallback.conf`. */
  function FallbackEntryLines(root: string, kernel: string, gpu: string, microcode: Option<string>): seq<string> {
    [Title(kernel) + " (fallback)", LinuxLine(kernel)] + MicrocodeLines(microcode)
    + ["initrd /initramfs-" + kernel + "-fallback.img", "options " + Options(root, gpu)]
  }

  /** The effects of `install(root_partition, kernel, gpu, microcode_file)`. */
  function SystemdBootScript(root: string, kernel: string, gpu: string, microcode: Option<string>): seq<Effect> {
    [ Run(BOOTCTL_INSTALL),
      Write(LOADER_CONF_PATH, LoaderConf()),
      MakeDirs(ENTRIES_DIR),
      Write(MAIN_ENTRY_PATH, Lines(MainEntryLines(root, kernel, gpu, microcode))),
      Write(FALLBACK_ENTRY_PATH, Lines(FallbackEntryLines(root, kernel, gpu, microcode))) ]
  }

  /** Installing systemd-boot shows no step label of its own. */
  lemma SystemdBootQuiet(root: string, kernel: string, gpu: string, microcode: Option<string>)
    ensures Quiet(SystemdBootScript(root, kernel, gpu, microcode))
  {
  }

  /** The main entry: title, kernel, the microcode initrd when there is one, then the kernel's
      initramfs and the options, in that order. */
  lemma MainEntryLayout(root: string, kernel: string, gpu: string, microcode: Option<string>)
    ensures var ls := MainEntryLines(root, kernel, gpu, microcode); var m := |MicrocodeLines(microcode)|;
      && |ls| == 4 + m
      && ls[0] == Title(kernel) && ls[1] == LinuxLine(kernel)
      && (HasMicrocode(microcode) ==> ls[2] == "initrd /" + microcode.value)
      && ls[2 + m] == "initrd /initramfs-" + kernel + ".img"
      && ls[3 + m] == "options " + Options(root, gpu)
  {
  }

  /** The fallback entry is the main entry with " (fallback)" after the title and the
      fallback initramfs; every other line is the same. */
  lemma FallbackMatchesMain(root: string, kernel: string, gpu: string, microcode: Option<string>)
    ensures var main := MainEntryLines(root, kernel, gpu, microcode);
      var fb := FallbackEntryLines(root, kernel, gpu, microcode);
      var k := |main| - 2;
      && |fb| == |main|
      && fb[0] == main[0] + " (fallback)"
      && fb[k] == "initrd /initramfs-" + kernel + "-fallback.img"
      && fb[1..k] == main[1..k]
      && fb[k + 1..] == main[k + 1..]
  {
    var main := MainEntryLines(root, kernel, gpu, microcode);
    var fb := FallbackEntryLines(root, kernel, gpu, microcode);
    var mc := MicrocodeLines(microcode);
    var k := |main| - 2;
    var opts := "options " + Options(root, gpu);
    assert main == [Title(kernel), LinuxLine(kernel)] + mc + ["initrd /initramfs-" + kernel + ".img", opts];
    assert fb == [Title(kernel) + " (fallback)", LinuxLine(kernel)] + mc + ["initrd /initramfs-" + kernel + "-fallback.img", opts];
    assert k == 2 + |mc|;
    assert main[1..k] == [LinuxLine(kernel)] + mc;
    assert fb[1..k] == [LinuxLine(kernel)] + mc;
    assert main[k + 1..] == [opts];
    assert fb[k + 1..] == [opts];
  }

  /** `bootctl install` is the only command and comes first: when it fails nothing is written;
      otherwise the loader configuration, the entries directory and both entries follow. */
  lemma BootctlFirst(root: string, kernel: string, gpu: string, microcode: Option<string>, failing: map<string, ExitStatus>)
    ensures var s := SystemdBootScript(root, kernel, gpu, microcode); var r := Execute(s, failing);
      && Commands(s) == [BOOTCTL_INSTALL]
      && (BOOTCTL_INSTALL in failing ==> r == StepRun([Run(BOOTCTL_INSTALL)], Some(CommandFailed(BOOTCTL_INSTALL, failing[BOOTCTL_INSTALL]))))
      && (BOOTCTL_INSTALL !in failing ==> r == StepRun(s, None))
  {
    var s := SystemdBootScript(root, kernel, gpu, microcode);
    var tail := s[1..];
    assert s == [Run(BOOTCTL_INSTALL)] + tail;
    assert forall i :: 0 <= i < |tail| ==> !tail[i].Run? && !tail[i].SafeRun?;
    NoCommandsIssued(tail);
    CommandsAppend([Run(BOOTCTL_INSTALL)], tail);
    ExecuteNoRuns(tail, failing);
  }
}
