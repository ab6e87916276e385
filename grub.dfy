/** `Grub.install`: the GRUB command sequence. */
module Grub {
  import opened Wrappers
  import opened Trace
  import opened Microcode

  const GRUB_PACKAGES := "arch-chroot /mnt pacman -S --noconfirm grub efibootmgr"
  const GRUB_INSTALL := "arch-chroot /mnt grub-install --target=x86_64-efi --efi-directory=/boot --bootloader-id=GRUB"
  const GRUB_MKCONFIG := "arch-chroot /mnt grub-mkconfig -o /boot/grub/grub.cfg"

  /** The `sed` edit that puts the microcode image on the default kernel command line; the
      f-string's four backslashes become two in the command. */
  function MicrocodeEdit(file: string): string {
    "arch-chroot /mnt sed -i 's/GRUB_CMDLINE_LINUX_DEFAULT=\"/GRUB_CMDLINE_LINUX_DEFAULT=\"initrd=\\\\"
    + file + " /' /etc/default/grub"
  }

  /** The commands of `install(root_partition, kernel, gpu, microcode_file)`; the root
      partition, kernel and GPU are accepted but not used. */
  function GrubCommands(root: string, kernel: string, gpu: string, microcode: Option<string>): seq<string> {
    [GRUB_PACKAGES, GRUB_INSTALL]
    + (if HasMicrocode(microcode) then [MicrocodeEdit(microcode.value)] else [])
    + [GRUB_MKCONFIG]
  }

  function GrubScript(root: string, kernel: string, gpu: string, microcode: Option<string>): seq<Effect> {
    RunAll(GrubCommands(root, kernel, gpu, microcode))
  }

  /** Packages first, then `grub-install`, the `sed` edit only with microcode, and the
      configuration is generated last: 3 commands without microcode and 4 with it. */
  lemma GrubLayout(root: string, kernel: string, gpu: string, microcode: Option<string>)
    ensures var cmds := Commands(GrubScript(root, kernel, gpu, microcode));
      && |cmds| == (if HasMicrocode(microcode) then 4 else 3)
      && cmds[0] == GRUB_PACKAGES && cmds[1] == GRUB_INSTALL
      && cmds[|cmds| - 1] == GRUB_MKCONFIG
      && (HasMicrocode(microcode) ==> cmds[2] == MicrocodeEdit(microcode.value))
  {
    var c := GrubCommands(root, kernel, gpu, microcode);
    CommandsOfRuns(c);
    var mid := if HasMicrocode(microcode) then [MicrocodeEdit(microcode.value)] else [];
    assert c == [GRUB_PACKAGES, GRUB_INSTALL] + mid + [GRUB_MKCONFIG];
  }

  /** The root partition, kernel and GPU do not change what GRUB runs. */
  lemma GrubIgnoresSystem(r1: string, k1: string, g1: string, r2: string, k2: string, g2: string,
                          microcode: Option<string>)
    ensures GrubScript(r1, k1, g1, microcode) == GrubScript(r2, k2, g2, microcode)
  {
  }
}
