/** The installation steps of `Installer._execute_installation` as data: each step's label,
    what it does once the configuration is known, and the run of the whole sequence, which
    stops at the first step that raises. */
module InstallPlan {
  import opened Wrappers
  import opened Trace
  import opened Session
  import opened Disk
  import opened Packages
  import opened Swap
  import opened Locale
  import opened Microcode
  import opened SystemdBoot
  import opened Grub
  import opened Steps

  /** The configuration `_execute_installation` reads: `disk`, `username` (a string or None),
      `userpass` (only read when there is a user), `rootpass`, `kernel`, `gpu`, `wmde`,
      `bootloader`, `use_swap` and `locale`. */
  datatype Settings = Settings(
    disk: string,
    username: Value,
    userpass: string,
    rootpass: string,
    kernel: string,
    gpu: string,
    wmde: string,
    bootloader: string,
    useSwap: bool,
    locale: LocaleConfig)

  /** What the outside world answers during execution: the mount-point query of the disk,
      the contents of `locale.gen`, `/proc/cpuinfo`, each package's `pacstrap`, and the set of
      commands that exit non-zero. */
  datatype Machine = Machine(
    mountQuery: Option<(int, string)>,
    localeGen: Option<string>,
    cpuinfo: Option<string>,
    pacstrap: string -> Proc,
    failing: map<string, ExitStatus>)

  /** The steps of `_execute_installation`, each shown with its own `show_step` label. */
  datatype StepKind =
    | UnmountingDisk
    | PartitioningDisk
    | FormattingPartitions
    | OptimizingMirrors
    | InstallingPackages
    | SettingUpSwap
    | ConfiguringLocale
    | ConfiguringSystem
    | InstallingBootloader
    | SettingPasswords
    | ConfiguringUser

  const UNMOUNT_LABEL := "Unmounting disk..."
  const PARTITION_LABEL := "Partitioning disk..."
  const FORMAT_LABEL := "Formatting and mounting partitions..."
  const MIRROR_LABEL := "Optimizing mirrorlist..."
  const PACKAGES_LABEL := "Installing base packages..."
  const SWAP_LABEL := "Setting up swap file..."
  const LOCALE_LABEL := "Configuring locale..."
  const SYSTEM_LABEL := "Configuring system..."
  const BOOTLOADER_LABEL := "Installing bootloader..."
  const PASSWORDS_LABEL := "Setting passwords..."
  const USER_LABEL := "Configuring user settings..."

  // ---------------------------------------------------------------- _configure_system

  const TIMEZONE_COMMAND := "arch-chroot /mnt ln -sf /usr/share/zoneinfo/Asia/Ho_Chi_Minh /etc/localtime"
  const HWCLOCK_COMMAND := "arch-chroot /mnt hwclock --systohc"
  const NETWORK_COMMAND := "arch-chroot /mnt systemctl enable NetworkManager"
  const GDM_COMMAND := "arch-chroot /mnt systemctl enable gdm"
  const SDDM_COMMAND := "arch-chroot /mnt systemctl enable sddm"

  /** The desktop's display manager service, if it has one. */
  function DisplayManagerCommands(wmde: string): seq<string> {
    if wmde == "gnome" then [GDM_COMMAND] else if wmde == "kde" then [SDDM_COMMAND] else []
  }

  function SystemCommands(wmde: string): seq<string> {
    [TIMEZONE_COMMAND, HWCLOCK_COMMAND, NETWORK_COMMAND] + DisplayManagerCommands(wmde)
  }

  /** The time zone, the hardware clock and NetworkManager come first; then gdm is enabled
      exactly for gnome, sddm exactly for kde, and nothing for any other desktop. */
  lemma SystemLayout(wmde: string)
    ensures var cmds := SystemCommands(wmde);
      && cmds[..3] == [TIMEZONE_COMMAND, HWCLOCK_COMMAND, NETWORK_COMMAND]
      && (|cmds| == 4 <==> wmde == "gnome" || wmde == "kde")
      && (wmde != "gnome" && wmde != "kde" ==> |cmds| == 3)
      && (GDM_COMMAND in cmds[3..] <==> wmde == "gnome")
      && (SDDM_COMMAND in cmds[3..] <==> wmde == "kde")
  {
    var cmds := SystemCommands(wmde);
    assert cmds[3..] == DisplayManagerCommands(wmde);
    assert |GDM_COMMAND| != |SDDM_COMMAND|;
  }

  /** The commands of `_configure_system` one by one. */
  lemma SystemAt(wmde: string)
    ensures var cmds := SystemCommands(wmde);
      && |cmds| == (if wmde == "gnome" || wmde == "kde" then 4 else 3)
      && cmds[0] == TIMEZONE_COMMAND && cmds[1] == HWCLOCK_COMMAND && cmds[2] == NETWORK_COMMAND
      && (wmde == "gnome" ==> cmds[3] == GDM_COMMAND)
      && (wmde == "kde" ==> cmds[3] == SDDM_COMMAND)
  {
  }

  // ---------------------------------------------------------------- _install_bootloader

  /** `add_microcode` followed by the chosen bootloader's `install`: systemd-boot exactly for
      "systemd-boot", GRUB for every other choice. */
  function BootloaderScript(s: Settings, root: string, cpuinfo: Option<string>): seq<Effect> {
    var mc := AddMicrocode(cpuinfo);
    RunAll(mc.commands)
    + (if s.bootloader == "systemd-boot" then SystemdBootScript(root, s.kernel, s.gpu, mc.file)
       else GrubScript(root, s.kernel, s.gpu, mc.file))
  }

  /** The microcode package is installed before the bootloader, and the bootloader gets the
      image it returned; "grub", "None" and anything else but "systemd-boot" mean GRUB. */
  lemma BootloaderChoice(s: Settings, root: string, cpuinfo: Option<string>)
    ensures var mc := AddMicrocode(cpuinfo); var b := BootloaderScript(s, root, cpuinfo);
      && b[..|mc.commands|] == RunAll(mc.commands)
      && (s.bootloader == "systemd-boot" ==> b[|mc.commands|..] == SystemdBootScript(root, s.kernel, s.gpu, mc.file))
      && (s.bootloader != "systemd-boot" ==> b[|mc.commands|..] == GrubScript(root, s.kernel, s.gpu, mc.file))
  {
  }

  // ---------------------------------------------------------------- _set_passwords

  function RootPasswordCommand(rootpass: string): string {
    "arch-chroot /mnt bash -c \"echo 'root:" + rootpass + "' | chpasswd\""
  }

  function UseraddCommand(user: string): string {
    "arch-chroot /mnt useradd -m -G wheel -s /bin/bash " + user
  }

  function UserPasswordCommand(user: string, userpass: string): string {
    "arch-chroot /mnt bash -c \"echo '" + user + ":" + userpass + "' | chpasswd\""
  }

  const SUDOERS_COMMAND := "arch-chroot /mnt bash -c \"echo '%wheel ALL=(ALL:ALL) ALL' >> /etc/sudoers\""

  function PasswordCommands(s: Settings): seq<string> {
    [RootPasswordCommand(s.rootpass)]
    + (if Truthy(s.username) then
         var u := Render(s.username);
         [UseraddCommand(u), UserPasswordCommand(u, s.userpass), SUDOERS_COMMAND]
       else [])
  }

  /** The root password is always set first; with a user name, the account is created, its
      password set and the wheel group given sudo, in that order; without one nothing else. */
  lemma PasswordLayout(s: Settings)
    ensures var cmds := PasswordCommands(s);
      && cmds[0] == RootPasswordCommand(s.rootpass)
      && (!Truthy(s.username) ==> |cmds| == 1)
      && (Truthy(s.username) ==>
        cmds[1..] == [UseraddCommand(Render(s.username)), UserPasswordCommand(Render(s.username), s.userpass), SUDOERS_COMMAND])
  {
  }

  /** The commands of `_set_passwords` one by one. */
  lemma PasswordAt(s: Settings)
    ensures var cmds := PasswordCommands(s);
      && |cmds| == (if Truthy(s.username) then 4 else 1)
      && cmds[0] == RootPasswordCommand(s.rootpass)
      && (Truthy(s.username) ==>
        && cmds[1] == UseraddCommand(Render(s.username))
        && cmds[2] == UserPasswordCommand(Render(s.username), s.userpass)
        && cmds[3] == SUDOERS_COMMAND)
  {
  }

  // ---------------------------------------------------------------- the steps

  /** The partition paths `partition_disk` returns, which formatting and the bootloader use. */
  function EfiPartition(s: Settings): string { PartitionNames(s.disk).0 }
  function RootPartition(s: Settings): string { PartitionNames(s.disk).1 }

  function Label(k: StepKind): string {
    match k
    case UnmountingDisk => UNMOUNT_LABEL
    case PartitioningDisk => PARTITION_LABEL
    case FormattingPartitions => FORMAT_LABEL
    case OptimizingMirrors => MIRROR_LABEL
    case InstallingPackages => PACKAGES_LABEL
    case SettingUpSwap => SWAP_LABEL
    case ConfiguringLocale => LOCALE_LABEL
    case ConfiguringSystem => SYSTEM_LABEL
    case InstallingBootloader => BOOTLOADER_LABEL
    case SettingPasswords => PASSWORDS_LABEL
    case ConfiguringUser => USER_LABEL
  }

  /** What each step does on this machine once the configuration is known. The steps do not
      depend on one another's results, only on the configuration and the machine. */
  datatype Outcomes = Outcomes(
    unmount: StepRun,
    partition: StepRun,
    format: StepRun,
    mirror: StepRun,
    packages: StepRun,
    swap: StepRun,
    locale: StepRun,
    system: StepRun,
    bootloader: StepRun,
    passwords: StepRun,
    user: StepRun)

  function Outcome(s: Settings, m: Machine): Outcomes {
    Outcomes(
      Execute(UnmountScript(s.disk, m.mountQuery), m.failing),
      Execute(PartitionScript(s.disk), m.failing),
      Execute(FormatScript(EfiPartition(s), RootPartition(s)), m.failing),
      Execute(MirrorlistScript(), m.failing),
      InstallSpec(s.kernel, s.gpu, s.wmde, false, m.pacstrap),
      Execute(SwapScript(DEFAULT_SWAP_MB), m.failing),
      SetupLocale(s.locale, m.localeGen, m.failing),
      Execute(RunAll(SystemCommands(s.wmde)), m.failing),
      Execute(BootloaderScript(s, RootPartition(s), m.cpuinfo), m.failing),
      Execute(RunAll(PasswordCommands(s)), m.failing),
      Execute(UserLocaleScript(s.username, s.locale), m.failing))
  }

  function Perform(k: StepKind, o: Outcomes): StepRun {
    match k
    case UnmountingDisk => o.unmount
    case PartitioningDisk => o.partition
    case FormattingPartitions => o.format
    case OptimizingMirrors => o.mirror
    case InstallingPackages => o.packages
    case SettingUpSwap => o.swap
    case ConfiguringLocale => o.locale
    case ConfiguringSystem => o.system
    case InstallingBootloader => o.bootloader
    case SettingPasswords => o.passwords
    case ConfiguringUser => o.user
  }

  /** The order of `_execute_installation`: five steps, swap only with `use_swap`, four more,
      and the user settings only with a user name. */
  function Sequence<T>(useSwap: bool, hasUser: bool, unmount: T, partition: T, format: T, mirror: T,
                       packages: T, swap: T, locale: T, system: T, bootloader: T, passwords: T, user: T): seq<T>
  {
    [unmount, partition, format, mirror, packages]
    + (if useSwap then [swap] else [])
    + [locale, system, bootloader, passwords]
    + (if hasUser then [user] else [])
  }

  /** The steps, in the order `_execute_installation` takes them. */
  function Plan(s: Settings): seq<StepKind> {
    Sequence(s.useSwap, Truthy(s.username), UnmountingDisk, PartitioningDisk, FormattingPartitions,
             OptimizingMirrors, InstallingPackages, SettingUpSwap, ConfiguringLocale, ConfiguringSystem,
             InstallingBootloader, SettingPasswords, ConfiguringUser)
  }

  /** The labels the installer shows when nothing fails. */
  function PlannedLabels(s: Settings): seq<string> {
    Sequence(s.useSwap, Truthy(s.username), UNMOUNT_LABEL, PARTITION_LABEL, FORMAT_LABEL, MIRROR_LABEL,
             PACKAGES_LABEL, SWAP_LABEL, LOCALE_LABEL, SYSTEM_LABEL, BOOTLOADER_LABEL, PASSWORDS_LABEL,
             USER_LABEL)
  }

  /** The steps of the plan with what each does on this machine. */
  function Schedule(kinds: seq<StepKind>, o: Outcomes): (r: seq<Step>)
    ensures |r| == |kinds|
    ensures forall i :: 0 <= i < |kinds| ==> r[i] == Step(Label(kinds[i]), Perform(kinds[i], o))
  {
    seq(|kinds|, i requires 0 <= i < |kinds| => Step(Label(kinds[i]), Perform(kinds[i], o)))
  }

  lemma ScheduleAppend(a: seq<StepKind>, b: seq<StepKind>, o: Outcomes)
    ensures Schedule(a + b, o) == Schedule(a, o) + Schedule(b, o)
  {
  }

  /** The plan's labels are the planned ones, in the same order. */
  lemma PlanLabels(s: Settings, o: Outcomes)
    ensures StepLabels(Schedule(Plan(s), o)) == PlannedLabels(s)
  {
  }

  lemma UnmountQuiet(disk: string, result: Option<(int, string)>)
    ensures Quiet(UnmountScript(disk, result))
  {
    var u := UnmountScript(disk, result);
    var each := UmountEach(MountPoints(result));
    forall i | 0 <= i < |u| ensures !u[i].Announce? {
      if 0 < i <= |each| {
        assert u[i] == each[i - 1];
      }
    }
  }

  lemma BootloaderQuiet(s: Settings, root: string, cpuinfo: Option<string>)
    ensures Quiet(BootloaderScript(s, root, cpuinfo))
  {
    var mc := AddMicrocode(cpuinfo);
    RunAllQuiet(mc.commands);
    if s.bootloader == "systemd-boot" {
      SystemdBootQuiet(root, s.kernel, s.gpu, mc.file);
      QuietAppend(RunAll(mc.commands), SystemdBootScript(root, s.kernel, s.gpu, mc.file));
    } else {
      RunAllQuiet(GrubCommands(root, s.kernel, s.gpu, mc.file));
      QuietAppend(RunAll(mc.commands), GrubScript(root, s.kernel, s.gpu, mc.file));
    }
  }

  lemma PackagesQuiet(s: Settings, m: Machine)
    ensures Quiet(InstallSpec(s.kernel, s.gpu, s.wmde, false, m.pacstrap).effects)
  {
    var pkgs := PackageList(s.kernel, s.gpu, s.wmde);
    InstallIsQuiet(pkgs, 0, false, m.pacstrap);
    var r := InstallFrom(pkgs, 0, false, m.pacstrap);
    assert forall i :: 1 <= i < 1 + |r.effects| ==> ([ShowPackages(pkgs)] + r.effects)[i] == r.effects[i - 1];
  }

  lemma UnmountRunQuiet(s: Settings, m: Machine)
    ensures Quiet(Execute(UnmountScript(s.disk, m.mountQuery), m.failing).effects)
  {
    UnmountQuiet(s.disk, m.mountQuery);
    ExecuteQuiet(UnmountScript(s.disk, m.mountQuery), m.failing);
  }

  lemma LocaleRunQuiet(s: Settings, m: Machine)
    ensures Quiet(SetupLocale(s.locale, m.localeGen, m.failing).effects)
  {
    if m.localeGen.Some? {
      ExecuteQuiet(LocaleScript(s.locale, m.localeGen.value), m.failing);
    }
  }

  lemma BootloaderRunQuiet(s: Settings, m: Machine)
    ensures Quiet(Execute(BootloaderScript(s, RootPartition(s), m.cpuinfo), m.failing).effects)
  {
    BootloaderQuiet(s, RootPartition(s), m.cpuinfo);
    ExecuteQuiet(BootloaderScript(s, RootPartition(s), m.cpuinfo), m.failing);
  }

  lemma PartitionRunQuiet(s: Settings, m: Machine)
    ensures Quiet(Execute(PartitionScript(s.disk), m.failing).effects)
  {
    ExecuteQuiet(PartitionScript(s.disk), m.failing);
  }

  lemma FormatRunQuiet(s: Settings, m: Machine)
    ensures Quiet(Execute(FormatScript(EfiPartition(s), RootPartition(s)), m.failing).effects)
  {
    ExecuteQuiet(FormatScript(EfiPartition(s), RootPartition(s)), m.failing);
  }

  lemma MirrorRunQuiet(m: Machine)
    ensures Quiet(Execute(MirrorlistScript(), m.failing).effects)
  {
    ExecuteQuiet(MirrorlistScript(), m.failing);
  }

  lemma SwapRunQuiet(m: Machine)
    ensures Quiet(Execute(SwapScript(DEFAULT_SWAP_MB), m.failing).effects)
  {
    ExecuteQuiet(SwapScript(DEFAULT_SWAP_MB), m.failing);
  }

  lemma SystemRunQuiet(s: Settings, m: Machine)
    ensures Quiet(Execute(RunAll(SystemCommands(s.wmde)), m.failing).effects)
  {
    RunAllQuiet(SystemCommands(s.wmde));
    ExecuteQuiet(RunAll(SystemCommands(s.wmde)), m.failing);
  }

  lemma PasswordsRunQuiet(s: Settings, m: Machine)
    ensures Quiet(Execute(RunAll(PasswordCommands(s)), m.failing).effects)
  {
    RunAllQuiet(PasswordCommands(s));
    ExecuteQuiet(RunAll(PasswordCommands(s)), m.failing);
  }

  lemma UserRunQuiet(s: Settings, m: Machine)
    ensures Quiet(Execute(UserLocaleScript(s.username, s.locale), m.failing).effects)
  {
    ExecuteQuiet(UserLocaleScript(s.username, s.locale), m.failing);
  }

  /** No step announces a label of its own. */
  predicate QuietOutcomes(o: Outcomes) {
    && Quiet(o.unmount.effects) && Quiet(o.partition.effects) && Quiet(o.format.effects)
    && Quiet(o.mirror.effects) && Quiet(o.packages.effects) && Quiet(o.swap.effects)
    && Quiet(o.locale.effects) && Quiet(o.system.effects) && Quiet(o.bootloader.effects)
    && Quiet(o.passwords.effects) && Quiet(o.user.effects)
  }

  lemma PerformQuiet(k: StepKind, o: Outcomes)
    requires QuietOutcomes(o)
    ensures Quiet(Perform(k, o).effects)
  {
  }

  lemma OutcomeQuiet(s: Settings, m: Machine)
    ensures QuietOutcomes(Outcome(s, m))
  {
    UnmountRunQuiet(s, m);
    PartitionRunQuiet(s, m);
    FormatRunQuiet(s, m);
    MirrorRunQuiet(m);
    PackagesQuiet(s, m);
    SwapRunQuiet(m);
    LocaleRunQuiet(s, m);
    SystemRunQuiet(s, m);
    BootloaderRunQuiet(s, m);
    PasswordsRunQuiet(s, m);
    UserRunQuiet(s, m);
  }

  /** Running the plan shows the planned labels of the steps it starts, in order, and nothing
      else: all of them when no step raises, otherwise up to and including the one that did. */
  lemma PlanAnnounces(s: Settings, o: Outcomes)
    requires QuietOutcomes(o)
    ensures var steps := Schedule(Plan(s), o); var r := RunSteps(steps);
      && Announced(r.effects) == PlannedLabels(s)[..Attempted(steps)]
      && (r.error.None? ==> Announced(r.effects) == PlannedLabels(s))
  {
    var steps := Schedule(Plan(s), o);
    forall i | 0 <= i < |steps| ensures Quiet(steps[i].run.effects) {
      PerformQuiet(Plan(s)[i], o);
    }
    RunStepsAnnounces(steps);
    RunStepsStops(steps);
    PlanLabels(s, o);
  }

  /** Nine steps always run; the swap file is the sixth exactly when `use_swap` is set, and the
      user settings come last exactly when there is a user name. */
  lemma PlanShape(s: Settings)
    ensures var p := Plan(s); var n := 9 + (if s.useSwap then 1 else 0);
      && |p| == n + (if Truthy(s.username) then 1 else 0)
      && p[..5] == [UnmountingDisk, PartitioningDisk, FormattingPartitions, OptimizingMirrors, InstallingPackages]
      && (s.useSwap ==> p[5] == SettingUpSwap)
      && p[n - 4..n] == [ConfiguringLocale, ConfiguringSystem, InstallingBootloader, SettingPasswords]
      && (Truthy(s.username) ==> p[n] == ConfiguringUser)
      && (SettingUpSwap in p <==> s.useSwap)
      && (ConfiguringUser in p <==> Truthy(s.username))
  {
  }

  /** "Setting up swap file..." is shown in a run without failures exactly when `use_swap` is set. */
  lemma SwapAnnouncedIff(s: Settings)
    ensures SWAP_LABEL in PlannedLabels(s) <==> s.useSwap
  {
    assert SWAP_LABEL[8] == 'u';
    assert UNMOUNT_LABEL[8] != 'u' && PARTITION_LABEL[8] != 'u' && FORMAT_LABEL[8] != 'u';
    assert MIRROR_LABEL[8] != 'u' && PACKAGES_LABEL[8] != 'u' && LOCALE_LABEL[8] != 'u';
    assert SYSTEM_LABEL[8] != 'u' && BOOTLOADER_LABEL[8] != 'u' && PASSWORDS_LABEL[8] != 'u';
    assert USER_LABEL[8] != 'u';
  }

  /** "Configuring user settings..." is shown in a run without failures exactly when there is
      a user name. */
  lemma UserAnnouncedIff(s: Settings)
    ensures USER_LABEL in PlannedLabels(s) <==> Truthy(s.username)
  {
    assert USER_LABEL[12] == 'u';
    assert UNMOUNT_LABEL[12] != 'u' && PARTITION_LABEL[12] != 'u' && FORMAT_LABEL[12] != 'u';
    assert MIRROR_LABEL[12] != 'u' && PACKAGES_LABEL[12] != 'u' && LOCALE_LABEL[12] != 'u';
    assert SYSTEM_LABEL[12] != 'u' && BOOTLOADER_LABEL[12] != 'u' && PASSWORDS_LABEL[12] != 'u';
    assert SWAP_LABEL[12] != 'u';
  }

  /** Unmounting, partitioning and formatting, after `prev`. */
  function DiskPhase(o: Outcomes, prev: StepRun): StepRun {
    var r1 := Continue(prev, Step(UNMOUNT_LABEL, o.unmount));
    var r2 := Continue(r1, Step(PARTITION_LABEL, o.partition));
    Continue(r2, Step(FORMAT_LABEL, o.format))
  }

  /** The mirror list, the base packages and, with `use_swap`, the swap file, after `prev`. */
  function BasePhase(s: Settings, o: Outcomes, prev: StepRun): StepRun {
    var r4 := Continue(prev, Step(MIRROR_LABEL, o.mirror));
    var r5 := Continue(r4, Step(PACKAGES_LABEL, o.packages));
    if s.useSwap then Continue(r5, Step(SWAP_LABEL, o.swap)) else r5
  }

  /** The locale, system and bootloader steps, after `prev`. */
  function ConfigPhase(o: Outcomes, prev: StepRun): StepRun {
    var r7 := Continue(prev, Step(LOCALE_LABEL, o.locale));
    var r8 := Continue(r7, Step(SYSTEM_LABEL, o.system));
    Continue(r8, Step(BOOTLOADER_LABEL, o.bootloader))
  }

  /** The passwords and, with a user name, the user's own locale settings, after `prev`. */
  function AccountPhase(s: Settings, o: Outcomes, prev: StepRun): StepRun {
    var r10 := Continue(prev, Step(PASSWORDS_LABEL, o.passwords));
    if Truthy(s.username) then Continue(r10, Step(USER_LABEL, o.user)) else r10
  }

  /** `_execute_installation` as written: each step after the one before it, the swap file only
      with `use_swap`, the user settings only with a user name. */
  function Executed(s: Settings, o: Outcomes): StepRun {
    AccountPhase(s, o, ConfigPhase(o, BasePhase(s, o, DiskPhase(o, StepRun([], None)))))
  }

  function DiskSchedule(o: Outcomes): seq<Step> {
    [Step(UNMOUNT_LABEL, o.unmount), Step(PARTITION_LABEL, o.partition), Step(FORMAT_LABEL, o.format)]
  }

  function BaseSchedule(s: Settings, o: Outcomes): seq<Step> {
    [Step(MIRROR_LABEL, o.mirror), Step(PACKAGES_LABEL, o.packages)]
    + (if s.useSwap then [Step(SWAP_LABEL, o.swap)] else [])
  }

  function ConfigSchedule(o: Outcomes): seq<Step> {
    [Step(LOCALE_LABEL, o.locale), Step(SYSTEM_LABEL, o.system), Step(BOOTLOADER_LABEL, o.bootloader)]
  }

  function AccountSchedule(s: Settings, o: Outcomes): seq<Step> {
    [Step(PASSWORDS_LABEL, o.passwords)] + (if Truthy(s.username) then [Step(USER_LABEL, o.user)] else [])
  }

  lemma DiskPhaseRuns(q: seq<Step>, o: Outcomes)
    ensures RunSteps(q + DiskSchedule(o)) == DiskPhase(o, RunSteps(q))
  {
    var d := DiskSchedule(o);
    RunStepsContinue(q, d[0]);
    RunStepsContinue(q + [d[0]], d[1]);
    RunStepsContinue(q + [d[0]] + [d[1]], d[2]);
    assert q + d == q + [d[0]] + [d[1]] + [d[2]];
  }

  lemma BasePhaseRuns(q: seq<Step>, s: Settings, o: Outcomes)
    ensures RunSteps(q + BaseSchedule(s, o)) == BasePhase(s, o, RunSteps(q))
  {
    var b := BaseSchedule(s, o);
    RunStepsContinue(q, b[0]);
    RunStepsContinue(q + [b[0]], b[1]);
    if s.useSwap {
      RunStepsContinue(q + [b[0]] + [b[1]], b[2]);
      assert q + b == q + [b[0]] + [b[1]] + [b[2]];
    } else {
      assert q + b == q + [b[0]] + [b[1]];
    }
  }

  lemma ConfigPhaseRuns(q: seq<Step>, o: Outcomes)
    ensures RunSteps(q + ConfigSchedule(o)) == ConfigPhase(o, RunSteps(q))
  {
    var c := ConfigSchedule(o);
    RunStepsContinue(q, c[0]);
    RunStepsContinue(q + [c[0]], c[1]);
    RunStepsContinue(q + [c[0]] + [c[1]], c[2]);
    assert q + c == q + [c[0]] + [c[1]] + [c[2]];
  }

  lemma AccountPhaseRuns(q: seq<Step>, s: Settings, o: Outcomes)
    ensures RunSteps(q + AccountSchedule(s, o)) == AccountPhase(s, o, RunSteps(q))
  {
    var u := AccountSchedule(s, o);
    RunStepsContinue(q, u[0]);
    if Truthy(s.username) {
      RunStepsContinue(q + [u[0]], u[1]);
      assert q + u == q + [u[0]] + [u[1]];
    } else {
      assert q + u == q + [u[0]];
    }
  }

  /** The plan's steps fall into the three phases. */
  lemma PlanSchedule(s: Settings, o: Outcomes)
    ensures Schedule(Plan(s), o) == DiskSchedule(o) + BaseSchedule(s, o) + ConfigSchedule(o) + AccountSchedule(s, o)
  {
    var disk := [UnmountingDisk, PartitioningDisk, FormattingPartitions];
    var base := [OptimizingMirrors, InstallingPackages] + (if s.useSwap then [SettingUpSwap] else []);
    var config := [ConfiguringLocale, ConfiguringSystem, InstallingBootloader];
    var account := [SettingPasswords] + (if Truthy(s.username) then [ConfiguringUser] else []);
    assert Plan(s) == disk + base + config + account;
    ScheduleAppend(disk + base + config, account, o);
    ScheduleAppend(disk + base, config, o);
    ScheduleAppend(disk, base, o);
    assert Schedule(disk, o) == DiskSchedule(o);
    assert Schedule(base, o) == BaseSchedule(s, o);
    assert Schedule(config, o) == ConfigSchedule(o);
    assert Schedule(account, o) == AccountSchedule(s, o);
  }

  /** The straight-line steps are the plan run step by step: the same labels and effects, and
      the same first error. */
  lemma ExecutedIsPlan(s: Settings, o: Outcomes)
    ensures Executed(s, o) == RunSteps(Schedule(Plan(s), o))
  {
    var d := DiskSchedule(o);
    var b := BaseSchedule(s, o);
    var c := ConfigSchedule(o);
    PlanSchedule(s, o);
    DiskPhaseRuns([], o);
    assert [] + d == d;
    BasePhaseRuns(d, s, o);
    ConfigPhaseRuns(d + b, o);
    AccountPhaseRuns(d + b + c, s, o);
  }
}
