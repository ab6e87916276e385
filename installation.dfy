/** `Installer`: the pre-installation check, the configuration dialog, the confirmation, the
    installation steps and the reboot prompt, run under `run`'s `except Exception` handler. */
module Installation {
  import opened Wrappers
  import opened Text
  import opened Trace
  import opened Session
  import opened Ui
  import opened Disk
  import opened Packages
  import opened Swap
  import opened Locale
  import opened Steps
  import opened InstallPlan

  const NO_UEFI_MESSAGE := "System does not support UEFI! UEFI only supported."
  const UEFI_EXIT := "UEFI not supported"
  const NO_DISKS_EXIT := "No disks found!"
  const CANCELLED_EXIT := "Installation cancelled"
  const DECLINED_EXIT := "Installation cancelled by user"
  const SUCCESS_MESSAGE := "Installation completed successfully!"
  const REBOOT_COMMAND := "reboot"
  const LOCALE_LIST_COMMAND := "locale -a"

  const YES_NO := ["Yes", "No"]
  const KERNELS := ["linux", "linux-lts", "linux-zen", "None"]
  const GPUS := ["intel", "amd", "nvidia", "None"]
  const DESKTOPS := ["hyprland", "bspwm", "gnome", "kde", "None"]
  const BOOTLOADERS := ["systemd-boot", "grub", "None"]

  // The entries `_gather_configuration` and `_execute_installation` write themselves; the
  // prompts also store each answer under their own capitalised key.
  const DISK_KEY := "disk"
  const USERNAME_KEY := "username"
  const USERPASS_KEY := "userpass"
  const ROOTPASS_KEY := "rootpass"
  const KERNEL_KEY := "kernel"
  const GPU_KEY := "gpu"
  const WMDE_KEY := "wmde"
  const BOOTLOADER_KEY := "bootloader"
  const USE_SWAP_KEY := "use_swap"
  const LOCALE_KEY := "locale"
  const EFI_KEY := "efi_partition"
  const ROOT_KEY := "root_partition"

  /** The entries each part of the dialog may write. */
  const ACCOUNT_KEYS := {"User?", "Username", USERNAME_KEY, "Password", USERPASS_KEY}
  const ROOT_KEYS := {"Root Password", ROOTPASS_KEY}
  const SYSTEM_KEYS := {"Kernel", KERNEL_KEY, "GPU", GPU_KEY, "WM/DE", WMDE_KEY, "Bootloader", BOOTLOADER_KEY}
  const SWAP_KEYS := {"Swap file", USE_SWAP_KEY}
  const LOCALE_KEYS := {"Configure locale?", "Main locale", "LANG", "LC_TIME", "LC_NUMERIC", "LC_MONETARY", LOCALE_KEY}

  /** What the outside world answers: whether `/sys/firmware/efi` exists, the output of
      `lsblk` (or the non-zero status it exits with), the output of `locale -a` (`None` when running
      it raises), and what the installation steps meet. */
  datatype World = World(efi: bool, lsblk: Captured, localeList: Option<string>, machine: Machine)

  /** How `Installer.run` ends: the installation completed (and the reboot was started or
      skipped); a `SystemExit` with its message, which `except Exception` does not catch; an
      exception shown with `show_error` and raised again; or a `getch` that never returns
      because no key is left. */
  datatype Ending = Completed(rebooted: bool) | Exited(reason: string) | Raised(error: Error) | Blocked

  /** An ending, what was done on the way, and the keys left unread. */
  datatype Transcript = Transcript(ending: Ending, effects: seq<Effect>, rest: seq<int>)

  /** What leaves a stage early: a `SystemExit`, an exception, or a `getch` with no key left. */
  datatype Interrupt = SystemExit(reason: string) | Exception(error: Error) | Stalled

  datatype Flow<T> = Go(value: T) | Halt(cause: Interrupt)

  /** One stage of `run`: what it did, how it ended, and the keys left. */
  datatype Stage<T> = Stage(effects: seq<Effect>, flow: Flow<T>, rest: seq<int>)

  function Tail(keys: seq<int>): seq<int> {
    if keys == [] then [] else keys[1..]
  }

  function FailureMessage(e: Error): string {
    "Installation failed: " + ErrorText(e)
  }

  /** A prompt left unanswered: ESC raised `SystemExit("Installation cancelled")`, or the keys ran out. */
  function Unanswered<T, U>(a: Answer<T>): (f: Flow<U>)
    requires !a.Given?
    ensures f == Halt(Stalled) || f == Halt(SystemExit(CANCELLED_EXIT))
  {
    if a.Cancelled? then Halt(SystemExit(CANCELLED_EXIT)) else Halt(Stalled)
  }

  function Proceed<T>(a: Answer<T>): Flow<T> {
    if a.Given? then Go(a.value) else Unanswered(a)
  }

  /** The handler of `run`: a `SystemExit` passes through; an exception is shown with
      `show_error`, which waits for a key, and is raised again. */
  function Settle(effects: seq<Effect>, cause: Interrupt, keys: seq<int>): (t: Transcript)
    ensures cause.SystemExit? ==> t == Transcript(Exited(cause.reason), effects, keys)
    ensures cause.Stalled? ==> t == Transcript(Blocked, effects, keys)
    ensures cause.Exception? ==> (&& t.effects == effects + [ShowError(FailureMessage(cause.error))]
                                  && t.ending == (if keys == [] then Blocked else Raised(cause.error)))
  {
    match cause
    case SystemExit(reason) => Transcript(Exited(reason), effects, keys)
    case Stalled => Transcript(Blocked, effects, keys)
    case Exception(e) =>
      Transcript(if keys == [] then Blocked else Raised(e), effects + [ShowError(FailureMessage(e))], Tail(keys))
  }

  // ---------------------------------------------------------------- _pre_install_checks

  function PreCheckStage(efi: bool, keys: seq<int>): Stage<()> {
    if efi then Stage([], Go(()), keys)
    else Stage([ShowError(NO_UEFI_MESSAGE)], if keys == [] then Halt(Stalled) else Halt(SystemExit(UEFI_EXIT)), Tail(keys))
  }

  // ---------------------------------------------------------------- _gather_configuration

  /** The user account: "Create user?", then the name and the password only on "Yes". */
  datatype Account = Account(username: Value, userpass: string)

  function AccountReply(keys: seq<int>): Reply<Account> {
    var make := MenuReply(YES_NO, keys);
    if !make.answer.Given? then Reply(Abandon(make.answer), make.rest)
    else if make.answer.value == "Yes" then
      var name := InputReply("", make.rest);
      if !name.answer.Given? then Reply(Abandon(name.answer), name.rest)
      else
        var pass := InputReply("", name.rest);
        if !pass.answer.Given? then Reply(Abandon(pass.answer), pass.rest)
        else Reply(Given(Account(Str(name.answer.value), pass.answer.value)), pass.rest)
    else Reply(Given(Account(NoneValue, "")), make.rest)
  }

  /** The kernel, GPU driver, desktop and bootloader menus, in that order. */
  datatype SystemChoice = SystemChoice(kernel: string, gpu: string, wmde: string, bootloader: string)

  function SystemReply(keys: seq<int>): Reply<SystemChoice> {
    var kernel := MenuReply(KERNELS, keys);
    if !kernel.answer.Given? then Reply(Abandon(kernel.answer), kernel.rest)
    else
      var gpu := MenuReply(GPUS, kernel.rest);
      if !gpu.answer.Given? then Reply(Abandon(gpu.answer), gpu.rest)
      else
        var wmde := MenuReply(DESKTOPS, gpu.rest);
        if !wmde.answer.Given? then Reply(Abandon(wmde.answer), wmde.rest)
        else
          var boot := MenuReply(BOOTLOADERS, wmde.rest);
          if !boot.answer.Given? then Reply(Abandon(boot.answer), boot.rest)
          else Reply(Given(SystemChoice(kernel.answer.value, gpu.answer.value, wmde.answer.value,
                                        boot.answer.value)), boot.rest)
  }

  /** "Create swap file?": `use_swap` is whether the answer is "Yes". */
  function SwapReply(keys: seq<int>): Reply<bool> {
    var choice := MenuReply(YES_NO, keys);
    if !choice.answer.Given? then Reply(Abandon(choice.answer), choice.rest)
    else Reply(Given(choice.answer.value == "Yes"), choice.rest)
  }

  /** "No" to "Create user?" leaves the user name `None` (and no password); "Yes" leads,
      once both fields are answered, to a user name that is a string. */
  lemma AccountChoice(keys: seq<int>)
    ensures var a := AccountReply(keys); var make := MenuReply(YES_NO, keys);
      && (a.answer.Given? ==> (a.answer.value.username == NoneValue <==> make.answer == Given("No")))
      && (make.answer == Given("No") ==> a == Reply(Given(Account(NoneValue, "")), make.rest))
      && (a.answer.Given? && make.answer == Given("Yes") ==> a.answer.value.username.Str?)
  {
  }

  /** `use_swap` is set exactly when the swap menu was answered "Yes". */
  lemma SwapChoice(keys: seq<int>)
    ensures var r := SwapReply(keys); var choice := MenuReply(YES_NO, keys);
      && (r.answer.Given? <==> choice.answer.Given?)
      && (r.answer.Given? ==> (r.answer.value <==> choice.answer == Given("Yes")))
  {
  }

  /** "Configure locale?": the locale dialog on "Yes", the default bundle otherwise. */
  function LocaleReply(localeList: Option<string>, keys: seq<int>): Reply<LocaleConfig> {
    var choice := MenuReply(YES_NO, keys);
    if !choice.answer.Given? then Reply(Abandon(choice.answer), choice.rest)
    else if choice.answer.value == "Yes" then LocaleDialog(AvailableLocales(localeList), choice.rest)
    else Reply(Given(DefaultLocaleConfig()), choice.rest)
  }

  /** "No" at "Configure locale?" gives the default bundle, "en_US.UTF-8" in every field;
      only "Yes" opens the dialog. */
  lemma LocaleDeclined(localeList: Option<string>, keys: seq<int>)
    ensures var choice := MenuReply(YES_NO, keys); var r := LocaleReply(localeList, keys);
      && (choice.answer == Given("No") ==>
            r == Reply(Given(LocaleConfig(DEFAULT_LOCALE, DEFAULT_LOCALE, DEFAULT_LOCALE, DEFAULT_LOCALE, DEFAULT_LOCALE)),
                       choice.rest))
      && (choice.answer == Given("Yes") ==> r == LocaleDialog(AvailableLocales(localeList), choice.rest))
  {
  }

  /** Whether the locale dialog runs, and so `locale -a` with it. */
  predicate AsksLocale(keys: seq<int>) {
    MenuReply(YES_NO, keys).answer == Given("Yes")
  }

  /** Every option of the disk menu has a first whitespace-separated token. */
  predicate Splittable(disks: seq<string>) {
    forall i :: 0 <= i < |disks| ==> SplitWs(disks[i]) != []
  }

  /** `label.split()[0]`. */
  function Device(option: string): string
    requires SplitWs(option) != []
  {
    SplitWs(option)[0]
  }

  /** The answers of the dialog, whether it ran `locale -a`, and the keys left. */
  datatype Gathered = Gathered(answer: Answer<Settings>, asked: bool, rest: seq<int>)

  function GatherReply(disks: seq<string>, localeList: Option<string>, keys: seq<int>): Gathered
    requires |disks| > 0 && Splittable(disks)
  {
    var disk := MenuReply(disks, keys);
    if !disk.answer.Given? then Gathered(Abandon(disk.answer), false, disk.rest)
    else AnswersReply(Device(disk.answer.value), localeList, disk.rest)
  }

  /** The dialog once the disk is chosen: the account, the root password, then the rest. */
  function AnswersReply(disk: string, localeList: Option<string>, keys: seq<int>): Gathered {
    var account := AccountReply(keys);
    if !account.answer.Given? then Gathered(Abandon(account.answer), false, account.rest)
    else
      var root := InputReply("", account.rest);
      if !root.answer.Given? then Gathered(Abandon(root.answer), false, root.rest)
      else MachineReply(disk, account.answer.value, root.answer.value, localeList, root.rest)
  }

  /** The dialog once the root password is given: the system menus, swap and locale. */
  function MachineReply(disk: string, a: Account, rootpass: string, localeList: Option<string>,
                        keys: seq<int>): Gathered
  {
    var system := SystemReply(keys);
    if !system.answer.Given? then Gathered(Abandon(system.answer), false, system.rest)
    else
      var swap := SwapReply(system.rest);
      if !swap.answer.Given? then Gathered(Abandon(swap.answer), false, swap.rest)
      else
        var locale := LocaleReply(localeList, swap.rest);
        var asked := AsksLocale(swap.rest);
        if !locale.answer.Given? then Gathered(Abandon(locale.answer), asked, locale.rest)
        else
          var c := system.answer.value;
          Gathered(Given(Settings(disk, a.username, a.userpass, rootpass, c.kernel, c.gpu, c.wmde,
                                  c.bootloader, swap.answer.value, locale.answer.value)),
                   asked, locale.rest)
  }

  /** The menu options `list_disks` builds from the `lsblk` output. */
  function DiskList(out: string): seq<string> {
    Labels(Rows(SplitOn(Strip(out), '\n')))
  }

  /** Every disk label `list_disks` builds has a first token. */
  lemma DisksSplittable(out: string)
    ensures Splittable(DiskList(out))
  {
    DiskDevices(out);
  }

  /** Every disk label `list_disks` builds splits into "/dev/NAME" and the size, so the device
      stored for the chosen disk is a device path. */
  lemma DiskDevices(out: string)
    ensures forall i :: 0 <= i < |DiskList(out)| ==>
      SplitWs(DiskList(out)[i]) != [] && StartsWith(SplitWs(DiskList(out)[i])[0], "/dev/")
  {
    var rows := Rows(SplitOn(Strip(out), '\n'));
    RowsAreFields(SplitOn(Strip(out), '\n'));
    LabelsDevices(rows);
    var disks := DiskList(out);
    forall i | 0 <= i < |disks|
      ensures SplitWs(disks[i]) != [] && StartsWith(SplitWs(disks[i])[0], "/dev/")
    {
      var name, size :| name != [] && NoSpace(name) && disks[i] == DiskLabel(name, size);
      LabelDevice(name, size);
      assert SplitWs(disks[i])[0] == "/dev/" + name;
    }
  }

  /** `_gather_configuration`: `lsblk` (a failure raises), the empty-list exit, then the dialog;
      `locale -a` runs only when the locale dialog is opened. */
  function GatherStage(w: World, keys: seq<int>): Stage<Settings> {
    var listing := [Query(LIST_COMMAND)];
    if w.lsblk.FailedWith? then Stage(listing, Halt(Exception(CommandFailed(LIST_COMMAND, w.lsblk.status))), keys)
    else
      var disks := DiskList(w.lsblk.text);
      if disks == [] then Stage(listing, Halt(SystemExit(NO_DISKS_EXIT)), keys)
      else
        DisksSplittable(w.lsblk.text);
        var g := GatherReply(disks, w.localeList, keys);
        Stage(listing + (if g.asked then [Query(LOCALE_LIST_COMMAND)] else []), Proceed(g.answer), g.rest)
  }

  // ---------------------------------------------------------------- the configuration map

  predicate Stored(v: map<string, Value>, key: string, x: Value) {
    key in v && v[key] == x
  }

  /** Every entry outside `written` is still there with its value. */
  predicate Keeps(v0: map<string, Value>, v1: map<string, Value>, written: set<string>) {
    forall k :: k in v0 && k !in written ==> k in v1 && v1[k] == v0[k]
  }

  /** The configuration map holds these settings under the installer's own keys. */
  predicate Holds(v: map<string, Value>, s: Settings) {
    && Stored(v, DISK_KEY, Str(s.disk))
    && Stored(v, USERNAME_KEY, s.username)
    && (s.username.Str? ==> Stored(v, USERPASS_KEY, Str(s.userpass)))
    && Stored(v, ROOTPASS_KEY, Str(s.rootpass))
    && Stored(v, KERNEL_KEY, Str(s.kernel))
    && Stored(v, GPU_KEY, Str(s.gpu))
    && Stored(v, WMDE_KEY, Str(s.wmde))
    && Stored(v, BOOTLOADER_KEY, Str(s.bootloader))
    && Stored(v, USE_SWAP_KEY, Flag(s.useSwap))
    && Stored(v, LOCALE_KEY, Locale(s.locale))
  }

  /** The settings `_execute_installation` reads back from the configuration map: `userpass`
      only when there is a user name entry, since it is written only then. */
  function Recall(v: map<string, Value>): Option<Settings> {
    if && DISK_KEY in v && v[DISK_KEY].Str?
       && USERNAME_KEY in v
       && (v[USERNAME_KEY].Str? ==> USERPASS_KEY in v && v[USERPASS_KEY].Str?)
       && ROOTPASS_KEY in v && v[ROOTPASS_KEY].Str?
       && KERNEL_KEY in v && v[KERNEL_KEY].Str?
       && GPU_KEY in v && v[GPU_KEY].Str?
       && WMDE_KEY in v && v[WMDE_KEY].Str?
       && BOOTLOADER_KEY in v && v[BOOTLOADER_KEY].Str?
       && USE_SWAP_KEY in v && v[USE_SWAP_KEY].Flag?
       && LOCALE_KEY in v && v[LOCALE_KEY].Locale?
    then
      Some(Settings(v[DISK_KEY].s, v[USERNAME_KEY],
                    if v[USERNAME_KEY].Str? then v[USERPASS_KEY].s else "",
                    v[ROOTPASS_KEY].s, v[KERNEL_KEY].s, v[GPU_KEY].s, v[WMDE_KEY].s,
                    v[BOOTLOADER_KEY].s, v[USE_SWAP_KEY].b, v[LOCALE_KEY].bundle))
    else None
  }

  /** Reading the map back gives exactly the settings it holds (a password is only there with a
      user name entry). */
  lemma RecallHolds(v: map<string, Value>, s: Settings)
    ensures Recall(v) == Some(s) <==> Holds(v, s) && (s.username.Str? || s.userpass == "")
  {
  }

  /** The dialog settles `userpass` to "" when no user is created, so its settings are always
      read back as they were given. */
  lemma {:induction false} GatheredUserpass(disks: seq<string>, localeList: Option<string>, keys: seq<int>)
    requires |disks| > 0 && Splittable(disks)
    ensures var g := GatherReply(disks, localeList, keys);
      g.answer.Given? ==> g.answer.value.username.Str? || g.answer.value.userpass == ""
  {
  }

  lemma DiskKeyApart()
    ensures DISK_KEY !in ACCOUNT_KEYS + ROOT_KEYS + SYSTEM_KEYS + SWAP_KEYS + LOCALE_KEYS
  {
  }

  lemma AccountKeysApart()
    ensures USERNAME_KEY !in ROOT_KEYS + SYSTEM_KEYS + SWAP_KEYS + LOCALE_KEYS
    ensures USERPASS_KEY !in ROOT_KEYS + SYSTEM_KEYS + SWAP_KEYS + LOCALE_KEYS
  {
  }

  lemma SystemKeysApart()
    ensures ROOTPASS_KEY !in SYSTEM_KEYS + SWAP_KEYS + LOCALE_KEYS
    ensures KERNEL_KEY !in SWAP_KEYS + LOCALE_KEYS
    ensures GPU_KEY !in SWAP_KEYS + LOCALE_KEYS
  {
  }

  lemma MenuKeysApart()
    ensures WMDE_KEY !in SWAP_KEYS + LOCALE_KEYS
    ensures BOOTLOADER_KEY !in SWAP_KEYS + LOCALE_KEYS
    ensures USE_SWAP_KEY !in LOCALE_KEYS
  {
  }

  /** What the kernel, GPU, desktop and bootloader menus leave in the map. */
  lemma SystemStored(v0: map<string, Value>, kernel: string, gpu: string, wmde: string, boot: string)
    ensures var v := v0["Kernel" := Str(kernel)][KERNEL_KEY := Str(kernel)]["GPU" := Str(gpu)][GPU_KEY := Str(gpu)]
                       ["WM/DE" := Str(wmde)][WMDE_KEY := Str(wmde)]["Bootloader" := Str(boot)][BOOTLOADER_KEY := Str(boot)];
      && Keeps(v0, v, SYSTEM_KEYS)
      && Stored(v, KERNEL_KEY, Str(kernel)) && Stored(v, GPU_KEY, Str(gpu))
      && Stored(v, WMDE_KEY, Str(wmde)) && Stored(v, BOOTLOADER_KEY, Str(boot))
  {
  }

  /** What the disk, account and root password answers leave in the map. */
  predicate HoldsFirst(v: map<string, Value>, disk: string, a: Account, rootpass: string) {
    && Stored(v, DISK_KEY, Str(disk))
    && Stored(v, USERNAME_KEY, a.username)
    && (a.username.Str? ==> Stored(v, USERPASS_KEY, Str(a.userpass)))
    && Stored(v, ROOTPASS_KEY, Str(rootpass))
  }

  /** The account and root password parts of the dialog write only their own keys, so the
      disk stays stored beside them. */
  lemma FirstHolds(vd: map<string, Value>, va: map<string, Value>, vr: map<string, Value>,
                   disk: string, a: Account, rootpass: string)
    requires Stored(vd, DISK_KEY, Str(disk))
    requires Keeps(vd, va, ACCOUNT_KEYS) && Stored(va, USERNAME_KEY, a.username)
    requires a.username.Str? ==> Stored(va, USERPASS_KEY, Str(a.userpass))
    requires vr == va["Root Password" := Str(rootpass)][ROOTPASS_KEY := Str(rootpass)]
    ensures HoldsFirst(vr, disk, a, rootpass)
  {
    DiskKeyApart();
    AccountKeysApart();
  }

  /** The system, swap and locale parts of the dialog write only their own keys, so the map
      ends up holding all the settings. */
  lemma MachineHolds(v0: map<string, Value>, vs: map<string, Value>, vw: map<string, Value>,
                     vl: map<string, Value>, s: Settings, swapAnswer: string)
    requires HoldsFirst(v0, s.disk, Account(s.username, s.userpass), s.rootpass)
    requires Keeps(v0, vs, SYSTEM_KEYS)
    requires Stored(vs, KERNEL_KEY, Str(s.kernel)) && Stored(vs, GPU_KEY, Str(s.gpu))
    requires Stored(vs, WMDE_KEY, Str(s.wmde)) && Stored(vs, BOOTLOADER_KEY, Str(s.bootloader))
    requires vw == vs["Swap file" := Str(swapAnswer)][USE_SWAP_KEY := Flag(s.useSwap)]
    requires Keeps(vw, vl, LOCALE_KEYS) && Stored(vl, LOCALE_KEY, Locale(s.locale))
    ensures Holds(vl, s)
  {
    DiskKeyApart();
    AccountKeysApart();
    SystemKeysApart();
    MenuKeysApart();
  }

  // ---------------------------------------------------------------- the rest of run

  /** `_confirm_installation`: every key but ESC starts the installation. */
  function ConfirmStage(keys: seq<int>): Stage<()> {
    if keys == [] then Stage([], Halt(Stalled), [])
    else if Confirms(keys[0]) then Stage([], Go(()), keys[1..])
    else Stage([], Halt(SystemExit(DECLINED_EXIT)), keys[1..])
  }

  /** `_execute_installation`: the steps of the plan until the first that raises. */
  function ExecuteStage(s: Settings, o: Outcomes, keys: seq<int>): Stage<()> {
    var r := Executed(s, o);
    Stage(r.effects, if r.error.Some? then Halt(Exception(r.error.value)) else Go(()), keys)
  }

  /** `_post_installation`: the success message, then `run("reboot")` unless ESC is pressed. */
  function PostStage(m: Machine, keys: seq<int>): Stage<bool> {
    var shown := [ShowSuccess(SUCCESS_MESSAGE)];
    if keys == [] then Stage(shown, Halt(Stalled), [])
    else if !Confirms(keys[0]) then Stage(shown, Go(false), keys[1..])
    else if REBOOT_COMMAND in m.failing then
      Stage(shown + [Effect.Run(REBOOT_COMMAND)], Halt(Exception(CommandFailed(REBOOT_COMMAND, m.failing[REBOOT_COMMAND]))), keys[1..])
    else Stage(shown + [Effect.Run(REBOOT_COMMAND)], Go(true), keys[1..])
  }

  /** `Installer.run` on this world, reading these keys, where `outcome` says what the
      installation steps do once the settings are known. */
  function SessionOn(w: World, outcome: Settings -> Outcomes, keys: seq<int>): Transcript {
    var pre := PreCheckStage(w.efi, keys);
    if pre.flow.Halt? then Settle(pre.effects, pre.flow.cause, pre.rest)
    else
      var g := GatherStage(w, pre.rest);
      if g.flow.Halt? then Settle(g.effects, g.flow.cause, g.rest)
      else
        var t := Installed(w.machine, g.flow.value, outcome(g.flow.value), g.rest);
        Transcript(t.ending, g.effects + t.effects, t.rest)
  }

  /** The rest of `run` once the settings are gathered: the confirmation, the installation
      steps and the reboot prompt, with what the steps do on these settings. */
  function Installed(m: Machine, s: Settings, o: Outcomes, keys: seq<int>): Transcript {
    var c := ConfirmStage(keys);
    if c.flow.Halt? then Settle([], c.flow.cause, c.rest)
    else Confirmed(m, s, o, c.rest)
  }

  /** The installation steps and the reboot prompt, once the installation is confirmed. */
  function Confirmed(m: Machine, s: Settings, o: Outcomes, keys: seq<int>): Transcript {
    var x := ExecuteStage(s, o, keys);
    if x.flow.Halt? then Settle(x.effects, x.flow.cause, x.rest)
    else
      var p := PostStage(m, x.rest);
      if p.flow.Halt? then Settle(x.effects + p.effects, p.flow.cause, p.rest)
      else Transcript(Completed(p.flow.value), x.effects + p.effects, p.rest)
  }

  /** `Installer.run` on this world, reading these keys: each step does what its script does on
      the world's machine. */
  function InstallerSession(w: World, keys: seq<int>): Transcript {
    SessionOn(w, s => Outcome(s, w.machine), keys)
  }

  /** A session whose steps do what their scripts do is the installer's session. */
  lemma SessionOnMachine(w: World, outcome: Settings -> Outcomes, keys: seq<int>)
    requires forall s :: outcome(s) == Outcome(s, w.machine)
    ensures SessionOn(w, outcome, keys) == InstallerSession(w, keys)
  {
  }

  /** Without UEFI the error is shown and, once a key is pressed, `SystemExit` ends the run;
      nothing else happens. */
  lemma NoUefiSession(w: World, keys: seq<int>)
    requires !w.efi
    ensures InstallerSession(w, keys)
         == Transcript(if keys == [] then Blocked else Exited(UEFI_EXIT), [ShowError(NO_UEFI_MESSAGE)], Tail(keys))
  {
  }

  /** When `lsblk` lists no disk the run exits with "No disks found!" right after the query,
      reading no key. */
  lemma NoDisksSession(w: World, keys: seq<int>)
    requires w.efi && w.lsblk.Printed? && DiskList(w.lsblk.text) == []
    ensures InstallerSession(w, keys) == Transcript(Exited(NO_DISKS_EXIT), [Query(LIST_COMMAND)], keys)
  {
  }

  /** What the gathering stage does is only queries (`lsblk`, and `locale -a` when asked). */
  lemma GatherQueries(w: World, keys: seq<int>)
    ensures NoCommands(GatherStage(w, keys).effects) && Quiet(GatherStage(w, keys).effects)
  {
    var e := GatherStage(w, keys).effects;
    assert e == [Query(LIST_COMMAND)] || e == [Query(LIST_COMMAND), Query(LOCALE_LIST_COMMAND)];
  }

  /** A run that ends in `SystemExit` (no UEFI, no disks, ESC at a prompt, the installation
      declined) has issued no shell command: every exit comes before the first step. */
  lemma ExitIssuesNoCommands(w: World, outcome: Settings -> Outcomes, keys: seq<int>)
    ensures var t := SessionOn(w, outcome, keys); t.ending.Exited? ==> Commands(t.effects) == []
  {
    var t := SessionOn(w, outcome, keys);
    if t.ending.Exited? {
      var pre := PreCheckStage(w.efi, keys);
      if pre.flow.Go? {
        var g := GatherStage(w, pre.rest);
        GatherQueries(w, pre.rest);
        if g.flow.Go? {
          var s := g.flow.value;
          InstalledExits(w.machine, s, outcome(s), g.rest);
          assert t.effects == g.effects + [];
        }
      }
      NoCommandsIssued(t.effects);
    }
  }

  /** After the settings are gathered, only declining the installation exits, and then
      nothing is done. */
  lemma InstalledExits(m: Machine, s: Settings, o: Outcomes, keys: seq<int>)
    ensures var i := Installed(m, s, o, keys);
      i.ending.Exited? ==> i.ending == Exited(DECLINED_EXIT) && i.effects == []
  {
  }

  /** A run that raises shows the failure message last. */
  lemma RaisedShowsFailure(w: World, outcome: Settings -> Outcomes, keys: seq<int>)
    ensures var t := SessionOn(w, outcome, keys);
      t.ending.Raised? ==> t.effects != [] && t.effects[|t.effects| - 1] == ShowError(FailureMessage(t.ending.error))
  {
    var t := SessionOn(w, outcome, keys);
    var pre := PreCheckStage(w.efi, keys);
    if pre.flow.Halt? {
      assert t == Settle(pre.effects, pre.flow.cause, pre.rest);
    } else {
      var g := GatherStage(w, pre.rest);
      if g.flow.Halt? {
        assert t == Settle(g.effects, g.flow.cause, g.rest);
      } else {
        var s := g.flow.value;
        var i := Installed(w.machine, s, outcome(s), g.rest);
        assert t == Transcript(i.ending, g.effects + i.effects, i.rest);
        InstalledRaises(w.machine, s, outcome(s), g.rest);
        if t.ending.Raised? {
          assert t.effects[|t.effects| - 1] == i.effects[|i.effects| - 1];
        }
      }
    }
  }

  /** After the settings are gathered, a run that raises shows the failure message last. */
  lemma InstalledRaises(m: Machine, s: Settings, o: Outcomes, keys: seq<int>)
    ensures var i := Installed(m, s, o, keys);
      i.ending.Raised? ==> i.effects != [] && i.effects[|i.effects| - 1] == ShowError(FailureMessage(i.ending.error))
  {
  }

  /** A completed run passed the UEFI check without reading a key, gathered settings, and
      then completed the installation on them. */
  lemma SessionCompleted(w: World, outcome: Settings -> Outcomes, keys: seq<int>)
    ensures var t := SessionOn(w, outcome, keys); var g := GatherStage(w, keys);
      t.ending.Completed? ==>
        && g.flow.Go?
        && var i := Installed(w.machine, g.flow.value, outcome(g.flow.value), g.rest);
           i.ending == t.ending && t.effects == g.effects + i.effects
  {
  }

  /** A completed run announced the steps of the plan for the settings gathered, all of them
      and in order, and no other label. */
  lemma CompletedAnnouncesPlan(w: World, keys: seq<int>)
    ensures var t := InstallerSession(w, keys);
      t.ending.Completed? ==>
        && GatherStage(w, keys).flow.Go?
        && Announced(t.effects) == PlannedLabels(GatherStage(w, keys).flow.value)
  {
    var t := InstallerSession(w, keys);
    SessionCompleted(w, s => Outcome(s, w.machine), keys);
    if t.ending.Completed? {
      var g := GatherStage(w, keys);
      var s := g.flow.value;
      var i := Installed(w.machine, s, Outcome(s, w.machine), g.rest);
      OutcomeQuiet(s, w.machine);
      InstalledAnnounces(w.machine, s, Outcome(s, w.machine), g.rest);
      GatherQueries(w, keys);
      QuietAnnouncesNothing(g.effects);
      AnnouncedAppend(g.effects, i.effects);
    }
  }

  /** After the settings are gathered, a completed installation announced every step of the
      plan, in order, and nothing else. */
  lemma InstalledAnnounces(m: Machine, s: Settings, o: Outcomes, keys: seq<int>)
    requires QuietOutcomes(o)
    ensures var i := Installed(m, s, o, keys); i.ending.Completed? ==> Announced(i.effects) == PlannedLabels(s)
  {
    var i := Installed(m, s, o, keys);
    if i.ending.Completed? {
      var c := ConfirmStage(keys);
      var x := ExecuteStage(s, o, c.rest);
      var p := PostStage(m, x.rest);
      assert i.effects == x.effects + p.effects;
      ExecutedIsPlan(s, o);
      PlanAnnounces(s, o);
      assert Quiet(p.effects);
      QuietAnnouncesNothing(p.effects);
      AnnouncedAppend(x.effects, p.effects);
    }
  }

  /** The machine is rebooted only on a key other than ESC at the final prompt, and `reboot`
      is then the last thing done; otherwise the success message is. */
  lemma RebootComesLast(w: World, outcome: Settings -> Outcomes, keys: seq<int>)
    ensures var t := SessionOn(w, outcome, keys);
      && (t.ending == Completed(true) ==> t.effects != [] && t.effects[|t.effects| - 1] == Effect.Run(REBOOT_COMMAND))
      && (t.ending == Completed(false) ==> t.effects != [] && t.effects[|t.effects| - 1] == ShowSuccess(SUCCESS_MESSAGE))
  {
    var t := SessionOn(w, outcome, keys);
    SessionCompleted(w, outcome, keys);
    if t.ending.Completed? {
      var g := GatherStage(w, keys);
      var s := g.flow.value;
      var i := Installed(w.machine, s, outcome(s), g.rest);
      InstalledReboot(w.machine, s, outcome(s), g.rest);
      LastOfAppend(g.effects, i.effects);
    }
  }

  lemma LastOfAppend(a: seq<Effect>, b: seq<Effect>)
    requires b != []
    ensures a + b != [] && (a + b)[|a + b| - 1] == b[|b| - 1]
  {
  }

  /** After the settings are gathered: `reboot` runs last exactly when the installation
      completed and the key at the prompt was not ESC. */
  lemma InstalledReboot(m: Machine, s: Settings, o: Outcomes, keys: seq<int>)
    ensures var i := Installed(m, s, o, keys);
      && (i.ending == Completed(true) ==> i.effects != [] && i.effects[|i.effects| - 1] == Effect.Run(REBOOT_COMMAND))
      && (i.ending == Completed(false) ==> i.effects != [] && i.effects[|i.effects| - 1] == ShowSuccess(SUCCESS_MESSAGE))
  {
    var i := Installed(m, s, o, keys);
    if i.ending.Completed? {
      var c := ConfirmStage(keys);
      var x := ExecuteStage(s, o, c.rest);
      var p := PostStage(m, x.rest);
      assert i.effects == x.effects + p.effects;
      assert p.effects[|p.effects| - 1] == (if i.ending.rebooted then Effect.Run(REBOOT_COMMAND) else ShowSuccess(SUCCESS_MESSAGE));
    }
  }

  /** At the reboot prompt: `reboot` is run exactly when a key was read and it was not ESC; the
      run goes on rebooted exactly when that command also succeeds, and goes on without
      rebooting exactly when the key was ESC. */
  lemma RebootOnlyOnConfirm(m: Machine, keys: seq<int>)
    ensures Effect.Run(REBOOT_COMMAND) in PostStage(m, keys).effects <==> keys != [] && Confirms(keys[0])
    ensures PostStage(m, keys).flow == Go(true) <==> keys != [] && Confirms(keys[0]) && REBOOT_COMMAND !in m.failing
    ensures PostStage(m, keys).flow == Go(false) <==> keys != [] && !Confirms(keys[0])
  {
    var p := PostStage(m, keys);
    if keys == [] || !Confirms(keys[0]) {
      assert p.effects == [ShowSuccess(SUCCESS_MESSAGE)];
    } else {
      assert p.effects == [ShowSuccess(SUCCESS_MESSAGE), Effect.Run(REBOOT_COMMAND)];
    }
  }

  // ---------------------------------------------------------------- the installer object

  class Installer {
    const config: Config
    const ui: CursesUI
    const world: World
    /** What each installation step does on the world's machine, once the settings are known. */
    ghost const outcome: Settings -> Outcomes
    /** Everything the installer has done so far, in order. */
    var trace: seq<Effect>

    ghost predicate Valid()
      reads this, config
    {
      config.Valid()
    }

    /** `outcome` is what the steps' scripts do on the world's machine. */
    ghost predicate Faithful() {
      forall s {:trigger Outcome(s, world.machine)} :: outcome(s) == Outcome(s, world.machine)
    }

    constructor (ui: CursesUI, world: World)
      ensures Valid() && Faithful() && this.ui == ui && this.world == world
      ensures fresh(config) && config.keys == [] && config.values == map[] && trace == []
    {
      this.ui := ui;
      this.world := world;
      outcome := (x: Settings) => Outcome(x, world.machine);
      config := new Config();
      trace := [];
    }

    /** `utils.run`: the command is issued and raises when it exits non-zero. */
    method Shell(cmd: string) returns (error: Option<Error>)
      modifies this
      ensures trace == old(trace) + [Effect.Run(cmd)]
      ensures error == (if cmd in world.machine.failing then Some(CommandFailed(cmd, world.machine.failing[cmd])) else None)
    {
      trace := trace + [Effect.Run(cmd)];
      error := if cmd in world.machine.failing then Some(CommandFailed(cmd, world.machine.failing[cmd])) else None;
    }

    /** A collaborator's straight-line script. */
    method RunScript(script: seq<Effect>) returns (error: Option<Error>)
      modifies this
      ensures var r := Execute(script, world.machine.failing); trace == old(trace) + r.effects && error == r.error
    {
      var r := Execute(script, world.machine.failing);
      trace := trace + r.effects;
      error := r.error;
    }

    /** `show_error`: the message, then the key press it waits for. */
    method ShowErrorScreen(message: string) returns (pressed: bool)
      modifies this, ui
      ensures trace == old(trace) + [ShowError(message)]
      ensures pressed <==> old(ui.keys) != []
      ensures ui.keys == Tail(old(ui.keys))
    {
      trace := trace + [ShowError(message)];
      pressed := ui.AwaitKey();
    }

    method PreInstallChecks() returns (flow: Flow<()>)
      modifies this, ui
      ensures var p := PreCheckStage(world.efi, old(ui.keys));
        trace == old(trace) + p.effects && flow == p.flow && ui.keys == p.rest
    {
      if !world.efi {
        var pressed := ShowErrorScreen(NO_UEFI_MESSAGE);
        return if pressed then Halt(SystemExit(UEFI_EXIT)) else Halt(Stalled);
      }
      return Go(());
    }

    /** `list_disks`: `check_output` of `lsblk`, which raises when it exits non-zero. */
    method QueryDisks() returns (disks: Option<seq<string>>)
      modifies this
      ensures trace == old(trace) + [Query(LIST_COMMAND)]
      ensures disks == (if world.lsblk.FailedWith? then None else Some(DiskList(world.lsblk.text)))
    {
      trace := trace + [Query(LIST_COMMAND)];
      if world.lsblk.FailedWith? {
        return None;
      }
      var labels := ListDisks(world.lsblk.text);
      return Some(labels);
    }

    /** "Create user?", and on "Yes" the user name and the hidden password. */
    method GatherAccount() returns (r: Answer<Account>)
      requires Valid()
      modifies ui, config
      ensures Valid()
      ensures var a := AccountReply(old(ui.keys)); r == a.answer && ui.keys == a.rest
      ensures r.Given? ==> && Keeps(old(config.values), config.values, ACCOUNT_KEYS)
                           && Stored(config.values, USERNAME_KEY, r.value.username)
                           && (r.value.username.Str? ==> Stored(config.values, USERPASS_KEY, Str(r.value.userpass)))
    {
      var make := ui.Menu("Create user?", YES_NO, config, "User?");
      if !make.Given? {
        return Abandon(make);
      }
      if make.value == "Yes" {
        var name := ui.Input("Enter username:", config, "Username", false, "");
        if !name.Given? {
          return Abandon(name);
        }
        config.Set(USERNAME_KEY, Str(name.value));
        var pass := ui.Input("Enter password:", config, "Password", true, "");
        if !pass.Given? {
          return Abandon(pass);
        }
        config.Set(USERPASS_KEY, Str(pass.value));
        return Given(Account(Str(name.value), pass.value));
      }
      config.Set(USERNAME_KEY, NoneValue);
      return Given(Account(NoneValue, ""));
    }

    /** The kernel, GPU, desktop and bootloader menus, each answer stored as it is given. */
    method GatherSystem() returns (r: Answer<SystemChoice>)
      requires Valid()
      modifies ui, config
      ensures Valid()
      ensures var a := SystemReply(old(ui.keys)); r == a.answer && ui.keys == a.rest
      ensures r.Given? ==> && Keeps(old(config.values), config.values, SYSTEM_KEYS)
                           && Stored(config.values, KERNEL_KEY, Str(r.value.kernel))
                           && Stored(config.values, GPU_KEY, Str(r.value.gpu))
                           && Stored(config.values, WMDE_KEY, Str(r.value.wmde))
                           && Stored(config.values, BOOTLOADER_KEY, Str(r.value.bootloader))
    {
      ghost var v0 := config.values;
      var kernel := ui.Menu("Select Kernel", KERNELS, config, "Kernel");
      if !kernel.Given? {
        return Abandon(kernel);
      }
      config.Set(KERNEL_KEY, Str(kernel.value));
      var gpu := ui.Menu("Select GPU Driver", GPUS, config, "GPU");
      if !gpu.Given? {
        return Abandon(gpu);
      }
      config.Set(GPU_KEY, Str(gpu.value));
      var wmde := ui.Menu("Select WM/DE", DESKTOPS, config, "WM/DE");
      if !wmde.Given? {
        return Abandon(wmde);
      }
      config.Set(WMDE_KEY, Str(wmde.value));
      var boot := ui.Menu("Select Bootloader", BOOTLOADERS, config, "Bootloader");
      if !boot.Given? {
        return Abandon(boot);
      }
      config.Set(BOOTLOADER_KEY, Str(boot.value));
      SystemStored(v0, kernel.value, gpu.value, wmde.value, boot.value);
      return Given(SystemChoice(kernel.value, gpu.value, wmde.value, boot.value));
    }

    /** "Configure locale?": `get_locale_config` (which runs `locale -a` first) on "Yes", the
        default bundle otherwise; the bundle is stored under `locale`. */
    method GatherLocale() returns (r: Answer<LocaleConfig>)
      requires Valid()
      modifies this, ui, config
      ensures Valid()
      ensures var a := LocaleReply(world.localeList, old(ui.keys)); r == a.answer && ui.keys == a.rest
      ensures trace == old(trace) + (if AsksLocale(old(ui.keys)) then [Query(LOCALE_LIST_COMMAND)] else [])
      ensures r.Given? ==> && Keeps(old(config.values), config.values, LOCALE_KEYS)
                           && Stored(config.values, LOCALE_KEY, Locale(r.value))
    {
      var choice := ui.Menu("Configure locale?", YES_NO, config, "Configure locale?");
      if !choice.Given? {
        return Abandon(choice);
      }
      var bundle: LocaleConfig;
      if choice.value == "Yes" {
        trace := trace + [Query(LOCALE_LIST_COMMAND)];
        var answer := GetLocaleConfig(ui, config, world.localeList);
        if !answer.Given? {
          return answer;
        }
        bundle := answer.value;
      } else {
        bundle := DefaultLocaleConfig();
      }
      config.Set(LOCALE_KEY, Locale(bundle));
      return Given(bundle);
    }

    /** The disk menu and the rest of the dialog, storing every answer; under the installer's
        own keys the map then holds exactly the settings returned. */
    method GatherConfiguration() returns (flow: Flow<Settings>)
      requires Valid()
      modifies this, ui, config
      ensures Valid()
      ensures var g := GatherStage(world, old(ui.keys));
        trace == old(trace) + g.effects && flow == g.flow && ui.keys == g.rest
      ensures flow.Go? ==> Recall(config.values) == Some(flow.value)
    {
      var listing := QueryDisks();
      if listing.None? {
        return Halt(Exception(CommandFailed(LIST_COMMAND, world.lsblk.status)));
      }
      var disks := listing.value;
      if disks == [] {
        return Halt(SystemExit(NO_DISKS_EXIT));
      }
      DisksSplittable(world.lsblk.text);
      ghost var keys0 := ui.keys;
      ghost var g := GatherReply(disks, world.localeList, keys0);
      assert GatherStage(world, keys0)
          == Stage([Query(LIST_COMMAND)] + (if g.asked then [Query(LOCALE_LIST_COMMAND)] else []),
                   Proceed(g.answer), g.rest);
      var answers := GatherDialog(disks);
      AppendAssoc(old(trace), [Query(LIST_COMMAND)], if g.asked then [Query(LOCALE_LIST_COMMAND)] else []);
      return Proceed(answers);
    }

    /** The dialog, from the disk menu on. */
    method GatherDialog(disks: seq<string>) returns (r: Answer<Settings>)
      requires Valid() && |disks| > 0 && Splittable(disks)
      modifies this, ui, config
      ensures Valid()
      ensures var g := GatherReply(disks, world.localeList, old(ui.keys));
        && r == g.answer && ui.keys == g.rest
        && trace == old(trace) + (if g.asked then [Query(LOCALE_LIST_COMMAND)] else [])
      ensures r.Given? ==> Recall(config.values) == Some(r.value)
    {
      var picked := ui.Menu("Select Disk to install", disks, config, "Disk");
      if !picked.Given? {
        return Abandon(picked);
      }
      config.Set(DISK_KEY, Str(picked.value));
      var disk := Device(picked.value);
      config.Set(DISK_KEY, Str(disk));
      r := GatherAnswers(disk);
      if r.Given? {
        GatheredUserpass(disks, world.localeList, old(ui.keys));
        RecallHolds(config.values, r.value);
      }
    }

    /** The account and root password after the disk, then the rest of the dialog. */
    method GatherAnswers(disk: string) returns (r: Answer<Settings>)
      requires Valid() && Stored(config.values, DISK_KEY, Str(disk))
      modifies this, ui, config
      ensures Valid()
      ensures var g := AnswersReply(disk, world.localeList, old(ui.keys));
        && r == g.answer && ui.keys == g.rest
        && trace == old(trace) + (if g.asked then [Query(LOCALE_LIST_COMMAND)] else [])
      ensures r.Given? ==> Holds(config.values, r.value)
    {
      ghost var vd := config.values;
      var account := GatherAccount();
      if !account.Given? {
        return Abandon(account);
      }
      ghost var va := config.values;
      var root := ui.Input("Enter root password:", config, "Root Password", true, "");
      if !root.Given? {
        return Abandon(root);
      }
      config.Set(ROOTPASS_KEY, Str(root.value));
      FirstHolds(vd, va, config.values, disk, account.value, root.value);
      r := GatherMachine(disk, account.value, root.value);
    }

    /** The system menus, "Create swap file?" and the locale, after the root password. */
    method GatherMachine(disk: string, a: Account, rootpass: string) returns (r: Answer<Settings>)
      requires Valid() && HoldsFirst(config.values, disk, a, rootpass)
      modifies this, ui, config
      ensures Valid()
      ensures var g := MachineReply(disk, a, rootpass, world.localeList, old(ui.keys));
        && r == g.answer && ui.keys == g.rest
        && trace == old(trace) + (if g.asked then [Query(LOCALE_LIST_COMMAND)] else [])
      ensures r.Given? ==> Holds(config.values, r.value)
    {
      ghost var v0 := config.values;
      var system := GatherSystem();
      if !system.Given? {
        return Abandon(system);
      }
      ghost var vs := config.values;
      var swap := ui.Menu("Create swap file?", YES_NO, config, "Swap file");
      if !swap.Given? {
        return Abandon(swap);
      }
      config.Set(USE_SWAP_KEY, Flag(swap.value == "Yes"));
      ghost var vw := config.values;
      var locale := GatherLocale();
      if !locale.Given? {
        return Abandon(locale);
      }
      var c := system.value;
      r := Given(Settings(disk, a.username, a.userpass, rootpass, c.kernel, c.gpu, c.wmde, c.bootloader,
                          swap.value == "Yes", locale.value));
      MachineHolds(v0, vs, vw, config.values, r.value, swap.value);
    }

    method ConfirmInstallation() returns (flow: Flow<()>)
      requires Valid()
      modifies ui
      ensures var c := ConfirmStage(old(ui.keys)); flow == c.flow && ui.keys == c.rest
    {
      var lines, answer := ui.ConfirmInstallation(config);
      if answer.Waiting? {
        return Halt(Stalled);
      }
      if !answer.value {
        return Halt(SystemExit(DECLINED_EXIT));
      }
      return Go(());
    }

    /** The `i`-th `run` of a block whose earlier commands all succeeded. */
    method RunAt(cmd: string, ghost cmds: seq<string>, ghost i: nat, ghost t0: seq<Effect>) returns (error: Option<Error>)
      requires i < |cmds| && cmds[i] == cmd
      requires Execute(RunAll(cmds[..i]), world.machine.failing) == StepRun(RunAll(cmds[..i]), None)
      requires trace == t0 + RunAll(cmds[..i])
      modifies this
      ensures trace == t0 + RunAll(cmds[..i + 1])
      ensures error.Some? ==> Execute(RunAll(cmds), world.machine.failing) == StepRun(RunAll(cmds[..i + 1]), error)
      ensures error.None? ==> Execute(RunAll(cmds[..i + 1]), world.machine.failing) == StepRun(RunAll(cmds[..i + 1]), None)
    {
      error := Shell(cmd);
      RunAllAt(cmds, i, world.machine.failing);
    }

    /** `_configure_system`. */
    method ConfigureSystem(wmde: string) returns (error: Option<Error>)
      modifies this
      ensures var r := Execute(RunAll(SystemCommands(wmde)), world.machine.failing);
        trace == old(trace) + r.effects && error == r.error
    {
      ghost var t0 := trace;
      ghost var cmds := SystemCommands(wmde);
      SystemAt(wmde);
      assert cmds[..0] == [];
      error := RunAt(TIMEZONE_COMMAND, cmds, 0, t0);
      if error.Some? {
        return;
      }
      error := RunAt(HWCLOCK_COMMAND, cmds, 1, t0);
      if error.Some? {
        return;
      }
      error := RunAt(NETWORK_COMMAND, cmds, 2, t0);
      if error.Some? {
        return;
      }
      if wmde == "gnome" {
        error := RunAt(GDM_COMMAND, cmds, 3, t0);
      } else if wmde == "kde" {
        error := RunAt(SDDM_COMMAND, cmds, 3, t0);
      }
      assert cmds[..|cmds|] == cmds;
    }

    /** `_set_passwords`. */
    method SetPasswords(s: Settings) returns (error: Option<Error>)
      modifies this
      ensures var r := Execute(RunAll(PasswordCommands(s)), world.machine.failing);
        trace == old(trace) + r.effects && error == r.error
    {
      ghost var t0 := trace;
      ghost var cmds := PasswordCommands(s);
      PasswordAt(s);
      assert cmds[..0] == [];
      error := RunAt(RootPasswordCommand(s.rootpass), cmds, 0, t0);
      if error.Some? {
        return;
      }
      if Truthy(s.username) {
        var user := Render(s.username);
        error := RunAt(UseraddCommand(user), cmds, 1, t0);
        if error.Some? {
          return;
        }
        error := RunAt(UserPasswordCommand(user, s.userpass), cmds, 2, t0);
        if error.Some? {
          return;
        }
        error := RunAt(SUDOERS_COMMAND, cmds, 3, t0);
      }
      assert cmds[..|cmds|] == cmds;
    }

    /** `show_step`. */
    method ShowStep(step: string)
      modifies this
      ensures trace == old(trace) + [Announce(step)]
    {
      trace := trace + [Announce(step)];
    }

    /** `_install_bootloader`: the microcode package, then systemd-boot or GRUB. */
    method InstallBootloader(s: Settings) returns (error: Option<Error>)
      modifies this
      ensures var r := Execute(BootloaderScript(s, RootPartition(s), world.machine.cpuinfo), world.machine.failing);
        trace == old(trace) + r.effects && error == r.error
    {
      error := RunScript(BootloaderScript(s, RootPartition(s), world.machine.cpuinfo));
    }

    /** The call a step's label announces, with the partition paths stored in the configuration
        once partitioning has succeeded. */
    method RunStep(k: StepKind, s: Settings) returns (error: Option<Error>)
      requires Valid() && Faithful()
      modifies this, config
      ensures Valid()
      ensures trace == old(trace) + InstallPlan.Perform(k, outcome(s)).effects
      ensures error == InstallPlan.Perform(k, outcome(s)).error
      ensures if k == PartitioningDisk && error.None?
              then config.values == old(config.values)[EFI_KEY := Str(EfiPartition(s))][ROOT_KEY := Str(RootPartition(s))]
              else config.values == old(config.values)
    {
      var m := world.machine;
      assert outcome(s) == Outcome(s, m);
      match k
      case UnmountingDisk =>
        var script := UnmountDisk(s.disk, m.mountQuery);
        error := RunScript(script);
      case PartitioningDisk =>
        error := RunScript(PartitionScript(s.disk));
        if error.None? {
          var (efi, root) := PartitionNames(s.disk);
          config.Set(EFI_KEY, Str(efi));
          config.Set(ROOT_KEY, Str(root));
        }
      case FormattingPartitions =>
        error := RunScript(FormatScript(EfiPartition(s), RootPartition(s)));
      case OptimizingMirrors =>
        error := RunScript(MirrorlistScript());
      case InstallingPackages =>
        var effects, failure := InstallBasePackages(s.kernel, s.gpu, s.wmde, false, m.pacstrap);
        trace := trace + effects;
        error := failure;
      case SettingUpSwap =>
        error := RunScript(SwapScript(DEFAULT_SWAP_MB));
      case ConfiguringLocale =>
        var r := SetupLocaleRun(s.locale, m.localeGen, m.failing);
        trace := trace + r.effects;
        error := r.error;
      case ConfiguringSystem =>
        error := ConfigureSystem(s.wmde);
      case InstallingBootloader =>
        error := InstallBootloader(s);
      case SettingPasswords =>
        error := SetPasswords(s);
      case ConfiguringUser =>
        error := RunScript(UserLocaleScript(s.username, s.locale));
    }

    /** `show_step`, then the step, after steps that have not raised. */
    method Advance(k: StepKind, s: Settings, ghost prev: StepRun, ghost t0: seq<Effect>) returns (error: Option<Error>)
      requires Valid() && Faithful() && prev.error.None? && trace == t0 + prev.effects
      modifies this, config
      ensures Valid()
      ensures var r := Continue(prev, Step(Label(k), InstallPlan.Perform(k, outcome(s))));
        trace == t0 + r.effects && error == r.error
      ensures if k == PartitioningDisk && error.None?
              then config.values == old(config.values)[EFI_KEY := Str(EfiPartition(s))][ROOT_KEY := Str(RootPartition(s))]
              else config.values == old(config.values)
    {
      ShowStep(Label(k));
      error := RunStep(k, s);
      ContinueTrace(t0, prev, Step(Label(k), InstallPlan.Perform(k, outcome(s))), trace);
    }

    /** The unmounting, partitioning and formatting steps of `_execute_installation`. */
    method DiskSteps(s: Settings) returns (error: Option<Error>)
      requires Valid() && Faithful()
      modifies this, config
      ensures Valid()
      ensures var r := DiskPhase(outcome(s), StepRun([], None)); trace == old(trace) + r.effects && error == r.error
      ensures config.values == if outcome(s).unmount.error.None? && outcome(s).partition.error.None?
                               then old(config.values)[EFI_KEY := Str(EfiPartition(s))][ROOT_KEY := Str(RootPartition(s))]
                               else old(config.values)
    {
      ghost var o := outcome(s);
      ghost var t0 := trace;
      ghost var r := StepRun([], None);
      assert trace == t0 + r.effects;
      error := Advance(UnmountingDisk, s, r, t0);
      r := Continue(r, Step(UNMOUNT_LABEL, o.unmount));
      if error.Some? { return; }
      error := Advance(PartitioningDisk, s, r, t0);
      r := Continue(r, Step(PARTITION_LABEL, o.partition));
      if error.Some? { return; }
      error := Advance(FormattingPartitions, s, r, t0);
    }

    /** The mirror list, base package and swap file steps, after steps that have not raised. */
    method BaseSteps(s: Settings, ghost prev: StepRun, ghost t0: seq<Effect>) returns (error: Option<Error>)
      requires Valid() && Faithful() && prev.error.None? && trace == t0 + prev.effects
      modifies this, config
      ensures Valid() && config.values == old(config.values)
      ensures var r := BasePhase(s, outcome(s), prev); trace == t0 + r.effects && error == r.error
    {
      ghost var o := outcome(s);
      ghost var r := prev;
      error := Advance(OptimizingMirrors, s, r, t0);
      r := Continue(r, Step(MIRROR_LABEL, o.mirror));
      if error.Some? { return; }
      error := Advance(InstallingPackages, s, r, t0);
      r := Continue(r, Step(PACKAGES_LABEL, o.packages));
      if error.Some? { return; }
      if s.useSwap {
        error := Advance(SettingUpSwap, s, r, t0);
      }
    }

    /** The locale, system and bootloader steps, after steps that have not raised. */
    method ConfigSteps(s: Settings, ghost prev: StepRun, ghost t0: seq<Effect>) returns (error: Option<Error>)
      requires Valid() && Faithful() && prev.error.None? && trace == t0 + prev.effects
      modifies this, config
      ensures Valid() && config.values == old(config.values)
      ensures var r := ConfigPhase(outcome(s), prev); trace == t0 + r.effects && error == r.error
    {
      ghost var o := outcome(s);
      ghost var r := prev;
      error := Advance(ConfiguringLocale, s, r, t0);
      r := Continue(r, Step(LOCALE_LABEL, o.locale));
      if error.Some? { return; }
      error := Advance(ConfiguringSystem, s, r, t0);
      r := Continue(r, Step(SYSTEM_LABEL, o.system));
      if error.Some? { return; }
      error := Advance(InstallingBootloader, s, r, t0);
    }

    /** The password and user steps, after steps that have not raised. */
    method AccountSteps(s: Settings, ghost prev: StepRun, ghost t0: seq<Effect>) returns (error: Option<Error>)
      requires Valid() && Faithful() && prev.error.None? && trace == t0 + prev.effects
      modifies this, config
      ensures Valid() && config.values == old(config.values)
      ensures var r := AccountPhase(s, outcome(s), prev); trace == t0 + r.effects && error == r.error
    {
      ghost var o := outcome(s);
      error := Advance(SettingPasswords, s, prev, t0);
      ghost var r := Continue(prev, Step(PASSWORDS_LABEL, o.passwords));
      if error.Some? { return; }
      if Truthy(s.username) {
        error := Advance(ConfiguringUser, s, r, t0);
      }
    }

    /** `_execute_installation`, on the settings the configuration map holds: every step shown
        and run in order until one raises; the partition paths are stored once partitioning
        has succeeded. */
    method ExecuteInstallation(s: Settings) returns (error: Option<Error>)
      requires Valid() && Faithful() && Recall(config.values) == Some(s)
      modifies this, config
      ensures Valid()
      ensures var r := Executed(s, outcome(s)); trace == old(trace) + r.effects && error == r.error
      ensures config.values == if outcome(s).unmount.error.None? && outcome(s).partition.error.None?
                               then old(config.values)[EFI_KEY := Str(EfiPartition(s))][ROOT_KEY := Str(RootPartition(s))]
                               else old(config.values)
    {
      ghost var o := outcome(s);
      ghost var t0 := trace;
      error := DiskSteps(s);
      ghost var r := DiskPhase(o, StepRun([], None));
      if error.Some? { return; }
      error := BaseSteps(s, r, t0);
      r := BasePhase(s, o, r);
      if error.Some? { return; }
      error := ConfigSteps(s, r, t0);
      r := ConfigPhase(o, r);
      if error.Some? { return; }
      error := AccountSteps(s, r, t0);
    }

    method PostInstallation() returns (flow: Flow<bool>)
      modifies this, ui
      ensures var p := PostStage(world.machine, old(ui.keys));
        trace == old(trace) + p.effects && flow == p.flow && ui.keys == p.rest
    {
      trace := trace + [ShowSuccess(SUCCESS_MESSAGE)];
      var reboot := ui.Confirm();
      if reboot.Waiting? {
        return Halt(Stalled);
      }
      if !reboot.value {
        return Go(false);
      }
      var error := Shell(REBOOT_COMMAND);
      if error.Some? {
        return Halt(Exception(error.value));
      }
      return Go(true);
    }

    /** `run`'s `except Exception` handler. */
    method Handle(cause: Interrupt) returns (ending: Ending)
      modifies this, ui
      ensures var t := Settle([], cause, old(ui.keys));
        ending == t.ending && trace == old(trace) + t.effects && ui.keys == t.rest
    {
      match cause
      case SystemExit(reason) =>
        ending := Exited(reason);
      case Stalled =>
        ending := Blocked;
      case Exception(e) =>
        var pressed := ShowErrorScreen(FailureMessage(e));
        ending := if pressed then Raised(e) else Blocked;
    }

    /** The confirmation, `_execute_installation` and `_post_installation`, as `run` calls
        them once the configuration is gathered, any exception shown and raised again. */
    method Install(s: Settings) returns (ending: Ending)
      requires Valid() && Faithful() && Recall(config.values) == Some(s)
      modifies this, ui, config
      ensures var t := Installed(world.machine, s, outcome(s), old(ui.keys));
        ending == t.ending && trace == old(trace) + t.effects && ui.keys == t.rest
    {
      var confirmed := ConfirmInstallation();
      if confirmed.Halt? {
        ending := Handle(confirmed.cause);
        return;
      }
      ending := InstallConfirmed(s);
    }

    /** `_execute_installation` then `_post_installation`, any exception shown. */
    method InstallConfirmed(s: Settings) returns (ending: Ending)
      requires Valid() && Faithful() && Recall(config.values) == Some(s)
      modifies this, ui, config
      ensures var t := Confirmed(world.machine, s, outcome(s), old(ui.keys));
        ending == t.ending && trace == old(trace) + t.effects && ui.keys == t.rest
    {
      ghost var x := ExecuteStage(s, outcome(s), ui.keys);
      var failure := ExecuteInstallation(s);
      if failure.Some? {
        ending := Handle(Exception(failure.value));
        AppendAssoc(old(trace), x.effects, [ShowError(FailureMessage(failure.value))]);
        return;
      }
      ghost var p := PostStage(world.machine, ui.keys);
      var post := PostInstallation();
      AppendAssoc(old(trace), x.effects, p.effects);
      if post.Halt? {
        ending := Handle(post.cause);
        if post.cause.Exception? {
          AppendAssoc(old(trace), x.effects + p.effects, [ShowError(FailureMessage(post.cause.error))]);
        }
        return;
      }
      ending := Completed(post.value);
    }

    /** `run`: the five stages in order, any exception shown and raised again. */
    method Run() returns (ending: Ending)
      requires Valid() && Faithful()
      modifies this, ui, config
      ensures var t := SessionOn(world, outcome, old(ui.keys));
        ending == t.ending && trace == old(trace) + t.effects && ui.keys == t.rest
    {
      var pre := PreInstallChecks();
      if pre.Halt? {
        ending := Handle(pre.cause);
        return;
      }
      assert trace == old(trace);
      ghost var g := GatherStage(world, ui.keys);
      var gathered := GatherConfiguration();
      if gathered.Halt? {
        ending := Handle(gathered.cause);
        return;
      }
      ghost var t := Installed(world.machine, gathered.value, outcome(gathered.value), ui.keys);
      ending := Install(gathered.value);
      AppendAssoc(old(trace), g.effects, t.effects);
    }
  }
}
