# arch-installer, modelled in Dafny

This project models the core of `arch_installer`, a curses-driven Arch Linux installer, and
proves properties of that model. The core is `Installer.run` and the collaborators it drives:

- the pre-installation UEFI check;
- the configuration dialog, built from `CursesUI.menu` and `CursesUI.input`, which fills
  the `config` dictionary;
- the confirmation screen;
- the fixed sequence of installation steps, each announced with `show_step`: unmount,
  partition, format and mount, the mirror list, the base packages, the optional swap file,
  the locale, the system basics, the bootloader, the passwords and the optional user settings;
- the reboot prompt.

The collaborators modelled are `DiskManager`, `PackageManager`, `LocaleManager`,
`MicrocodeManager`, `SwapManager`, `SystemdBoot`, `Grub` and `Spinner`.

Everything observable is recorded in one trace of `Trace.Effect` values:
- each shell command, split by kind: `utils.run` raises when the command exits non-zero, `utils.safe_run` never raises, and a query's output is read back;
- each started `pacstrap` process;
- each file written and each directory created;
- each screen event: step labels, package status and progress, errors and the success
  message.

The outside world is a parameter. It is given as:
- whether `/sys/firmware/efi` exists;
- the output of `lsblk`, `locale -a`, the mount-point query and `mount`;
- the contents of `/proc/cpuinfo` and `/etc/locale.gen`;
- each package's `pacstrap` output lines and exit code;
- the commands that exit non-zero, each with its exit status;
- the finite sequence of keys that `getch` returns.

Modules:
- `Trace`: the effects and `Execute`, which runs a script up to the first failing `run`.
- `Text`: models of Python's `strip`, `split`, `replace` and `in`.
- `Session`: the configuration dictionary as a class, keeping key order and values.
- `Ui`: the `CursesUI` class. Its menu and editor loops consume keys. They are specified by
  one-key step functions, `MenuStep` and `EditStep`.
- `Disk`, `Packages`, `Locale`, `Microcode`, `Swap`, `SystemdBoot`, `Grub` and `Progress`:
  one module per source file.
- `Steps`: runs labelled steps until the first one raises.
- `InstallPlan`: the steps of `_execute_installation` as data, and their run on a machine.
- `Installation`: the `Installer` class. Its methods are proved against `SessionOn`, a
  function that gives the whole run as a transcript: the ending, the effects, and the keys
  left unread.

A run ends in one of four ways:
- `Completed`, with or without reboot;
- `Exited`, a `SystemExit`. The `except Exception` handler of `run` does not catch it.
- `Raised`: an exception, shown with `show_error` and raised again.
- `Blocked`: `getch` has no key left.

Behaviour of the code worth knowing when reading the model:
- **Menus do not wrap.** UP on the first option and DOWN on the last leave the cursor
  where it is (`Ui.MenuDoesNotWrap`).
- **The first exception ends the installation.** `_execute_installation` has no finalize or
  cleanup step, and no step is treated as non-critical: the first exception leaves it and
  reaches the handler of `run`.
- **Dry-run exists only in `install_base_packages`.** The installer always calls it with
  `dry_run=False`, so the installation steps use real `pacstrap` runs. The dry-run branch is
  modelled and proved on its own.
- **`SystemExit` is not handled.** ESC, "no disks", a declined confirmation and missing UEFI
  all raise `SystemExit`, which leaves `run` without `show_error`.

## Model

| member | source | states |
|---|---|---|
| Trace.ExecuteStopsAtFirstFailure | src/arch_installer/utils.py:7-20 | A script happens as a prefix of itself. It runs whole exactly when no `run` fails. Otherwise it stops right after the first failing `run`, all earlier `run`s succeeded, and the error names that command. |
| Trace.ExecuteAppend | src/arch_installer/utils.py:7-20 | After a prefix whose commands all succeed, the rest runs as it would alone. |
| Trace.ExecuteNoRuns | src/arch_installer/utils.py:22-27 | A script of only `safe_run`s, queries and file writes never raises, whichever commands fail. |
| Trace.CommandsOfRuns | src/arch_installer/utils.py:7-20 | A block of `run` calls issues exactly its commands, in order. |
| Disk.RowLabels | src/arch_installer/disk.py:16-19 | A listing line gives exactly one label when it has at least three fields and the third is "disk", and none otherwise. |
| Disk.LabelsAppend | src/arch_installer/disk.py:15-19 | The disk list keeps line order: the labels of concatenated listings are the concatenated labels. |
| Disk.CollectDisks | src/arch_installer/disk.py:14-19 | The loop builds exactly the filter-map of the lines: the kept rows' "/dev/NAME (SIZE)" labels, in order. |
| Disk.ListDisks | src/arch_installer/disk.py:11-20 | `list_disks` returns the labels of the stripped output's lines, each split on whitespace. |
| Disk.LabelDevice | src/arch_installer/installer.py:62-63 | Splitting a label "/dev/NAME (SIZE)" on whitespace gives "/dev/NAME" as its first field. |
| Disk.LabelsDevices | src/arch_installer/disk.py:15-19 | Every label comes from a non-empty, whitespace-free name field. |
| Disk.MountedIffListed | src/arch_installer/disk.py:23-30 | `mount \| grep DISK` succeeds exactly when some line of the mount table contains the disk's path, and the last line holding it is enough. It is false when starting the check raised. |
| Disk.UmountEach | src/arch_installer/disk.py:41-43 | Each mount point gives at most one command, and every command is a `safe_run`. |
| Disk.UnmountDisk | src/arch_installer/disk.py:33-48 | The loop issues the mount-point query, one `umount -f` per non-empty mount point, then the final catch-all. |
| Disk.UnmountCommands | src/arch_installer/disk.py:36-48 | The commands are `umount -f` of each non-empty mount point in order, then `umount -f disk*`. If the query fails or raises, only the final command is issued. |
| Disk.UnmountNeverRaises | src/arch_installer/disk.py:33-48 | Unmounting never raises and always runs to the end, whichever commands fail. |
| Disk.PartitionLayout | src/arch_installer/disk.py:51-59 | The five commands in order: `wipefs -a`, `sgdisk -Z`, `sgdisk -o`, partition 1 as the 1 GiB EFI system partition (ef00), partition 2 as the Linux rest (8300), each on the disk. The returned paths are disk + "1" and disk + "2". |
| Disk.PartitionNames | src/arch_installer/disk.py:59 | The EFI path is disk + "1" and the root path disk + "2". The two differ. |
| Disk.FormatOrder | src/arch_installer/disk.py:62-68 | The EFI partition is formatted FAT32 and root ext4. Root is mounted on /mnt before /mnt/boot is created, and the EFI partition is mounted there last. |
| Packages.GpuPackages | src/arch_installer/packages.py:25-30 | "nvidia", "amd" and "intel" add three packages each. Any other GPU adds none, without error. |
| Packages.WmdePackages | src/arch_installer/packages.py:33-40 | bspwm adds 6 packages, hyprland 4, gnome 2 and kde 3. Any other choice adds none. |
| Packages.PackageList | src/arch_installer/packages.py:20-42 | The list is the five base packages in fixed order, then the GPU part, then the desktop part. Its length is 5 plus the two parts. |
| Packages.DisplayManagerInstalled | src/arch_installer/packages.py:37-40 | gnome brings gdm into the list and kde brings sddm. |
| Packages.ProgressReports | src/arch_installer/packages.py:70-75 | After the j-th output line the bar reports min(20, j) of 20, one report per line. |
| Packages.ProgressBounded | src/arch_installer/packages.py:73-75 | Reported progress never exceeds 20 and never decreases within a package. The last report is min(20, lines). |
| Packages.ReadProgress | src/arch_installer/packages.py:66-75 | The read loop reports exactly `ProgressReports` for the lines the process prints. |
| Packages.InstallPackage | src/arch_installer/packages.py:56-83 | One package: "Installing...", the `pacstrap -K /mnt pkg` process, its progress, then "✓ Installed" or "✗ Failed". Success means exit code 0. |
| Packages.MirrorlistOrder | src/arch_installer/packages.py:11-17 | `reflector` is installed, then the mirror list ranked. A failing install raises before ranking; otherwise both run and a failing ranking raises with its status. |
| Packages.InstallBasePackages | src/arch_installer/packages.py:44-84 | The loop's effects and error are exactly those of the reference `InstallSpec`. |
| Packages.FirstFailure | src/arch_installer/packages.py:80-84 | Finds the first package whose `pacstrap` exits non-zero. Every earlier package exits with 0. |
| Packages.InstallOneSpawns | src/arch_installer/packages.py:56-64 | Installing one package starts exactly one process, `pacstrap -K /mnt pkg`. |
| Packages.InstallSpawnsInOrder | src/arch_installer/packages.py:49-84 | One `pacstrap -K /mnt pkg` per package, in list order, up to and including the first failure. No later package is tried. The error names the failed package, and there is none when every exit is 0. |
| Packages.DryRunSpawnsNothing | src/arch_installer/packages.py:52-54 | Dry-run starts no process and never raises. |
| Packages.InstallBaseShape | src/arch_installer/packages.py:44-84 | The package pane comes first. Then dry-run starts nothing, and a real run starts every package in order up to the first failure, which is the error. |
| Packages.InstallIsQuiet | src/arch_installer/packages.py:44-84 | The package step shows no step label of its own. |
| Locale.AvailableLocales | src/arch_installer/locale.py:10-16 | The offered locales are the lines of `locale -a`. When running it raises, they are the fixed three. There is always at least one. |
| Locale.DialogDefaults | src/arch_installer/locale.py:18-31 | ENTER at every prompt takes the first locale; LANG is that locale up to its first '.', and the three formats are the locale itself (each stripped). |
| Locale.DialogEscape | src/arch_installer/locale.py:21 | ESC at the locale menu cancels the dialog before any field is asked. |
| Locale.GetLocaleConfig | src/arch_installer/locale.py:18-31 | The dialog answers as `LocaleDialog` and reads the keys it reads. On success the map gains exactly the five prompts' keys, each with its answer. |
| Locale.LocalesToEnable | src/arch_installer/locale.py:48-55 | The entries are exactly the set {en_US, vi_VN, chosen locale} + " UTF-8", without duplicates. |
| Locale.EnabledCount | src/arch_installer/locale.py:48-55 | Two entries when the chosen locale is en_US.UTF-8 or vi_VN.UTF-8, three otherwise. |
| Locale.Uncomment | src/arch_installer/locale.py:60-62 | The loop applies `replace("#" + e, e)` for each entry in turn. |
| Locale.UncommentNoHash | src/arch_installer/locale.py:60-62 | A `locale.gen` without any '#' is left unchanged. |
| Locale.UncommentEntryLine | src/arch_installer/locale.py:60-62 | In a `locale.gen` of many lines, the commented-out line of an entry becomes the entry, and every other line is unchanged when none of them holds the commented entry. |
| Locale.UncommentLine | src/arch_installer/locale.py:62 | A commented-out entry on its own becomes the entry. |
| Locale.LocaleConfShape | src/arch_installer/locale.py:68-72 | `locale.conf` is exactly four newline-terminated lines, LANG, LC_TIME, LC_NUMERIC and LC_MONETARY, each set to its field. |
| Locale.SetupLocaleRun | src/arch_installer/locale.py:45-77 | `setup_locale` does what the reference `SetupLocale` says. |
| Locale.SetupLocaleEffects | src/arch_installer/locale.py:45-77 | An unreadable `locale.gen` raises before anything is written. Otherwise `locale.gen` is written, then `locale.conf`, and `locale-gen` is the only command; it raises exactly when it fails. |
| Locale.UserLocaleEffects | src/arch_installer/locale.py:80-99 | Nothing happens exactly for a falsy user name. Otherwise exactly three effects: the directory /mnt/home/USER/.config is created, /mnt/home/USER/.config/locale.conf gets the text of the system `locale.conf`, and one `chown` follows. |
| SystemdBoot.LoaderConfLines | src/arch_installer/bootloader/systemd_boot.py:14-19 | `loader.conf` is exactly: default arch.conf, timeout 3, console-mode keep, editor no. |
| SystemdBoot.MicrocodeLines | src/arch_installer/bootloader/systemd_boot.py:23-25 | The microcode initrd line is present exactly for a truthy microcode file. |
| SystemdBoot.Options | src/arch_installer/bootloader/systemd_boot.py:28-30 | Options are "root=R rw quiet". " nvidia-drm.modeset=1" is added exactly for the nvidia GPU. |
| SystemdBoot.MainEntryLayout | src/arch_installer/bootloader/systemd_boot.py:32-40 | The entry lines run in order: title, kernel, the microcode initrd when present, the kernel's initramfs, options. |
| SystemdBoot.FallbackMatchesMain | src/arch_installer/bootloader/systemd_boot.py:43-49 | The fallback entry is the main entry, except for the " (fallback)" title suffix and the fallback initramfs. |
| SystemdBoot.SystemdBootQuiet | src/arch_installer/bootloader/systemd_boot.py:8-49 | Installing systemd-boot shows no step label of its own. |
| SystemdBoot.BootctlFirst | src/arch_installer/bootloader/systemd_boot.py:8-49 | `bootctl install` is the only command and comes before any file is written. When it fails nothing is written. |
| Microcode.DetectCpuType | src/arch_installer/microcode.py:9-22 | "intel" exactly when cpuinfo contains GenuineIntel. "amd" exactly when it contains AuthenticAMD but not GenuineIntel. None when neither occurs or the file is unreadable. |
| Microcode.IntelWins | src/arch_installer/microcode.py:15-18 | A CPU reporting both vendor strings, in either order, is Intel. |
| Microcode.AddMicrocode | src/arch_installer/microcode.py:24-35 | Intel: exactly `pacstrap /mnt intel-ucode` and "intel-ucode.img". AMD: the AMD pair. Otherwise no command and None. |
| Microcode.MicrocodeOnlyWhenInstalled | src/arch_installer/microcode.py:24-35 | An image is returned exactly when one package was installed, which happens exactly when a vendor was found. |
| Progress.FrameAt | src/arch_installer/ui/progress.py:27-31 | The k-th frame is one of the spinner's frames. |
| Progress.FramesDistinct | src/arch_installer/ui/progress.py:24 | There are ten frames, all different. |
| Progress.FramePeriod | src/arch_installer/ui/progress.py:27-31 | Two calls show the same frame exactly when their positions agree modulo 10. |
| Progress.Spinner.constructor | src/arch_installer/ui/progress.py:23-25 | The counter starts at 0 on the fixed ten frames. |
| Progress.Spinner.Next | src/arch_installer/ui/progress.py:27-31 | Returns the frame under the counter before advancing; the counter becomes (old + 1) mod 10. The k-th call returns frame k mod 10. |
| Grub.GrubLayout | src/arch_installer/bootloader/grub.py:8-17 | Packages first, then `grub-install`, the `sed` edit exactly with microcode, and `grub-mkconfig` last: 3 commands without microcode, 4 with. |
| Grub.GrubIgnoresSystem | src/arch_installer/bootloader/grub.py:8-17 | The root partition, kernel and GPU do not change the commands. |
| Swap.SwapOrder | src/arch_installer/swap.py:9-17 | Exactly four commands in order: `dd`, `chmod 600` (before `mkswap`), `mkswap`, and the fstab append of "/swapfile none swap defaults 0 0". With the default size the `dd` command writes count=2048 blocks of 1M. |
| Swap.NatToStringInjective | src/arch_installer/swap.py:12 | Different sizes print differently. |
| Swap.DdCountIsSize | src/arch_installer/swap.py:12 | Two `dd` commands are equal exactly when their block counts are equal. |
| Ui.MenuStep | src/arch_installer/ui/curses_ui.py:49-58 | UP and DOWN move the cursor one place but stop at the ends. Exactly ENTER (343, 10, 13) commits and exactly ESC cancels. Every other key changes nothing. The cursor stays in range. |
| Ui.MenuRun | src/arch_installer/ui/curses_ui.py:29-58 | The cursor the loop stops on is always a valid option index. |
| Ui.MenuRunConsumes | src/arch_installer/ui/curses_ui.py:29-58 | The menu reads a prefix of the keys. It is still waiting exactly when no ENTER or ESC came. Otherwise it reads up to the answering key. |
| Ui.MenuDownClamps | src/arch_installer/ui/curses_ui.py:52-53 | k presses of DOWN move the cursor k places, but never past the last option. |
| Ui.MenuUpClamps | src/arch_installer/ui/curses_ui.py:50-51 | k presses of UP move the cursor k places back, but never before the first option. |
| Ui.MenuDoesNotWrap | src/arch_installer/ui/curses_ui.py:27-53 | On a fresh menu, UP then ENTER selects the first option. Any run of DOWN presses past the end, then ENTER, selects the last. |
| Ui.MenuReply | src/arch_installer/ui/curses_ui.py:54-56 | A committed answer is always one of the options. |
| Ui.MenuFirstKey | src/arch_installer/ui/curses_ui.py:27-58 | ENTER on a fresh menu picks the first option, and ESC cancels. |
| Ui.EditStep | src/arch_installer/ui/curses_ui.py:87-109 | Each key of the line editor acts as follows, and 0 <= cursor <= len(buffer) always holds: - BACKSPACE removes the character before a cursor above 0; at 0 it does nothing. - LEFT and RIGHT clamp to the buffer. - HOME / Ctrl+A move to 0. - END / Ctrl+E move to the end. - Ctrl+U / Ctrl+K clear the buffer. - A printable key inserts itself at the cursor and advances it. - ENTER, and only ENTER, commits; ESC, and only ESC, aborts. - Any other key changes nothing. |
| Ui.EditRun | src/arch_installer/ui/curses_ui.py:75-109 | The editor state stays valid whatever keys are read. |
| Ui.EditRunConsumes | src/arch_installer/ui/curses_ui.py:75-109 | The editor reads a prefix of the keys. It is still waiting exactly when no ENTER or ESC came. |
| Ui.InsertThenBackspace | src/arch_installer/ui/curses_ui.py:90-109 | A printable key followed by BACKSPACE restores the editor state. |
| Ui.TypeOne | src/arch_installer/ui/curses_ui.py:107-109 | One printable key inserts its character at the cursor. |
| Ui.TypingInserts | src/arch_installer/ui/curses_ui.py:107-109 | Typing printable text inserts it at the cursor and leaves the cursor just after it. |
| Ui.ClearThenType | src/arch_installer/ui/curses_ui.py:104-109 | Ctrl+U, then text, then ENTER commits exactly that text, whatever the default was. |
| Ui.InputFirstKey | src/arch_installer/ui/curses_ui.py:72-113 | The editor starts on the default with the cursor after it. ENTER at once returns the stripped default, and ESC cancels. |
| Ui.TruncateFits | src/arch_installer/ui/curses_ui.py:127-130 | With a column at least 13 wide, the shown text never exceeds w-x-10. A cut value keeps exactly its first w-x-13 characters. |
| Ui.CursesUI.GetKey | src/arch_installer/ui/curses_ui.py:49 | `getch` returns the next key and consumes it. |
| Ui.CursesUI.Menu | src/arch_installer/ui/curses_ui.py:23-58 | The loop answers as `MenuReply` on the keys and leaves the unread ones. ENTER stores the option under `keyname`, and ESC leaves the configuration untouched. |
| Ui.CursesUI.Input | src/arch_installer/ui/curses_ui.py:60-113 | The loop answers as `InputReply` on the keys. ENTER stores and returns the stripped buffer under `keyname`, and ESC stores nothing. |
| Ui.CursesUI.DrawSummary | src/arch_installer/ui/curses_ui.py:115-132 | One line per configuration entry, in insertion order, from row 2 while the row is above the last screen line. Line i is the i-th entry of `SummaryTexts`, so `SummaryTextAt` gives its text. |
| Ui.SummaryTextAt | src/arch_installer/ui/curses_ui.py:124-131 | The summary text of entry i is its key, ": " and `str` of its value, cut by `Truncate`. |
| Ui.CursesUI.Confirm | src/arch_installer/ui/curses_ui.py:175-181 | Reads one key: yes unless it is ESC. When no key is left it is still waiting. |
| Ui.CursesUI.ConfirmInstallation | src/arch_installer/ui/curses_ui.py:134-149 | The whole configuration, one untruncated "key: value" line per entry from row 2 within the screen, then one key: yes unless it is ESC. |
| Ui.CursesUI.AwaitKey | src/arch_installer/ui/curses_ui.py:157-165 | The key `show_error` waits for is consumed when there is one. |
| Session.Config.constructor | src/arch_installer/installer.py:19 | The configuration starts empty. |
| Session.Config.Set | src/arch_installer/ui/curses_ui.py:55 | `config[key] = v` sets the value. A new key goes to the end of the order, and an existing key keeps its place. |
| Session.Config.Items | src/arch_installer/ui/curses_ui.py:124 | `items()` yields each key in insertion order with its value. |
| Session.RenderLocaleFields | src/arch_installer/locale.py:23-29 | `str` of the locale dict shows its five keys in the order they are built, each value as `repr` writes it, between braces and separated by commas. |
| Session.RenderPlainLocale | src/arch_installer/locale.py:36-42 | A bundle whose fields need no escaping, such as the default one, shows each value between single quotes. |
| Text.StripShape | src/arch_installer/ui/curses_ui.py:112-113 | `strip()` removes exactly the surrounding whitespace. The result neither starts nor ends with whitespace. |
| Text.SplitWsFields | src/arch_installer/disk.py:16 | Every field of `split()` is a non-empty run of non-whitespace. |
| Text.FirstFieldIsSplit | src/arch_installer/locale.py:25 | `split('.')[0]` is the text up to the first '.'. |
| Text.SplitLines | src/arch_installer/locale.py:68-72 | A text of newline-terminated lines splits back into those lines. |
| Text.ReplaceLine | src/arch_installer/locale.py:62 | `replace` of a newline-free pattern filling one line, where no other line holds it, changes that line alone. |
| Text.PyPrefix | src/arch_installer/ui/curses_ui.py:128 | Python's `s[:n]`, including the negative `n` that counts from the end. |
| Text.PyReprReadsBack | src/arch_installer/ui/curses_ui.py:127-130 | `repr` of a string puts the same quote at both ends. The quote is `"` exactly when the text holds `'` and no `"`. The body between the quotes decodes back to the string. |
| Text.PyReprPlain | src/arch_installer/ui/curses_ui.py:127-130 | A printable ASCII text with no quote and no backslash shows between single quotes, unchanged. |
| Text.PyReprDoubleQuoted | src/arch_installer/ui/curses_ui.py:127-130 | A printable ASCII text with `'`, no `"` and no backslash shows between double quotes, unchanged. |
| Text.PyReprApostrophe | src/arch_installer/ui/curses_ui.py:141 | `repr` of `en_US'x` is `"en_US'x"`. |
| Text.PyReprBackslash | src/arch_installer/ui/curses_ui.py:141 | `repr` of `a\b` is `'a\\b'`: the backslash is doubled. |
| Steps.RunStepsAnnounces | src/arch_installer/installer.py:97-150 | When no step shows a label itself, the labels shown are those of the steps started, in order. |
| Steps.RunStepsStops | src/arch_installer/installer.py:97-150 | The run raises exactly when a started step raises, with that step's error. Otherwise every step is started. |
| Steps.RunStepsStopped | src/arch_installer/installer.py:97-150 | Once a step has raised, the later steps change nothing. |
| InstallPlan.SystemLayout | src/arch_installer/installer.py:152-162 | The time zone, hardware clock and NetworkManager commands come first. Then gdm is enabled exactly for gnome, sddm exactly for kde, and nothing for any other desktop. |
| InstallPlan.BootloaderChoice | src/arch_installer/installer.py:164-177 | The microcode package comes before the bootloader, which gets the returned image. "systemd-boot" selects systemd-boot; every other choice, "None" included, selects GRUB. |
| InstallPlan.PasswordLayout | src/arch_installer/installer.py:179-186 | The root `chpasswd` comes first. A user name adds `useradd`, the user's `chpasswd` and the sudoers line, in that order. Without one nothing else runs. |
| InstallPlan.PlanShape | src/arch_installer/installer.py:97-150 | Nine steps are always planned, in the fixed order. The swap file is the sixth exactly when `use_swap` is set, and the user settings come last exactly when there is a user name. |
| InstallPlan.OutcomeQuiet | src/arch_installer/installer.py:97-150 | No installation step shows a step label of its own. |
| InstallPlan.PlanAnnounces | src/arch_installer/installer.py:97-150 | A run of the plan shows the planned labels of the steps it started, in order, and nothing else. All of them are shown when no step raises. |
| InstallPlan.SwapAnnouncedIff | src/arch_installer/installer.py:127-129 | "Setting up swap file..." is among the planned labels exactly when `use_swap` is set. |
| InstallPlan.UserAnnouncedIff | src/arch_installer/installer.py:147-150 | "Configuring user settings..." is among the planned labels exactly when there is a user name. |
| InstallPlan.ExecutedIsPlan | src/arch_installer/installer.py:97-150 | The straight-line method body equals the plan run step by step: the same effects and the same first error. |
| Installation.AccountChoice | src/arch_installer/installer.py:66-71 | "No" to "Create user?" sets `username` to None with no password. On an answered dialog, a None user name means exactly that "No" was chosen. |
| Installation.SwapChoice | src/arch_installer/installer.py:82-83 | `use_swap` is true exactly when the swap menu was answered "Yes". |
| Installation.DiskDevices | src/arch_installer/installer.py:62-63 | Every disk option splits, and its first field is a "/dev/" path: the device stored for the chosen disk. |
| Installation.RecallHolds | src/arch_installer/installer.py:97-186 | Reading the settings back from the map succeeds with `s` exactly when the map holds `s` under the installer's keys and a password comes only with a user. |
| Installation.GatheredUserpass | src/arch_installer/installer.py:66-71 | Without a user the password is empty, so gathered settings read back unchanged. |
| Installation.NoUefiSession | src/arch_installer/installer.py:49-53 | Without UEFI the error alone is shown. After a key, `SystemExit("UEFI not supported")` ends the run. |
| Installation.NoDisksSession | src/arch_installer/installer.py:58-60 | With no disk listed, the run exits with "No disks found!" right after `lsblk`. No prompt is shown and no key is read. |
| Installation.LocaleDeclined | src/arch_installer/installer.py:85-90 | Answering "No" to "Configure locale?" stores the default bundle, all five fields "en_US.UTF-8", and reads no further key; "Yes" runs the locale dialog on the offered locales. |
| Installation.GatherQueries | src/arch_installer/installer.py:55-90 | Gathering only queries `lsblk` (and `locale -a` when asked). It issues no command and shows no step. |
| Installation.ExitIssuesNoCommands | src/arch_installer/installer.py:36-95 | A run that ends in `SystemExit` has issued no shell command. |
| Installation.InstalledExits | src/arch_installer/installer.py:92-95 | After gathering, only declining the confirmation exits, and then nothing is done. |
| Installation.InstalledRaises | src/arch_installer/installer.py:41-47 | After gathering, a run that raises shows the failure message last. |
| Installation.RaisedShowsFailure | src/arch_installer/installer.py:36-47 | A run that raises has "Installation failed: <error>" as its last effect. A failing command reads "Command 'CMD' returned non-zero exit status N.", with its status. |
| Installation.InstalledAnnounces | src/arch_installer/installer.py:92-150 | After gathering, a completed installation announced every planned step, in order, and nothing else. |
| Installation.SessionCompleted | src/arch_installer/installer.py:36-47 | A completed run passed the UEFI check without reading a key and gathered settings. It then completed the confirmation, the steps and the reboot prompt on those settings, after the gathering effects. |
| Installation.CompletedAnnouncesPlan | src/arch_installer/installer.py:36-150 | A completed run gathered settings and announced exactly the planned labels for them, in order. |
| Installation.InstalledReboot | src/arch_installer/installer.py:188-193 | After gathering, a completed run ends with `reboot` when rebooted and with the success message when not. |
| Installation.RebootComesLast | src/arch_installer/installer.py:188-193 | A run that completed rebooted ends with `reboot`; one that completed without rebooting ends with the success message. |
| Installation.RebootOnlyOnConfirm | src/arch_installer/installer.py:188-193 | At the reboot prompt, `reboot` is run exactly when a key was read and it is not ESC. The run goes on rebooted exactly when that command also succeeds, and without rebooting exactly when the key was ESC. |
| Installation.Installer.constructor | src/arch_installer/installer.py:17-25 | The installer starts with an empty configuration and an empty trace. |
| Installation.Installer.Shell | src/arch_installer/utils.py:7-20 | The command is issued and raises exactly when it exits non-zero. |
| Installation.Installer.ShowErrorScreen | src/arch_installer/ui/curses_ui.py:157-165 | Shows the message, then waits for one key. |
| Installation.Installer.PreInstallChecks | src/arch_installer/installer.py:49-53 | Without UEFI, shows the error, waits for a key and raises `SystemExit`. Otherwise does nothing. |
| Installation.Installer.QueryDisks | src/arch_installer/disk.py:11-20 | `lsblk` is queried. Its failure is reported, and its output gives the disk list. |
| Installation.Installer.GatherAccount | src/arch_installer/installer.py:66-71 | "Create user?", then the name and hidden password on "Yes". `username` and `userpass` are stored and only the account keys change. |
| Installation.Installer.GatherSystem | src/arch_installer/installer.py:76-79 | The kernel, GPU, WM/DE and bootloader menus, in order. Each answer is stored, and only those keys change. |
| Installation.Installer.GatherLocale | src/arch_installer/installer.py:86-90 | The locale dialog (with `locale -a`) on "Yes", the default bundle otherwise. It is stored under `locale`, and only the locale keys change. |
| Installation.Installer.GatherConfiguration | src/arch_installer/installer.py:55-90 | `_gather_configuration` does what `GatherStage` says. A failing `lsblk` raises and an empty list exits. Afterwards the map holds exactly the settings returned. |
| Installation.Installer.GatherDialog | src/arch_installer/installer.py:62-90 | The disk menu with the chosen label cut to its device, then the rest of the dialog. The settings read back from the map are those answered. |
| Installation.Installer.GatherAnswers | src/arch_installer/installer.py:66-90 | The account and the hidden root password, then the rest. The map holds all the answers. |
| Installation.Installer.GatherMachine | src/arch_installer/installer.py:76-90 | The system menus, "Create swap file?" (`use_swap` is "Yes") and the locale. The map holds all the answers. |
| Installation.Installer.ConfirmInstallation | src/arch_installer/installer.py:92-95 | Declining with ESC raises `SystemExit("Installation cancelled by user")`. Any other key proceeds. |
| Installation.Installer.ConfigureSystem | src/arch_installer/installer.py:152-162 | `_configure_system` issues its commands until the first failure, as the execution of `SystemCommands`. |
| Installation.Installer.SetPasswords | src/arch_installer/installer.py:179-186 | `_set_passwords` issues its commands until the first failure, as the execution of `PasswordCommands`. |
| Installation.Installer.ShowStep | src/arch_installer/ui/curses_ui.py:151-155 | The step label is announced. |
| Installation.Installer.InstallBootloader | src/arch_installer/installer.py:164-177 | The microcode commands, then the chosen bootloader's script, until the first failure. |
| Installation.Installer.RunStep | src/arch_installer/installer.py:99-150 | Each step does what its collaborator's script does on the machine. After a successful partitioning the EFI and root paths are stored, and nothing else changes the map. |
| Installation.Installer.Advance | src/arch_installer/installer.py:99-150 | `show_step`, then the step, continuing a run that has not raised. |
| Installation.Installer.DiskSteps | src/arch_installer/installer.py:99-111 | Unmount, partition and format, each announced, until the first that raises. |
| Installation.Installer.BaseSteps | src/arch_installer/installer.py:113-129 | The mirror list, the packages and, only with `use_swap`, the swap file. |
| Installation.Installer.ConfigSteps | src/arch_installer/installer.py:131-141 | The locale, the system basics and the bootloader, until the first that raises. |
| Installation.Installer.AccountSteps | src/arch_installer/installer.py:143-150 | The passwords and, only with a user name, the user's locale. |
| Installation.Installer.ExecuteInstallation | src/arch_installer/installer.py:97-150 | The steps run in the fixed order with their labels, stopping at the first that raises. The partition paths are stored once partitioning succeeds. |
| Installation.Installer.PostInstallation | src/arch_installer/installer.py:188-193 | Shows the success message. `reboot` runs only when the key is not ESC, and its failure raises. |
| Installation.Installer.Handle | src/arch_installer/installer.py:44-47 | The handler of `run`, as `Settle` describes. |
| Installation.Installer.Install | src/arch_installer/installer.py:41-47 | The confirmation, the steps and the reboot prompt, as `Installed` on the gathered settings. |
| Installation.Installer.InstallConfirmed | src/arch_installer/installer.py:42-47 | Once confirmed, the steps and the reboot prompt, with any exception shown. |
| Installation.Installer.Run | src/arch_installer/installer.py:36-47 | The whole run, including its trace and the keys left, is exactly `SessionOn` on the world and the keys. |

## Left out

- Rendering: colours, `addstr`/`clear`/`refresh`, cursor visibility, the menu's option layout and the menu and input titles, and the `*` masking of a hidden input (the `hidden` parameter of `Ui.CursesUI.Input` changes only what is drawn). A drawing call that falls outside the window raises `_curses.error` in the source, which `run` reports as a failure; the model raises it nowhere, and the two cases that ordinary input reaches are spelled out below. The model keeps the keys, the configuration updates, the summary lines and the truncation rule.
- `ProgressBar.draw`: floating-point progress arithmetic. It is not called by the core.
- `utils.run`, `safe_run` and `check_efi` are not modelled as code. As a result:
  - a `run` is an effect whose failure comes from the set of failing commands;
  - a `safe_run` never raises;
  - UEFI support is an input.
  - The command's output and the `[RUN]` print are left out.
- `__main__.py`: argument parsing, environment variables, and the entry points it calls that the shown files do not define.
- Logging (the log file, `logger.error`): write-only output with no effect on behaviour.
- Real processes. Each `pacstrap` is an input: its output lines and its exit code. A `Popen` that cannot start is left out.
- Real reads. Each of these is an input:
  - the outputs of `lsblk`, `locale -a`, the mount-point query and `mount`;
  - `/proc/cpuinfo`;
  - `locale.gen`.
- File writes are effects that never fail.
- Shell quoting. Passwords and user names are pasted into commands as text, as the source does. Injection is not analysed.
- `show_package_installation` is recorded as an effect. Its redraw, which clears the screen and shows the "PREPARING PACKAGE INSTALLATION..." heading, is left out with the rest of the rendering.
- `update_package_status` and `update_package_progress` are recorded as effects. Their bodies are `pass`, so they draw nothing.
- Disk.MountedIffListed: `grep`'s pattern is a regular expression, and the model reads it as a plain substring. They agree for device paths such as `/dev/sda`, whose characters are literal in a pattern.
- A command killed by a signal (a negative return code, whose text reads "died with <signal>") is not modelled. A failing command's exit status is taken from 1 to 255.
- Locale.LocalesToEnable: `list(set(...))` has an unspecified order in Python. The model takes first-occurrence order. `Locale.Uncomment` is proved for any order, and the set and its size are proved exactly.
- Ui.CursesUI.ConfirmInstallation: the screen height stands for `curses.LINES`. The heading and the "Press Enter…" line are not returned. The source draws that line at row 4 + len(config). When that row is off the screen (4 + len(config) >= LINES), `addstr` raises `_curses.error` before any key is read. The run then ends `Raised` with "Installation failed: addwstr() returned ERR", and no installation command is issued. The model does not raise there: it reads the key and goes on. On a 24-line terminal, a run with a user account and the default locale (21 entries) reaches this case in the source.
- Installation.Installer.ConfirmInstallation: follows `ConfirmStage`, which reads the key whatever the size of the configuration, so a configuration too long for the screen is confirmed or declined by a key instead of raising.
- Ui.CursesUI.Input: before each key the source moves the cursor to column 2 + cursor position. Once that column is past the window (2 + cursor >= width, the 78th character at the end of the buffer on 80 columns), `move` raises `_curses.error` and the run ends `Raised` with "Installation failed: wmove() returned ERR". The model has no width in the editor and goes on editing.
- Text.PyRepr: Python's `repr` also escapes the non-printable characters above ASCII (such as U+0085 or U+00A0) as `\x`, `\u` or `\U` escapes. The model copies every character from U+0080 up unchanged. It escapes the ASCII control characters, DEL, the backslash and the chosen quote as Python does.
- Installation.Installer.GatherConfiguration: states the values the map holds after gathering, not the order of its keys. The order follows step by step from `Session.Config.Set` (a new key goes last, an existing key keeps its place), and it is not stated for the whole dialog.
- Ui.CursesUI.DrawSummary: the " SELECTED CONFIGURATION " heading is drawn but not returned. The menu and input loops do not record their summary redraws.
- Keys are a finite sequence. A prompt that runs out of keys is `Waiting`, and the run ends `Blocked`, where `getch` would block forever.
- The methods `GatherDialog`, `GatherAnswers`, `GatherMachine`, `InstallConfirmed`, `DiskSteps`, `BaseSteps`, `ConfigSteps`, `AccountSteps` and `Advance` each cover part of one Python method (`_gather_configuration`, `run` or `_execute_installation`). They split its body into parts that verify one at a time. Together they do in the same order what the Python method does.
- `_install_bootloader` and `_execute_installation` read `root_partition` and the other settings straight from the gathered settings. `Installation.Installer.ExecuteInstallation` requires that the configuration map holds exactly those settings when the method starts, and `RunStep` proves that partitioning stores `efi_partition` and `root_partition`.
- Package installation always uses `dry_run=False`, as the installer calls it.
