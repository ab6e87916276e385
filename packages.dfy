/** `PackageManager`: the package list for a kernel / GPU / WM-DE choice, the mirrorlist
    commands, and the `pacstrap` loop with its per-package status and progress reports. */
module Packages {
  import opened Wrappers
  import opened Trace

  function BasePackages(kernel: string): seq<string> {
    ["base", kernel, kernel + "-headers", "networkmanager", "sudo"]
  }

  /** The GPU driver packages; an unknown GPU (including "None") contributes nothing. */
  function GpuPackages(gpu: string): (r: seq<string>)
    ensures |r| == if gpu in {"nvidia", "amd", "intel"} then 3 else 0
  {
    if gpu == "nvidia" then ["nvidia-dkms", "nvidia-utils", "nvidia-settings"]
    else if gpu == "amd" then ["xf86-video-amdgpu", "mesa", "vulkan-radeon"]
    else if gpu == "intel" then ["mesa", "vulkan-intel", "xf86-video-intel"]
    else []
  }

  /** The window manager / desktop packages; anything else contributes nothing. */
  function WmdePackages(wmde: string): (r: seq<string>)
    ensures |r| == if wmde == "bspwm" then 6 else if wmde == "hyprland" then 4
                   else if wmde == "gnome" then 2 else if wmde == "kde" then 3 else 0
  {
    if wmde == "bspwm" then ["bspwm", "sxhkd", "alacritty", "polybar", "xorg", "xorg-xinit"]
    else if wmde == "hyprland" then ["hyprland", "waybar", "alacritty", "xdg-desktop-portal-hyprland"]
    else if wmde == "gnome" then ["gnome", "gdm"]
    else if wmde == "kde" then ["plasma", "sddm", "konsole"]
    else []
  }

  /** `get_package_list`. */
  function PackageList(kernel: string, gpu: string, wmde: string): (r: seq<string>)
    ensures |r| == 5 + |GpuPackages(gpu)| + |WmdePackages(wmde)|
    ensures r[..5] == ["base", kernel, kernel + "-headers", "networkmanager", "sudo"]
    ensures r[5..5 + |GpuPackages(gpu)|] == GpuPackages(gpu)
    ensures r[5 + |GpuPackages(gpu)|..] == WmdePackages(wmde)
  {
    BasePackages(kernel) + GpuPackages(gpu) + WmdePackages(wmde)
  }

  /** The desktop's display manager is installed with it: gdm with gnome, sddm with kde. */
  lemma DisplayManagerInstalled(kernel: string, gpu: string, wmde: string)
    ensures wmde == "gnome" ==> "gdm" in PackageList(kernel, gpu, wmde)
    ensures wmde == "kde" ==> "sddm" in PackageList(kernel, gpu, wmde)
  {
    var r := PackageList(kernel, gpu, wmde);
    var g := |GpuPackages(gpu)|;
    if wmde == "gnome" {
      assert r[5 + g + 1] == r[5 + g..][1] == "gdm";
    }
    if wmde == "kde" {
      assert r[5 + g + 1] == r[5 + g..][1] == "sddm";
    }
  }

  /** `optimize_mirrorlist`: install reflector, then rank the Vietnamese HTTPS mirrors. */
  const REFLECTOR_INSTALL := "pacman -S --noconfirm reflector"
  const REFLECTOR_RANK := "reflector --country Vietnam --age 12 --protocol https --sort rate --save /etc/pacman.d/mirrorlist"

  function MirrorlistScript(): seq<Effect> {
    [Run(REFLECTOR_INSTALL), Run(REFLECTOR_RANK)]
  }

  /** Reflector is installed before it ranks the mirrors, and the ranking runs only when the
      installation succeeded. */
  lemma MirrorlistOrder(failing: map<string, ExitStatus>)
    ensures Commands(MirrorlistScript()) == [REFLECTOR_INSTALL, REFLECTOR_RANK]
    ensures REFLECTOR_INSTALL in failing ==>
      Execute(MirrorlistScript(), failing)
      == StepRun([Run(REFLECTOR_INSTALL)], Some(CommandFailed(REFLECTOR_INSTALL, failing[REFLECTOR_INSTALL])))
    ensures REFLECTOR_INSTALL !in failing ==>
      Execute(MirrorlistScript(), failing)
      == StepRun(MirrorlistScript(),
                 if REFLECTOR_RANK in failing then Some(CommandFailed(REFLECTOR_RANK, failing[REFLECTOR_RANK])) else None)
  {
    assert MirrorlistScript() == RunAll([REFLECTOR_INSTALL, REFLECTOR_RANK]);
    CommandsOfRuns([REFLECTOR_INSTALL, REFLECTOR_RANK]);
    if REFLECTOR_INSTALL !in failing {
      assert MirrorlistScript() == [Run(REFLECTOR_INSTALL)] + [Run(REFLECTOR_RANK)];
      ExecuteAppend([Run(REFLECTOR_INSTALL)], [Run(REFLECTOR_RANK)], failing);
      assert [Run(REFLECTOR_RANK)][1..] == [];
    }
  }

  /** The output lines a `pacstrap` process prints and the exit code it ends with. */
  datatype Proc = Proc(lines: seq<string>, exitCode: int)

  const PROGRESS_WIDTH: nat := 20
  const DRY_RUN_STATUS := "\U{2713} (dry-run)"
  const INSTALLING_STATUS := "Installing..."
  const INSTALLED_STATUS := "\U{2713} Installed"
  const FAILED_STATUS := "\U{2717} Failed"

  function PacstrapArgv(pkg: string): seq<string> {
    ["pacstrap", "-K", "/mnt", pkg]
  }

  function Capped(k: nat): nat {
    if k < PROGRESS_WIDTH then k else PROGRESS_WIDTH
  }

  /** The progress reports after the first k output lines: min(20, 1), ..., min(20, k). */
  function ProgressReports(pkg: string, k: nat): (r: seq<Effect>)
    ensures |r| == k
    ensures forall j :: 0 <= j < k ==> r[j] == PackageProgress(pkg, Capped(j + 1), PROGRESS_WIDTH)
  {
    seq(k, j requires 0 <= j < k => PackageProgress(pkg, Capped(j + 1), PROGRESS_WIDTH))
  }

  /** Reported progress never exceeds the bar width and never goes back. */
  lemma ProgressBounded(pkg: string, k: nat)
    ensures forall j :: 0 <= j < k ==> ProgressReports(pkg, k)[j].done <= PROGRESS_WIDTH
    ensures forall i, j :: 0 <= i <= j < k ==> ProgressReports(pkg, k)[i].done <= ProgressReports(pkg, k)[j].done
    ensures k > 0 ==> ProgressReports(pkg, k)[k - 1].done == Capped(k)
  {
  }

  /** What happens for one package that is really installed. */
  function InstallOne(pkg: string, p: Proc): seq<Effect> {
    [PackageStatus(pkg, INSTALLING_STATUS), Spawn(PacstrapArgv(pkg))]
    + ProgressReports(pkg, |p.lines|)
    + [PackageStatus(pkg, if p.exitCode == 0 then INSTALLED_STATUS else FAILED_STATUS)]
  }

  /** Reference semantics of the loop over `pkgs[i..]`: in dry-run every package is only
      marked; otherwise each one is installed until the first non-zero exit code. */
  function InstallFrom(pkgs: seq<string>, i: nat, dryRun: bool, out: string -> Proc): (r: StepRun)
    requires i <= |pkgs|
    decreases |pkgs| - i
  {
    if i == |pkgs| then StepRun([], None)
    else if dryRun then
      var rest := InstallFrom(pkgs, i + 1, dryRun, out);
      StepRun([PackageStatus(pkgs[i], DRY_RUN_STATUS)] + rest.effects, rest.error)
    else
      var p := out(pkgs[i]);
      if p.exitCode == 0 then
        var rest := InstallFrom(pkgs, i + 1, dryRun, out);
        StepRun(InstallOne(pkgs[i], p) + rest.effects, rest.error)
      else StepRun(InstallOne(pkgs[i], p), Some(PackageFailed(pkgs[i])))
  }

  /** Everything `install_base_packages` does, from showing the package pane onwards. */
  function InstallSpec(kernel: string, gpu: string, wmde: string, dryRun: bool, out: string -> Proc): StepRun {
    var pkgs := PackageList(kernel, gpu, wmde);
    var r := InstallFrom(pkgs, 0, dryRun, out);
    StepRun([ShowPackages(pkgs)] + r.effects, r.error)
  }

  /** A step of the reference loop: one package, then the rest. */
  lemma InstallFromStep(pkgs: seq<string>, i: nat, dryRun: bool, out: string -> Proc)
    requires i < |pkgs|
    ensures dryRun ==> (InstallFrom(pkgs, i, dryRun, out)
      == StepRun([PackageStatus(pkgs[i], DRY_RUN_STATUS)] + InstallFrom(pkgs, i + 1, dryRun, out).effects,
                 InstallFrom(pkgs, i + 1, dryRun, out).error))
    ensures !dryRun && out(pkgs[i]).exitCode == 0 ==> (InstallFrom(pkgs, i, dryRun, out)
      == StepRun(InstallOne(pkgs[i], out(pkgs[i])) + InstallFrom(pkgs, i + 1, dryRun, out).effects,
                 InstallFrom(pkgs, i + 1, dryRun, out).error))
    ensures !dryRun && out(pkgs[i]).exitCode != 0 ==> (InstallFrom(pkgs, i, dryRun, out)
      == StepRun(InstallOne(pkgs[i], out(pkgs[i])), Some(PackageFailed(pkgs[i]))))
  {
  }

  /** The read loop over one process's output: after each line, the bar shows
      min(20, lines so far). */
  method ReadProgress(pkg: string, proc: Proc) returns (reports: seq<Effect>)
    ensures reports == ProgressReports(pkg, |proc.lines|)
  {
    reports := [];
    var linesSeen := 0;
    while linesSeen < |proc.lines|
      invariant linesSeen <= |proc.lines|
      invariant reports == ProgressReports(pkg, linesSeen)
    {
      linesSeen := linesSeen + 1;
      var done := Capped(linesSeen);
      reports := reports + [PackageProgress(pkg, done, PROGRESS_WIDTH)];
    }
  }

  /** One pass of the loop outside dry-run: mark the package, start `pacstrap`, follow its
      output, and mark the result; `ok` says whether the process exited with 0. */
  method InstallPackage(pkg: string, proc: Proc) returns (effects: seq<Effect>, ok: bool)
    ensures effects == InstallOne(pkg, proc)
    ensures ok <==> proc.exitCode == 0
  {
    effects := [PackageStatus(pkg, INSTALLING_STATUS), Spawn(PacstrapArgv(pkg))];
    var reports := ReadProgress(pkg, proc);
    effects := effects + reports;
    ok := proc.exitCode == 0;
    effects := effects + [PackageStatus(pkg, if ok then INSTALLED_STATUS else FAILED_STATUS)];
  }

  /** `install_base_packages`; `out` gives each package's `pacstrap` output and exit code. */
  method InstallBasePackages(kernel: string, gpu: string, wmde: string, dryRun: bool, out: string -> Proc)
    returns (effects: seq<Effect>, error: Option<Error>)
    ensures StepRun(effects, error) == InstallSpec(kernel, gpu, wmde, dryRun, out)
  {
    var pkgs := PackageList(kernel, gpu, wmde);
    ghost var all := InstallFrom(pkgs, 0, dryRun, out);
    effects := [ShowPackages(pkgs)];
    error := None;
    for i := 0 to |pkgs|
      invariant effects + InstallFrom(pkgs, i, dryRun, out).effects == [ShowPackages(pkgs)] + all.effects
      invariant InstallFrom(pkgs, i, dryRun, out).error == all.error
    {
      var pkg := pkgs[i];
      InstallFromStep(pkgs, i, dryRun, out);
      ghost var rest := InstallFrom(pkgs, i + 1, dryRun, out).effects;
      if dryRun {
        AppendAssoc(effects, [PackageStatus(pkg, DRY_RUN_STATUS)], rest);
        effects := effects + [PackageStatus(pkg, DRY_RUN_STATUS)];
      } else {
        var one, ok := InstallPackage(pkg, out(pkg));
        AppendAssoc(effects, one, rest);
        effects := effects + one;
        if !ok {
          error := Some(PackageFailed(pkg));
          return;
        }
      }
    }
    assert effects == effects + InstallFrom(pkgs, |pkgs|, dryRun, out).effects;
  }

  /** The processes started, in order. */
  function Spawned(t: seq<Effect>): (r: seq<seq<string>>)
    ensures |r| <= |t|
  {
    if t == [] then [] else (if t[0].Spawn? then [t[0].argv] else []) + Spawned(t[1..])
  }

  lemma {:induction false} SpawnedAppend(a: seq<Effect>, b: seq<Effect>)
    ensures Spawned(a + b) == Spawned(a) + Spawned(b)
  {
    if a == [] {
      assert a + b == b;
    } else {
      var h: seq<seq<string>> := if a[0].Spawn? then [a[0].argv] else [];
      assert (a + b)[0] == a[0];
      assert (a + b)[1..] == a[1..] + b;
      assert Spawned(a + b) == h + Spawned(a[1..] + b);
      SpawnedAppend(a[1..], b);
      assert h + (Spawned(a[1..]) + Spawned(b)) == (h + Spawned(a[1..])) + Spawned(b);
    }
  }

  lemma {:induction false} NoSpawnsIn(t: seq<Effect>)
    requires forall i :: 0 <= i < |t| ==> !t[i].Spawn?
    ensures Spawned(t) == []
  {
    if t != [] {
      NoSpawnsIn(t[1..]);
    }
  }

  lemma InstallOneSpawns(pkg: string, p: Proc)
    ensures Spawned(InstallOne(pkg, p)) == [PacstrapArgv(pkg)]
  {
    var t := InstallOne(pkg, p);
    forall i | 0 <= i < |t[2..]| ensures !t[2..][i].Spawn? {
    }
    NoSpawnsIn(t[2..]);
    assert t == [t[0], t[1]] + t[2..];
    SpawnedAppend([t[0], t[1]], t[2..]);
    assert [t[0], t[1]][1..] == [t[1]];
  }

  function PacstrapAll(pkgs: seq<string>): (r: seq<seq<string>>)
    ensures |r| == |pkgs|
  {
    seq(|pkgs|, i requires 0 <= i < |pkgs| => PacstrapArgv(pkgs[i]))
  }

  lemma PacstrapAllCons(pkgs: seq<string>, i: nat, e: nat)
    requires i < e <= |pkgs|
    ensures PacstrapAll(pkgs[i..e]) == [PacstrapArgv(pkgs[i])] + PacstrapAll(pkgs[i + 1..e])
  {
    var l := PacstrapAll(pkgs[i..e]);
    var r := [PacstrapArgv(pkgs[i])] + PacstrapAll(pkgs[i + 1..e]);
    forall k | 0 <= k < |l|
      ensures l[k] == r[k]
    {
      if k > 0 {
        assert pkgs[i..e][k] == pkgs[i + 1..e][k - 1];
      }
    }
  }

  /** The first package from index i on whose `pacstrap` exits non-zero. */
  function FirstFailure(pkgs: seq<string>, i: nat, out: string -> Proc): (r: Option<nat>)
    requires i <= |pkgs|
    ensures r.Some? ==> i <= r.value < |pkgs| && out(pkgs[r.value]).exitCode != 0
    ensures forall j :: i <= j < (if r.Some? then r.value else |pkgs|) ==> out(pkgs[j]).exitCode == 0
    decreases |pkgs| - i
  {
    if i == |pkgs| then None
    else if out(pkgs[i]).exitCode != 0 then Some(i)
    else FirstFailure(pkgs, i + 1, out)
  }

  /** Dry-run marks every package and starts no process. */
  lemma {:induction false} DryRunSpawnsNothing(pkgs: seq<string>, i: nat, out: string -> Proc)
    requires i <= |pkgs|
    ensures Spawned(InstallFrom(pkgs, i, true, out).effects) == []
    ensures InstallFrom(pkgs, i, true, out).error == None
    decreases |pkgs| - i
  {
    if i < |pkgs| {
      DryRunSpawnsNothing(pkgs, i + 1, out);
      SpawnedAppend([PackageStatus(pkgs[i], DRY_RUN_STATUS)], InstallFrom(pkgs, i + 1, true, out).effects);
    }
  }

  /** Exactly one `pacstrap -K /mnt <pkg>` per package, in list order, up to and including
      the first package whose process exits non-zero; the error names that package, and
      there is no error exactly when every process exits with 0. */
  lemma {:induction false} InstallSpawnsInOrder(pkgs: seq<string>, i: nat, out: string -> Proc)
    requires i <= |pkgs|
    ensures var r := InstallFrom(pkgs, i, false, out);
      var f := FirstFailure(pkgs, i, out);
      && r.error == (if f.Some? then Some(PackageFailed(pkgs[f.value])) else None)
      && Spawned(r.effects) == PacstrapAll(pkgs[i..if f.Some? then f.value + 1 else |pkgs|])
    decreases |pkgs| - i
  {
    if i < |pkgs| {
      var p := out(pkgs[i]);
      InstallOneSpawns(pkgs[i], p);
      if p.exitCode == 0 {
        InstallSpawnsInOrder(pkgs, i + 1, out);
        var rest := InstallFrom(pkgs, i + 1, false, out);
        SpawnedAppend(InstallOne(pkgs[i], p), rest.effects);
        var e := if FirstFailure(pkgs, i, out).Some? then FirstFailure(pkgs, i, out).value + 1 else |pkgs|;
        PacstrapAllCons(pkgs, i, e);
      } else {
        PacstrapAllCons(pkgs, i, i + 1);
        assert PacstrapAll(pkgs[i + 1..i + 1]) == [];
      }
    }
  }

  /** `install_base_packages` as a whole: never announces a step, and installs every
      package of the list in order until the first failure. */
  lemma InstallBaseShape(kernel: string, gpu: string, wmde: string, dryRun: bool, out: string -> Proc)
    ensures var r := InstallSpec(kernel, gpu, wmde, dryRun, out);
      var pkgs := PackageList(kernel, gpu, wmde);
      var f := FirstFailure(pkgs, 0, out);
      && r.effects[0] == ShowPackages(pkgs)
      && (dryRun ==> Spawned(r.effects) == [] && r.error == None)
      && (!dryRun ==> (r.error == (if f.Some? then Some(PackageFailed(pkgs[f.value])) else None)
                       && Spawned(r.effects) == PacstrapAll(pkgs[..if f.Some? then f.value + 1 else |pkgs|])))
  {
    var pkgs := PackageList(kernel, gpu, wmde);
    var r := InstallFrom(pkgs, 0, dryRun, out);
    SpawnedAppend([ShowPackages(pkgs)], r.effects);
    assert pkgs[0..] == pkgs;
    if dryRun {
      DryRunSpawnsNothing(pkgs, 0, out);
    } else {
      InstallSpawnsInOrder(pkgs, 0, out);
    }
  }

  /** The package step shows no step label of its own. */
  lemma {:induction false} InstallIsQuiet(pkgs: seq<string>, i: nat, dryRun: bool, out: string -> Proc)
    requires i <= |pkgs|
    ensures Quiet(InstallFrom(pkgs, i, dryRun, out).effects)
    decreases |pkgs| - i
  {
    if i < |pkgs| {
      InstallIsQuiet(pkgs, i + 1, dryRun, out);
    }
  }
}
