module Wrappers {
  datatype Option<+T> = None | Some(value: T)
}

/** The observable behaviour of the installer: every shell command, process, file
    write and screen message, in the order it happens.  `utils.run` (which raises
    when the command exits non-zero) is a `Run`; `utils.safe_run` (which never
    raises) is a `SafeRun`; a subprocess whose output is read back is a `Query`. */
module Trace {
  import opened Wrappers
  import opened Text

  datatype Effect =
    | Run(cmd: string)
    | SafeRun(cmd: string)
    | Query(cmd: string)
    | Spawn(argv: seq<string>)
    | Write(path: string, text: string)
    | MakeDirs(path: string)
    | Announce(step: string)
    | ShowPackages(pkgs: seq<string>)
    | PackageStatus(pkg: string, status: string)
    | PackageProgress(pkg: string, done: nat, total: nat)
    | ShowError(message: string)
    | ShowSuccess(message: string)

  /** A shell's non-zero exit status. */
  type ExitStatus = n: int | 1 <= n <= 255 witness 1

  /** The exceptions that escape a step: a failing `run` (`CalledProcessError`, with the
      command's exit status), a failed package, an unreadable file. */
  datatype Error =
    | CommandFailed(cmd: string, status: ExitStatus)
    | PackageFailed(pkg: string)
    | ReadFailed(path: string)

  /** What `subprocess.check_output` gives: the printed text, or the non-zero exit status
      that made it raise `CalledProcessError`. */
  datatype Captured = Printed(text: string) | FailedWith(status: ExitStatus)

  /** What one step did, and the exception it ended with, if any. */
  datatype StepRun = StepRun(effects: seq<Effect>, error: Option<Error>)

  /** `failing` maps each command that exits non-zero to its exit status. */
  predicate Fails(e: Effect, failing: map<string, ExitStatus>) {
    e.Run? && e.cmd in failing
  }

  /** The exception a failing `run` raises. */
  function FailureOf(e: Effect, failing: map<string, ExitStatus>): Error
    requires Fails(e, failing)
  {
    CommandFailed(e.cmd, failing[e.cmd])
  }

  /** Runs a straight-line script: every effect happens in order until the first `run`
      that fails, which raises and ends the script. */
  function Execute(script: seq<Effect>, failing: map<string, ExitStatus>): (r: StepRun)
    ensures |r.effects| <= |script|
  {
    if script == [] then StepRun([], None)
    else if Fails(script[0], failing) then StepRun([script[0]], Some(CommandFailed(script[0].cmd, failing[script[0].cmd])))
    else
      var rest := Execute(script[1..], failing);
      StepRun([script[0]] + rest.effects, rest.error)
  }

  /** What `Execute` promises: a prefix of the script happens; it is all of it exactly when
      no command fails; otherwise it ends with the first failing command, which is the error. */
  lemma {:induction false} ExecuteStopsAtFirstFailure(script: seq<Effect>, failing: map<string, ExitStatus>)
    ensures var r := Execute(script, failing);
      && r.effects == script[..|r.effects|]
      && (r.error.None? <==> (forall i :: 0 <= i < |script| ==> !Fails(script[i], failing)))
      && (r.error.None? ==> r.effects == script)
      && (r.error.Some? ==>
        && r.effects != []
        && Fails(r.effects[|r.effects| - 1], failing)
        && r.error == Some(FailureOf(r.effects[|r.effects| - 1], failing))
        && (forall i :: 0 <= i < |r.effects| - 1 ==> !Fails(r.effects[i], failing)))
  {
    if script != [] && !Fails(script[0], failing) {
      ExecuteStopsAtFirstFailure(script[1..], failing);
      var rest := Execute(script[1..], failing);
      assert forall i :: 1 <= i < |script| ==> script[i] == script[1..][i - 1];
      assert forall i :: 1 <= i < |rest.effects| + 1 ==> ([script[0]] + rest.effects)[i] == rest.effects[i - 1];
    }
  }

  /** A script whose commands all succeed runs to the end, whatever else is failing. */
  lemma {:induction false} ExecuteAppend(a: seq<Effect>, b: seq<Effect>, failing: map<string, ExitStatus>)
    requires forall i :: 0 <= i < |a| ==> !Fails(a[i], failing)
    ensures Execute(a + b, failing) == StepRun(a + Execute(b, failing).effects, Execute(b, failing).error)
  {
    var e := Execute(b, failing);
    if a != [] {
      var ab := a + b;
      assert ab[0] == a[0] && ab[1..] == a[1..] + b;
      assert !Fails(ab[0], failing);
      assert Execute(ab, failing) == StepRun([a[0]] + Execute(a[1..] + b, failing).effects, Execute(a[1..] + b, failing).error);
      ExecuteAppend(a[1..], b, failing);
      assert [a[0]] + (a[1..] + e.effects) == a + e.effects;
    } else {
      assert a + b == b;
    }
  }

  lemma AppendAssoc<T>(a: seq<T>, b: seq<T>, c: seq<T>)
    ensures a + (b + c) == (a + b) + c
  {
  }

  /** A script with no checked `run` never raises, whichever commands fail. */
  lemma ExecuteNoRuns(t: seq<Effect>, failing: map<string, ExitStatus>)
    requires forall i :: 0 <= i < |t| ==> !t[i].Run?
    ensures Execute(t, failing) == StepRun(t, None)
  {
    ExecuteAppend(t, [], failing);
    assert t + [] == t;
  }

  /** A script whose only checked `run` is its last effect runs to the end, and raises exactly
      when that command fails. */
  lemma ExecuteThenRun(a: seq<Effect>, cmd: string, failing: map<string, ExitStatus>)
    requires forall i :: 0 <= i < |a| ==> !a[i].Run?
    ensures Execute(a + [Run(cmd)], failing)
         == StepRun(a + [Run(cmd)], if cmd in failing then Some(CommandFailed(cmd, failing[cmd])) else None)
  {
    ExecuteAppend(a, [Run(cmd)], failing);
    assert [Run(cmd)][1..] == [];
  }

  /** A block of `run` calls whose first `i` commands succeeded: the next one is issued, and
      the block raises right there exactly when it fails. */
  lemma RunAllAt(cmds: seq<string>, i: nat, failing: map<string, ExitStatus>)
    requires i < |cmds|
    requires Execute(RunAll(cmds[..i]), failing) == StepRun(RunAll(cmds[..i]), None)
    ensures RunAll(cmds[..i + 1]) == RunAll(cmds[..i]) + [Run(cmds[i])]
    ensures cmds[i] in failing ==> Execute(RunAll(cmds), failing)
                                   == StepRun(RunAll(cmds[..i + 1]), Some(CommandFailed(cmds[i], failing[cmds[i]])))
    ensures cmds[i] !in failing ==> Execute(RunAll(cmds[..i + 1]), failing) == StepRun(RunAll(cmds[..i + 1]), None)
  {
    var done := RunAll(cmds[..i]);
    var one := [Run(cmds[i])];
    var tail := RunAll(cmds[i + 1..]);
    assert forall j :: 0 <= j < |done| ==> !Fails(done[j], failing) by {
      ExecuteStopsAtFirstFailure(done, failing);
    }
    assert RunAll(cmds[..i + 1]) == done + one;
    assert RunAll(cmds) == done + (one + tail);
    if cmds[i] in failing {
      assert (one + tail)[0] == Run(cmds[i]);
      ExecuteAppend(done, one + tail, failing);
    } else {
      assert one[1..] == [];
      ExecuteAppend(done, one, failing);
    }
  }

  /** The shell commands issued (`run` and `safe_run`), in order. */
  function Commands(t: seq<Effect>): (r: seq<string>)
    ensures |r| <= |t|
  {
    if t == [] then []
    else (if t[0].Run? || t[0].SafeRun? then [t[0].cmd] else []) + Commands(t[1..])
  }

  /** The step labels shown with `show_step`, in order. */
  function Announced(t: seq<Effect>): (r: seq<string>)
    ensures |r| <= |t|
  {
    if t == [] then []
    else (if t[0].Announce? then [t[0].step] else []) + Announced(t[1..])
  }

  lemma {:induction false} CommandsAppend(a: seq<Effect>, b: seq<Effect>)
    ensures Commands(a + b) == Commands(a) + Commands(b)
    decreases |a|
  {
    if a == [] {
      assert a + b == b;
    } else {
      var ab := a + b;
      assert ab[0] == a[0];
      assert ab[1..] == a[1..] + b;
      CommandsAppend(a[1..], b);
    }
  }

  lemma {:induction false} AnnouncedAppend(a: seq<Effect>, b: seq<Effect>)
    ensures Announced(a + b) == Announced(a) + Announced(b)
    decreases |a|
  {
    if a == [] {
      assert a + b == b;
    } else {
      var ab := a + b;
      assert ab[0] == a[0];
      assert ab[1..] == a[1..] + b;
      AnnouncedAppend(a[1..], b);
    }
  }

  /** No step label is shown. */
  predicate Quiet(t: seq<Effect>) {
    forall i :: 0 <= i < |t| ==> !t[i].Announce?
  }

  /** What a quiet script does is quiet, wherever it stops. */
  lemma ExecuteQuiet(script: seq<Effect>, failing: map<string, ExitStatus>)
    requires Quiet(script)
    ensures Quiet(Execute(script, failing).effects)
  {
    ExecuteStopsAtFirstFailure(script, failing);
    var e := Execute(script, failing).effects;
    assert forall i :: 0 <= i < |e| ==> e[i] == script[i];
  }

  lemma QuietAppend(a: seq<Effect>, b: seq<Effect>)
    requires Quiet(a) && Quiet(b)
    ensures Quiet(a + b)
  {
    assert forall i :: |a| <= i < |a| + |b| ==> (a + b)[i] == b[i - |a|];
  }

  /** No shell command is issued. */
  predicate NoCommands(t: seq<Effect>) {
    forall i :: 0 <= i < |t| ==> !t[i].Run? && !t[i].SafeRun?
  }

  lemma {:induction false} QuietAnnouncesNothing(t: seq<Effect>)
    requires Quiet(t)
    ensures Announced(t) == []
  {
    if t != [] {
      QuietAnnouncesNothing(t[1..]);
    }
  }

  lemma {:induction false} NoCommandsIssued(t: seq<Effect>)
    requires NoCommands(t)
    ensures Commands(t) == []
  {
    if t != [] {
      NoCommandsIssued(t[1..]);
    }
  }

  /** The runs of a script whose effects are only `run` commands are its commands. */
  lemma {:induction false} CommandsOfRuns(cmds: seq<string>)
    ensures Commands(RunAll(cmds)) == cmds
  {
    if cmds != [] {
      assert RunAll(cmds)[1..] == RunAll(cmds[1..]);
      CommandsOfRuns(cmds[1..]);
    }
  }

  /** A straight-line block of `run(...)` calls. */
  function RunAll(cmds: seq<string>): (r: seq<Effect>)
    ensures |r| == |cmds| && forall i :: 0 <= i < |cmds| ==> r[i] == Run(cmds[i])
  {
    seq(|cmds|, i requires 0 <= i < |cmds| => Run(cmds[i]))
  }

  lemma RunAllQuiet(cmds: seq<string>)
    ensures Quiet(RunAll(cmds))
  {
  }

  /** The text of a caught exception, as `str(e)` prints it (a command killed by a signal has
      a different text, see README). */
  function ErrorText(e: Error): string {
    match e
    case CommandFailed(cmd, status) => "Command '" + cmd + "' returned non-zero exit status " + NatToString(status) + "."
    case PackageFailed(pkg) => "Failed to install package: " + pkg
    case ReadFailed(path) => "[Errno 2] No such file or directory: '" + path + "'"
  }
}
