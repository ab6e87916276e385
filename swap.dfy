/** `SwapManager.setup_swapfile`: a swap file on the new root, enabled through fstab. */
module Swap {
  import opened Text
  import opened Trace

  /** The size used when none is given, in MiB. */
  const DEFAULT_SWAP_MB: nat := 2048

  function DdCommand(sizeMb: nat): string {
    "dd if=/dev/zero of=/mnt/swapfile bs=1M count=" + NatToString(sizeMb) + " status=progress"
  }


  const CHMOD_COMMAND := "chmod 600 /mnt/swapfile"
  const MKSWAP_COMMAND := "mkswap /mnt/swapfile"
  const FSTAB_LINE := "/swapfile none swap defaults 0 0"

  function FstabCommand(): string {
    "echo '" + FSTAB_LINE + "' >> /mnt/etc/fstab"
  }

  function SwapCommands(sizeMb: nat): seq<string> {
    [DdCommand(sizeMb), CHMOD_COMMAND, MKSWAP_COMMAND, FstabCommand()]
  }

  function SwapScript(sizeMb: nat): seq<Effect> {
    RunAll(SwapCommands(sizeMb))
  }

  /** Four commands in order: the file is created, made private before it is formatted as
      swap, and only then registered in fstab. */
  lemma SwapOrder(sizeMb: nat)
    ensures var cmds := Commands(SwapScript(sizeMb));
      && cmds == [DdCommand(sizeMb), CHMOD_COMMAND, MKSWAP_COMMAND, FstabCommand()]
      && cmds[1] != cmds[2]
    ensures sizeMb == DEFAULT_SWAP_MB ==>
      Commands(SwapScript(sizeMb))[0] == "dd if=/dev/zero of=/mnt/swapfile bs=1M count=2048 status=progress"
  {
    CommandsOfRuns(SwapCommands(sizeMb));
    assert CHMOD_COMMAND[0] != MKSWAP_COMMAND[0];
  }

  lemma {:induction false} NatToStringLong(n: nat)
    requires n >= 10
    ensures |NatToString(n)| >= 2
  {
  }

  /** Different numbers print differently. */
  lemma {:induction false} NatToStringInjective(a: nat, b: nat)
    requires NatToString(a) == NatToString(b)
    ensures a == b
    decreases a
  {
    var s := NatToString(a);
    if a < 10 && b < 10 {
      assert Digit(a) == s[0] == Digit(b);
    } else if a < 10 {
      NatToStringLong(b);
    } else if b < 10 {
      NatToStringLong(a);
    } else {
      var pa, pb := NatToString(a / 10), NatToString(b / 10);
      assert s == pa + [Digit(a % 10)] && s == pb + [Digit(b % 10)];
      assert Digit(a % 10) == s[|s| - 1] == Digit(b % 10);
      assert pa == s[..|s| - 1] == pb;
      NatToStringInjective(a / 10, b / 10);
    }
  }

  /** The `dd` block count is the requested size: different sizes give different commands. */
  lemma DdCountIsSize(a: nat, b: nat)
    ensures DdCommand(a) == DdCommand(b) <==> a == b
  {
    var pre := "dd if=/dev/zero of=/mnt/swapfile bs=1M count=";
    if DdCommand(a) == DdCommand(b) {
      var sa, sb := NatToString(a), NatToString(b);
      var da, db := DdCommand(a), DdCommand(b);
      assert da == pre + sa + " status=progress" && db == pre + sb + " status=progress";
      assert |sa| == |sb|;
      assert sa == da[|pre|..|pre| + |sa|];
      assert sb == db[|pre|..|pre| + |sb|];
      NatToStringInjective(a, b);
    }
  }
}
