/** `DiskManager`: parsing the `lsblk` listing, the mount check, unmounting, the GPT
    partitioning commands and the format-and-mount commands. */
module Disk {
  import opened Wrappers
  import opened Text
  import opened Trace

  const LIST_COMMAND := "lsblk -d -n -o NAME,SIZE,TYPE"

  /** A listing line is kept when it has at least three fields and the third is "disk". */
  predicate IsDiskLine(fields: seq<string>) {
    |fields| >= 3 && fields[2] == "disk"
  }

  /** "/dev/NAME (SIZE)". */
  function DiskLabel(name: string, size: string): string {
    "/dev/" + name + " (" + size + ")"
  }

  /** What one listing line, split into fields, contributes to the disk list: its label,
      or nothing. */
  function RowLabels(fields: seq<string>): (r: seq<string>)
    ensures |r| <= 1
    ensures r != [] <==> IsDiskLine(fields)
  {
    if IsDiskLine(fields) then [DiskLabel(fields[0], fields[1])] else []
  }

  /** The labels of the kept rows, in their order. */
  function Labels(rows: seq<seq<string>>): (r: seq<string>)
    ensures |r| <= |rows|
  {
    if rows == [] then [] else Labels(rows[..|rows| - 1]) + RowLabels(rows[|rows| - 1])
  }

  /** Each listing line split on whitespace, as `line.split()` does. */
  function Rows(lines: seq<string>): (r: seq<seq<string>>)
    ensures |r| == |lines|
  {
    seq(|lines|, i requires 0 <= i < |lines| => SplitWs(lines[i]))
  }

  /** The filter-map keeps the order of the lines: the labels of a concatenation are the
      concatenation of the labels. */
  lemma {:induction false} LabelsAppend(a: seq<seq<string>>, b: seq<seq<string>>)
    ensures Labels(a + b) == Labels(a) + Labels(b)
    decreases |b|
  {
    if b == [] {
      assert a + b == a;
    } else {
      var b0 := b[..|b| - 1];
      assert (a + b)[..|a + b| - 1] == a + b0;
      assert (a + b)[|a + b| - 1] == b[|b| - 1];
      LabelsAppend(a, b0);
    }
  }

  lemma LabelsOne(row: seq<string>)
    ensures Labels([row]) == RowLabels(row)
  {
    assert [row][..0] == [];
  }

  lemma LabelsSnoc(rows: seq<seq<string>>, i: nat)
    requires i < |rows|
    ensures Labels(rows[..i + 1]) == Labels(rows[..i]) + RowLabels(rows[i])
  {
    assert rows[..i + 1][..i] == rows[..i];
  }

  lemma LabelsWhole(rows: seq<seq<string>>)
    ensures Labels(rows[..|rows|]) == Labels(rows)
  {
    assert rows[..|rows|] == rows;
  }

  /** The loop of `list_disks` over the listing lines: a filter-map in line order. */
  method CollectDisks(lines: seq<string>) returns (disks: seq<string>)
    ensures disks == Labels(Rows(lines))
  {
    ghost var rows := Rows(lines);
    disks := [];
    for i := 0 to |lines|
      invariant disks == Labels(rows[..i])
    {
      var parts := SplitWs(lines[i]);
      assert parts == rows[i];
      if |parts| >= 3 && parts[2] == "disk" {
        disks := disks + [DiskLabel(parts[0], parts[1])];
      }
      LabelsSnoc(rows, i);
    }
    LabelsWhole(rows);
  }

  /** `list_disks`, given the text that `lsblk -d -n -o NAME,SIZE,TYPE` printed. */
  method ListDisks(out: string) returns (disks: seq<string>)
    ensures disks == Labels(Rows(SplitOn(Strip(out), '\n')))
  {
    disks := CollectDisks(SplitOn(Strip(out), '\n'));
  }

  /** The first whitespace-separated token of a label is the device path, which is how the
      installer recovers the disk from the chosen menu option. */
  lemma LabelDevice(name: string, size: string)
    requires name != [] && NoSpace(name)
    ensures SplitWs(DiskLabel(name, size)) != []
    ensures SplitWs(DiskLabel(name, size))[0] == "/dev/" + name
  {
    var dev := "/dev/" + name;
    assert NoSpace(dev);
    assert DiskLabel(name, size) == dev + (" (" + size + ")");
    SplitWsWord(dev, " (" + size + ")");
  }

  /** Every label in a disk list is built from a non-empty, space-free first field, so
      `label.split()[0]` is its device path (see `LabelDevice`). */
  lemma {:induction false} LabelsDevices(rows: seq<seq<string>>)
    requires forall i :: 0 <= i < |rows| ==> forall k :: 0 <= k < |rows[i]| ==> rows[i][k] != [] && NoSpace(rows[i][k])
    ensures forall k :: 0 <= k < |Labels(rows)| ==>
      exists name, size :: name != [] && NoSpace(name) && Labels(rows)[k] == DiskLabel(name, size)
    decreases |rows|
  {
    if rows != [] {
      var init := rows[..|rows| - 1];
      LabelsDevices(init);
      var parts := rows[|rows| - 1];
      var r := Labels(rows);
      var ri := Labels(init);
      assert r == ri + RowLabels(parts);
      forall k | 0 <= k < |r|
        ensures exists name, size :: name != [] && NoSpace(name) && r[k] == DiskLabel(name, size)
      {
        if k < |ri| {
          assert r[k] == ri[k];
        } else {
          assert r[k] == DiskLabel(parts[0], parts[1]);
          assert parts[0] != [] && NoSpace(parts[0]);
        }
      }
      assert forall k :: 0 <= k < |Labels(rows)| ==>
        exists name, size :: name != [] && NoSpace(name) && Labels(rows)[k] == DiskLabel(name, size);
    } else {
      assert |Labels(rows)| == 0;
    }
  }

  /** The rows of a listing are `split()` fields: non-empty and without whitespace. */
  lemma RowsAreFields(lines: seq<string>)
    ensures forall i :: 0 <= i < |Rows(lines)| ==>
      forall k :: 0 <= k < |Rows(lines)[i]| ==> Rows(lines)[i][k] != [] && NoSpace(Rows(lines)[i][k])
  {
    forall i | 0 <= i < |lines| {
      SplitWsFields(lines[i]);
    }
  }

  function MountCheckCommand(disk: string): string {
    "mount | grep " + disk
  }

  /** Some line contains `pat`: what makes `grep pat` exit with 0. */
  predicate AnyLineContains(lines: seq<string>, pat: string)
    decreases |lines|
  {
    lines != [] && (Contains(lines[0], pat) || AnyLineContains(lines[1..], pat))
  }

  /** `is_disk_mounted`: `mount | grep disk` succeeds when `grep` finds the disk in the mount
      table. `mounts` is the table's lines, or None when starting the pipeline raised. */
  predicate IsDiskMounted(mounts: Option<seq<string>>, disk: string) {
    mounts.Some? && AnyLineContains(mounts.value, disk)
  }

  lemma {:induction false} AnyLineContainsIff(lines: seq<string>, pat: string)
    ensures AnyLineContains(lines, pat) <==> exists i :: 0 <= i < |lines| && Contains(lines[i], pat)
    decreases |lines|
  {
    if lines != [] {
      AnyLineContainsIff(lines[1..], pat);
      assert forall i :: 1 <= i < |lines| ==> lines[i] == lines[1..][i - 1];
      if AnyLineContains(lines[1..], pat) {
        var j :| 0 <= j < |lines[1..]| && Contains(lines[1..][j], pat);
        assert Contains(lines[j + 1], pat);
      }
    }
  }

  /** The disk counts as mounted exactly when some line of the mount table names it; when the
      check cannot be started it counts as not mounted. */
  lemma MountedIffListed(mounts: Option<seq<string>>, disk: string)
    ensures IsDiskMounted(mounts, disk) <==>
      mounts.Some? && exists i :: 0 <= i < |mounts.value| && Contains(mounts.value[i], disk)
    ensures mounts.Some? && |mounts.value| > 0 && Contains(mounts.value[|mounts.value| - 1], disk) ==> IsDiskMounted(mounts, disk)
  {
    if mounts.Some? {
      AnyLineContainsIff(mounts.value, disk);
    }
  }

  function MountPointQuery(disk: string): string {
    "lsblk -ln -o MOUNTPOINTS " + disk + " | grep -v '^$'"
  }

  function UmountCommand(target: string): string {
    "umount -f " + target
  }

  function FinalUmount(disk: string): string {
    "umount -f " + disk + "* 2>/dev/null || true"
  }

  /** The mount points reported by a successful query. */
  function MountPoints(result: Option<(int, string)>): seq<string> {
    if result.Some? && result.value.0 == 0 then SplitOn(Strip(result.value.1), '\n') else []
  }

  /** The `umount -f` for each non-empty entry. */
  function UmountEach(mps: seq<string>): (r: seq<Effect>)
    ensures |r| <= |mps|
    ensures forall k :: 0 <= k < |r| ==> r[k].SafeRun?
  {
    if mps == [] then []
    else
      var last := mps[|mps| - 1];
      UmountEach(mps[..|mps| - 1]) + (if last != [] then [SafeRun(UmountCommand(last))] else [])
  }

  /** Reference behaviour of `unmount_disk`: the query, one `safe_run` per reported mount
      point, and the final catch-all. */
  function UnmountScript(disk: string, result: Option<(int, string)>): seq<Effect> {
    [Query(MountPointQuery(disk))] + UmountEach(MountPoints(result)) + [SafeRun(FinalUmount(disk))]
  }

  /** `unmount_disk`; `result` is the exit code and output of the mount-point query, or
      None when running it raised. */
  method UnmountDisk(disk: string, result: Option<(int, string)>) returns (effects: seq<Effect>)
    ensures effects == UnmountScript(disk, result)
  {
    effects := [Query(MountPointQuery(disk))];
    var mps: seq<string> := [];
    if result.Some? && result.value.0 == 0 {
      mps := SplitOn(Strip(result.value.1), '\n');
    }
    for i := 0 to |mps|
      invariant effects == [Query(MountPointQuery(disk))] + UmountEach(mps[..i])
    {
      if mps[i] != [] {
        effects := effects + [SafeRun(UmountCommand(mps[i]))];
      }
      assert mps[..i + 1][..i] == mps[..i];
    }
    assert mps[..|mps|] == mps;
    effects := effects + [SafeRun(FinalUmount(disk))];
  }

  /** The unmount commands are exactly the non-empty mount points, in order. */
  function NonEmpty(mps: seq<string>): (r: seq<string>)
    ensures |r| <= |mps|
    ensures forall k :: 0 <= k < |r| ==> r[k] != []
  {
    if mps == [] then []
    else NonEmpty(mps[..|mps| - 1]) + (if mps[|mps| - 1] != [] then [mps[|mps| - 1]] else [])
  }

  lemma {:induction false} UmountEachCommands(mps: seq<string>)
    ensures Commands(UmountEach(mps)) == UmountAll(NonEmpty(mps))
    decreases |mps|
  {
    if mps != [] {
      var init := mps[..|mps| - 1];
      UmountEachCommands(init);
      var last := if mps[|mps| - 1] != [] then [SafeRun(UmountCommand(mps[|mps| - 1]))] else [];
      CommandsAppend(UmountEach(init), last);
      if last != [] {
        assert Commands(last) == [UmountCommand(mps[|mps| - 1])] by {
          assert last[1..] == [];
        }
      }
    }
  }

  function UmountAll(mps: seq<string>): (r: seq<string>)
    ensures |r| == |mps|
  {
    seq(|mps|, k requires 0 <= k < |mps| => UmountCommand(mps[k]))
  }

  /** `unmount_disk` issues one `umount -f` per non-empty mount point, in order, and then
      the final `umount -f disk*`. */
  lemma UnmountCommands(disk: string, result: Option<(int, string)>)
    ensures Commands(UnmountScript(disk, result)) == UmountAll(NonEmpty(MountPoints(result))) + [FinalUmount(disk)]
  {
    var each := UmountEach(MountPoints(result));
    var q := [Query(MountPointQuery(disk))];
    var f := [SafeRun(FinalUmount(disk))];
    UmountEachCommands(MountPoints(result));
    CommandsAppend(q, each);
    CommandsAppend(q + each, f);
    assert Commands(f) == [FinalUmount(disk)] by {
      assert f[1..] == [];
    }
    assert Commands(q) == [] by {
      assert q[1..] == [];
    }
  }

  /** `unmount_disk` issues no checked `run`, so it never raises, whichever commands fail. */
  lemma UnmountNeverRaises(disk: string, result: Option<(int, string)>, failing: map<string, ExitStatus>)
    ensures Execute(UnmountScript(disk, result), failing) == StepRun(UnmountScript(disk, result), None)
  {
    var each := UmountEach(MountPoints(result));
    var s := UnmountScript(disk, result);
    forall i | 0 <= i < |s|
      ensures !s[i].Run?
    {
      if 0 < i <= |each| {
        assert s[i] == each[i - 1];
      }
    }
    ExecuteNoRuns(s, failing);
  }

  /** `partition_disk`: wipe, zap, fresh GPT, a 1 GiB EFI system partition, the rest Linux. */
  function PartitionCommands(disk: string): seq<string> {
    ["wipefs -a " + disk,
     "sgdisk -Z " + disk,
     "sgdisk -o " + disk,
     "sgdisk -n 1:0:+1G -t 1:ef00 " + disk,
     "sgdisk -n 2:0:0 -t 2:8300 " + disk]
  }

  function PartitionScript(disk: string): seq<Effect> {
    RunAll(PartitionCommands(disk))
  }

  /** The (EFI, root) partition paths `partition_disk` returns. */
  function PartitionNames(disk: string): (r: (string, string))
    ensures r.0 == disk + "1" && r.1 == disk + "2"
    ensures r.0 != r.1
  {
    assert (disk + "1")[|disk|] != (disk + "2")[|disk|];
    (disk + "1", disk + "2")
  }

  /** `format_and_mount`. */
  function FormatCommands(efi: string, root: string): seq<string> {
    ["mkfs.fat -F32 " + efi,
     "mkfs.ext4 -F " + root,
     "mount " + root + " /mnt",
     "mkdir -p /mnt/boot",
     "mount " + efi + " /mnt/boot"]
  }

  function FormatScript(efi: string, root: string): seq<Effect> {
    RunAll(FormatCommands(efi, root))
  }

  /** Partitioning creates partition 1 as the EFI system partition and 2 as the Linux root,
      in that order, after the old tables are wiped; the paths returned end in those numbers. */
  lemma PartitionLayout(disk: string)
    ensures var cmds := Commands(PartitionScript(disk));
      && cmds == ["wipefs -a " + disk, "sgdisk -Z " + disk, "sgdisk -o " + disk,
                  "sgdisk -n 1:0:+1G -t 1:ef00 " + disk, "sgdisk -n 2:0:0 -t 2:8300 " + disk]
      && PartitionNames(disk).0[|disk|] == '1' && PartitionNames(disk).1[|disk|] == '2'
  {
    CommandsOfRuns(PartitionCommands(disk));
  }

  /** Formatting comes before mounting; root is mounted on /mnt before /mnt/boot is created
      on it, and only then is the EFI partition mounted at /mnt/boot. */
  lemma FormatOrder(efi: string, root: string)
    ensures var cmds := Commands(FormatScript(efi, root));
      && |cmds| == 5
      && cmds[0] == "mkfs.fat -F32 " + efi && cmds[1] == "mkfs.ext4 -F " + root
      && cmds[2] == "mount " + root + " /mnt"
      && cmds[3] == "mkdir -p /mnt/boot"
      && cmds[4] == "mount " + efi + " /mnt/boot"
  {
    CommandsOfRuns(FormatCommands(efi, root));
  }
}
