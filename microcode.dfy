/** `MicrocodeManager`: which vendor's microcode the CPU needs, and installing it. */
module Microcode {
  import opened Wrappers
  import opened Text

  const INTEL_VENDOR := "GenuineIntel"
  const AMD_VENDOR := "AuthenticAMD"

  /** `detect_cpu_type` over the text of `/proc/cpuinfo` (`None` when it cannot be read):
      the Intel vendor string is tested first, so it wins when both occur. */
  function DetectCpuType(cpuinfo: Option<string>): (r: Option<string>)
    ensures r == Some("intel") <==> cpuinfo.Some? && Contains(cpuinfo.value, INTEL_VENDOR)
    ensures r == Some("amd") <==>
      cpuinfo.Some? && !Contains(cpuinfo.value, INTEL_VENDOR) && Contains(cpuinfo.value, AMD_VENDOR)
    ensures r.None? <==>
      cpuinfo.None? || (!Contains(cpuinfo.value, INTEL_VENDOR) && !Contains(cpuinfo.value, AMD_VENDOR))
  {
    match cpuinfo
    case None => None
    case Some(info) =>
      if Contains(info, INTEL_VENDOR) then Some("intel")
      else if Contains(info, AMD_VENDOR) then Some("amd")
      else None
  }

  /** What `add_microcode` does: the `pacstrap` commands it runs and the image it returns. */
  datatype MicrocodeChoice = MicrocodeChoice(commands: seq<string>, file: Option<string>)

  function AddMicrocode(cpuinfo: Option<string>): (r: MicrocodeChoice)
    ensures DetectCpuType(cpuinfo) == Some("intel") ==>
      r == MicrocodeChoice(["pacstrap /mnt intel-ucode"], Some("intel-ucode.img"))
    ensures DetectCpuType(cpuinfo) == Some("amd") ==>
      r == MicrocodeChoice(["pacstrap /mnt amd-ucode"], Some("amd-ucode.img"))
    ensures DetectCpuType(cpuinfo).None? ==> r == MicrocodeChoice([], None)
  {
    var cpu := DetectCpuType(cpuinfo);
    if cpu == Some("intel") then MicrocodeChoice(["pacstrap /mnt intel-ucode"], Some("intel-ucode.img"))
    else if cpu == Some("amd") then MicrocodeChoice(["pacstrap /mnt amd-ucode"], Some("amd-ucode.img"))
    else MicrocodeChoice([], None)
  }

  /** Python truthiness of `microcode_file`. */
  predicate HasMicrocode(file: Option<string>) {
    file.Some? && file.value != []
  }

  /** An image is handed to the bootloader exactly when one package was installed for it,
      and that happens exactly when a vendor string was found. */
  lemma MicrocodeOnlyWhenInstalled(cpuinfo: Option<string>)
    ensures var r := AddMicrocode(cpuinfo);
      && (HasMicrocode(r.file) <==> |r.commands| == 1)
      && (r.file.Some? <==> DetectCpuType(cpuinfo).Some?)
      && |r.commands| <= 1
  {
  }

  /** A CPU that reports both vendor strings is treated as Intel. */
  lemma IntelWins(a: string, b: string, c: string)
    ensures DetectCpuType(Some(a + INTEL_VENDOR + b + AMD_VENDOR + c)) == Some("intel")
    ensures DetectCpuType(Some(a + AMD_VENDOR + b + INTEL_VENDOR + c)) == Some("intel")
  {
    ContainsInfix(a, INTEL_VENDOR, b + AMD_VENDOR + c);
    assert a + INTEL_VENDOR + b + AMD_VENDOR + c == a + INTEL_VENDOR + (b + AMD_VENDOR + c);
    ContainsInfix(a + AMD_VENDOR + b, INTEL_VENDOR, c);
  }
}
