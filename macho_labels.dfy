/** The code-to-label lookups of src/macho.c (get_cpu_type, get_cpu_subtype,
    get_file_type and their helpers). Each lookup is total: a code outside its
    table falls back to "???" (or to "" for a CPU type without subtypes). */
module MachOLabels {
  import opened FileIO
  import opened MachOTypes

  const UNKNOWN: string := "???"

  /** Names indexed by CPU type; entries 0 and 3 are not assigned. */
  const CPU_TYPE_NAMES: seq<string> := [
    "???", "VAX", "ROMP", "???", "NS32032", "NS32332", "MC680x0", "x86", "MIPS",
    "NS32352", "MC98000", "HP-PA", "ARM", "MC88000", "SPARC", "I860/BE", "I860/LE",
    "RS/6000", "PowerPC"]

  const ARM_SUBTYPE_NAMES: seq<string> := [
    "All ARM processors.",
    "Optimized for ARM-A500 ARCH or newer.",
    "Optimized for ARM-A500 or newer.",
    "Optimized for ARM-A440 or newer.",
    "Optimized for ARM-M4 or newer.",
    "Optimized for ARM-V4T or newer.",
    "Optimized for ARM-V6 or newer.",
    "Optimized for ARM-V5TEJ or newer.",
    "Optimized for ARM-XSCALE or newer.",
    "Optimized for ARM-V7 or newer.",
    "Optimized for ARM-V7F (Cortex A9) or newer.",
    "Optimized for ARM-V7S (Swift) or newer.",
    "Optimized for ARM-V7K (Kirkwood40) or newer.",
    "Optimized for ARM-V8 or newer.",
    "Optimized for ARM-V6M or newer.",
    "Optimized for ARM-V7M or newer.",
    "Optimized for ARM-V7EM or newer."]

  /** Names indexed by file type; entry 0 is not assigned. */
  const FILE_TYPE_NAMES: seq<string> := [
    "???",
    "Relocatable object",
    "Demand paged executable",
    "Fixed VM shared library",
    "Core",
    "Preloaded executable",
    "Dynamically bound shared library",
    "Dynamic link editor",
    "Dynamically bound bundle",
    "Shared library stub for static linking",
    "Companion file with only debug sections",
    "x86_64 kexts",
    "Composite MachOs"]

  /** The CPU types macho.h names. */
  const KNOWN_CPU_TYPES: set<u32> := {
    MACHO_VAX, MACHO_ROMP, MACHO_NS32032, MACHO_NS32332, MACHO_MC680X0, MACHO_X86,
    MACHO_MIPS, MACHO_NS32352, MACHO_MC98000, MACHO_HP_PA, MACHO_ARM, MACHO_MC88000,
    MACHO_SPARC, MACHO_I860_BE, MACHO_I860_LE, MACHO_RS6000, MACHO_POWERPC}

  /** The fourteen x86 subtype codes get_cpu_subtype_x86 recognises. */
  const X86_SUBTYPE_CODES: set<u32> := {
    0x03, 0x04, 0x84, 0x56, 0x67, 0x77, 0x08, 0x18, 0x28, 0x0a, 0x0b, 0x1b, 0x0c, 0x1c}

  /** Whether the 64-bit flag (bit 24) of a CPU type is set. */
  predicate IsAbi64(cpuType: u32)
  {
    (cpuType / CPU_ARCH_ABI64) % 2 == 1
  }

  /** The CPU type with the 64-bit flag cleared. */
  function ClearAbi64(cpuType: u32): (base: u32)
    ensures !IsAbi64(base)
    ensures base == cpuType || base + CPU_ARCH_ABI64 == cpuType
  {
    if IsAbi64(cpuType) then cpuType - CPU_ARCH_ABI64 else cpuType
  }

  /** get_cpu_type: the name of the CPU family, whatever the 64-bit flag;
      "???" exactly for the codes macho.h does not name. */
  function CpuTypeLabel(cpuType: u32): (name: string)
    ensures name == UNKNOWN <==> ClearAbi64(cpuType) !in KNOWN_CPU_TYPES
  {
    var index := ClearAbi64(cpuType);
    if index >= |CPU_TYPE_NAMES| as u32 then UNKNOWN else CPU_TYPE_NAMES[index]
  }

  /** get_cpu_subtype_arm: "???" exactly past the end of the table. */
  function ArmSubtypeLabel(cpuSubtype: u32): (name: string)
    ensures name == UNKNOWN <==> cpuSubtype >= 17
    ensures name in ARM_SUBTYPE_NAMES || name == UNKNOWN
  {
    if cpuSubtype >= |ARM_SUBTYPE_NAMES| as u32 then UNKNOWN else ARM_SUBTYPE_NAMES[cpuSubtype]
  }

  /** get_cpu_subtype_x86: only the fourteen exact codes have a name. */
  function X86SubtypeLabel(cpuSubtype: u32): (name: string)
    ensures name == UNKNOWN <==> cpuSubtype !in X86_SUBTYPE_CODES
  {
    match cpuSubtype
    case 0x03 => "All x86 processors."
    case 0x04 => "Optimized for 486 or newer."
    case 0x84 => "Optimized for 486SX or newer."
    case 0x56 => "Optimized for Pentium M5 or newer."
    case 0x67 => "Optimized for Celeron or newer."
    case 0x77 => "Optimized for Celeron Mobile."
    case 0x08 => "Optimized for Pentium 3 or newer."
    case 0x18 => "Optimized for Pentium 3-M or newer."
    case 0x28 => "Optimized for Pentium 3-XEON or newer."
    case 0x0a => "Optimized for Pentium-4 or newer."
    case 0x0b => "Optimized for Itanium or newer."
    case 0x1b => "Optimized for Itanium-2 or newer."
    case 0x0c => "Optimized for XEON or newer."
    case 0x1c => "Optimized for XEON-MP or newer."
    case _ => UNKNOWN
  }

  /** get_cpu_subtype: a subtype label only for exactly ARM or x86; the
      64-bit flag is not cleared, so their 64-bit variants get "". */
  function CpuSubtypeLabel(cpuType: u32, cpuSubtype: u32): (name: string)
    ensures name == "" <==> cpuType != MACHO_ARM && cpuType != MACHO_X86
  {
    if cpuType == MACHO_ARM then ArmSubtypeLabel(cpuSubtype)
    else if cpuType == MACHO_X86 then X86SubtypeLabel(cpuSubtype)
    else ""
  }

  /** get_file_type: "???" for 0 and for every code past the table. */
  function FileTypeLabel(fileType: u32): (name: string)
    ensures name == UNKNOWN <==> fileType == 0 || fileType >= 13
  {
    if fileType >= |FILE_TYPE_NAMES| as u32 then UNKNOWN else FILE_TYPE_NAMES[fileType]
  }

  /** A 64-bit CPU type has the same family name as its 32-bit base, and no
      subtype label, whatever its subtype. */
  lemma Abi64SharesFamilyName(cpuType: u32, cpuSubtype: u32)
    requires !IsAbi64(cpuType) && cpuType + CPU_ARCH_ABI64 < 0x1_0000_0000
    ensures IsAbi64(cpuType + CPU_ARCH_ABI64)
    ensures CpuTypeLabel(cpuType + CPU_ARCH_ABI64) == CpuTypeLabel(cpuType)
    ensures CpuSubtypeLabel(cpuType + CPU_ARCH_ABI64, cpuSubtype) == ""
  {
    assert (cpuType + CPU_ARCH_ABI64) / CPU_ARCH_ABI64 == cpuType / CPU_ARCH_ABI64 + 1;
  }
}
