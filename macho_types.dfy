/** The records and constants of src/macho.h, with the on-disk size of each
    record as the decoders in src/macho.c consume it. */
module MachOTypes {
  import opened FileIO

  // CPU type codes (the index into the label table of get_cpu_type).
  const MACHO_VAX: u32 := 0x01
  const MACHO_ROMP: u32 := 0x02
  const MACHO_NS32032: u32 := 0x04
  const MACHO_NS32332: u32 := 0x05
  const MACHO_MC680X0: u32 := 0x06
  const MACHO_X86: u32 := 0x07
  const MACHO_MIPS: u32 := 0x08
  const MACHO_NS32352: u32 := 0x09
  const MACHO_MC98000: u32 := 0x0a
  const MACHO_HP_PA: u32 := 0x0b
  const MACHO_ARM: u32 := 0x0c
  const MACHO_MC88000: u32 := 0x0d
  const MACHO_SPARC: u32 := 0x0e
  const MACHO_I860_BE: u32 := 0x0f
  const MACHO_I860_LE: u32 := 0x10
  const MACHO_RS6000: u32 := 0x11
  const MACHO_POWERPC: u32 := 0x12

  /** The flag of cpu_type that marks a 64-bit architecture. */
  const CPU_ARCH_ABI64: u32 := 0x0100_0000

  /** The two magic numbers macho_read_header accepts. */
  const MH_MAGIC: u32 := 0xfeed_face
  const MH_MAGIC_64: u32 := 0xfeed_facf

  // Load-command tags the dispatcher recognises.
  const LC_SEGMENT: u32 := 0x01
  const LC_SYMTAB: u32 := 0x02
  const LC_DYSYMTAB: u32 := 0x0b
  const LC_SEGMENT_64: u32 := 0x19
  const LC_BUILD_VERSION: u32 := 0x32

  /** MachoHeader. `reserved` is only read for the 64-bit magic and stays 0 otherwise. */
  datatype Header = Header(
    magic: u32, cpuType: u32, cpuSubtype: u32, fileType: u32,
    loadCommandCount: u32, loadCommandSize: u32, flags: u32, reserved: u32)

  /** MachoLoadCommand: the tag and the total size including these 8 bytes. */
  datatype LoadCommand = LoadCommand(tag: u32, size: u32)

  /** MachoSegmentLoad. The name is the raw 16-byte buffer, NUL padding and all. */
  datatype SegmentLoad = SegmentLoad(
    name: seq<byte>, address: u64, addressSize: u64, fileOffset: u64, fileSize: u64,
    protectionMax: u32, protectionInitial: u32, sectionCount: u32, flag: u32)

  /** MachoSection, with both 16-byte names kept raw. */
  datatype Section = Section(
    sectionName: seq<byte>, segmentName: seq<byte>, address: u64, size: u64,
    offset: u32, align: u32, relocationOffset: u32, relocationCount: u32,
    flags: u32, reserved1: u32, reserved2: u32, reserved3: u32)

  /** MachoSymtab: where the symbol and string tables lie in the file. */
  datatype Symtab = Symtab(
    symbolTableOffset: u32, symbolCount: u32, stringTableOffset: u32, stringTableSize: u32)

  /** MachoSymbol (`type` is a Dafny keyword, hence `symbolType`). */
  datatype Symbol = Symbol(stringIndex: u32, symbolType: u8, section: u8, desc: u16, value: u64)

  /** MachoDysymtab: eighteen 32-bit fields. */
  datatype Dysymtab = Dysymtab(
    localSymIndex: u32, localSymCount: u32,
    externalSymIndex: u32, externalSymCount: u32,
    undefinedSymIndex: u32, undefinedSymCount: u32,
    tocOffset: u32, tocCount: u32,
    modTableOffset: u32, modCount: u32,
    refSymOffset: u32, refSymCount: u32,
    indirectSymIndex: u32, indirectSymCount: u32,
    externalRelocOffset: u32, externalRelocCount: u32,
    localRelocOffset: u32, localRelocCount: u32)

  /** Bytes of an address-sized field: the decoders test `bits == 32` and
      read 64 bits otherwise. */
  function WordSize(bits: int): nat
  {
    if bits == 32 then 4 else 8
  }

  /** Bytes macho_read_header consumes after accepting `magic`. */
  function HeaderSize(magic: u32): nat
  {
    if magic == MH_MAGIC_64 then 32 else 28
  }

  const LOAD_COMMAND_SIZE: nat := 8

  /** 16-byte name, four address-sized fields, four 32-bit fields. */
  function SegmentLoadSize(bits: int): nat
  {
    16 + 4 * WordSize(bits) + 16
  }

  /** Two 16-byte names, two address-sized fields, eight 32-bit fields
      (reserved3 is read for both widths). */
  function SectionSize(bits: int): nat
  {
    32 + 2 * WordSize(bits) + 32
  }

  const SYMTAB_SIZE: nat := 16

  /** string_index, type, section, desc, then an address-sized value. */
  function SymbolSize(bits: int): nat
  {
    4 + 1 + 1 + 2 + WordSize(bits)
  }

  const DYSYMTAB_SIZE: nat := 72

  /** The sizes the two widths give, as the layouts above add up. */
  lemma RecordSizes()
    ensures SegmentLoadSize(32) == 48 && SegmentLoadSize(64) == 64
    ensures SectionSize(32) == 72 && SectionSize(64) == 80
    ensures SymbolSize(32) == 12 && SymbolSize(64) == 16
    ensures HeaderSize(MH_MAGIC) == 28 && HeaderSize(MH_MAGIC_64) == 32
  {
  }
}
