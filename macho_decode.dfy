/** The record decoders of src/macho.c (macho_read_*). Each decoder is a
    method that reads its record field by field from the Reader; the function
    beside it gives the record's layout, as the value found at a given offset
    of the file, and an encoder with a round-trip lemma shows that the layout
    loses nothing. A decoder that runs out of data yields None (or Truncated),
    where the C reads on past the end and keeps whatever getc returned. */
module MachODecode {
  import opened Wrappers
  import opened FileIO
  import opened MachOTypes

  /** Why a decode stops. */
  datatype Error =
    | NotMachO(magic: u32)     // macho_read_header returned -1
    | Truncated(offset: nat)   // the record starting at `offset` ran past the end of the file

  /** An address-sized field: 32 bits when `bits == 32`, 64 bits otherwise. */
  function WordAt(data: seq<byte>, at: nat, bits: int): (v: u64)
    requires at + WordSize(bits) <= |data|
    ensures bits == 32 ==> v < 0x1_0000_0000
  {
    if bits == 32 then Uint32At(data, at) else Uint64At(data, at)
  }

  /** The `n`-byte little-endian encoding of a field. */
  function Put(v: nat, n: nat): (s: seq<byte>)
    ensures |s| == n
  {
    ToLittleEndian(v, n)
  }

  /** A value an address-sized field of width `bits` can hold. */
  predicate FitsWord(v: nat, bits: int)
  {
    v < 0x1_0000_0000_0000_0000 && (bits == 32 ==> v < 0x1_0000_0000)
  }

  function PutWord(v: u64, bits: int): (s: seq<byte>)
    ensures |s| == WordSize(bits)
  {
    Put(v, WordSize(bits))
  }

  // ---------------------------------------------------------------------------
  // Layouts

  /** What macho_read_header finds at `at`: the magic must be one of the two
      accepted values; the six 32-bit fields follow, then `reserved` for the
      64-bit magic only. */
  function HeaderAt(data: seq<byte>, at: nat): Result<Header, Error>
  {
    if at + 4 > |data| then Err(Truncated(at))
    else
      var magic := Uint32At(data, at);
      if magic != MH_MAGIC && magic != MH_MAGIC_64 then Err(NotMachO(magic))
      else if at + HeaderSize(magic) > |data| then Err(Truncated(at))
      else
        Ok(Header(magic, Uint32At(data, at + 4), Uint32At(data, at + 8), Uint32At(data, at + 12),
                  Uint32At(data, at + 16), Uint32At(data, at + 20), Uint32At(data, at + 24),
                  if magic == MH_MAGIC_64 then Uint32At(data, at + 28) else 0))
  }

  function LoadCommandAt(data: seq<byte>, at: nat): Option<LoadCommand>
  {
    if at + LOAD_COMMAND_SIZE > |data| then None
    else Some(LoadCommand(Uint32At(data, at), Uint32At(data, at + 4)))
  }

  function SegmentLoadAt(data: seq<byte>, at: nat, bits: int): Option<SegmentLoad>
  {
    if at + SegmentLoadSize(bits) > |data| then None
    else
      var w := WordSize(bits);
      var p := at + 16 + 4 * w;
      Some(SegmentLoad(data[at..at + 16],
                       WordAt(data, at + 16, bits), WordAt(data, at + 16 + w, bits),
                       WordAt(data, at + 16 + 2 * w, bits), WordAt(data, at + 16 + 3 * w, bits),
                       Uint32At(data, p), Uint32At(data, p + 4), Uint32At(data, p + 8), Uint32At(data, p + 12)))
  }

  function SectionAt(data: seq<byte>, at: nat, bits: int): Option<Section>
  {
    if at + SectionSize(bits) > |data| then None
    else
      var w := WordSize(bits);
      var p := at + 32 + 2 * w;
      Some(Section(data[at..at + 16], data[at + 16..at + 32],
                   WordAt(data, at + 32, bits), WordAt(data, at + 32 + w, bits),
                   Uint32At(data, p), Uint32At(data, p + 4), Uint32At(data, p + 8), Uint32At(data, p + 12),
                   Uint32At(data, p + 16), Uint32At(data, p + 20), Uint32At(data, p + 24), Uint32At(data, p + 28)))
  }

  function SymtabAt(data: seq<byte>, at: nat): Option<Symtab>
  {
    if at + SYMTAB_SIZE > |data| then None
    else Some(Symtab(Uint32At(data, at), Uint32At(data, at + 4), Uint32At(data, at + 8), Uint32At(data, at + 12)))
  }

  function SymbolAt(data: seq<byte>, at: nat, bits: int): Option<Symbol>
  {
    if at + SymbolSize(bits) > |data| then None
    else Some(Symbol(Uint32At(data, at), data[at + 4], data[at + 5], Uint16At(data, at + 6), WordAt(data, at + 8, bits)))
  }

  function DysymtabAt(data: seq<byte>, at: nat): Option<Dysymtab>
  {
    if at + DYSYMTAB_SIZE > |data| then None
    else
      Some(Dysymtab(
        Uint32At(data, at), Uint32At(data, at + 4), Uint32At(data, at + 8), Uint32At(data, at + 12),
        Uint32At(data, at + 16), Uint32At(data, at + 20), Uint32At(data, at + 24), Uint32At(data, at + 28),
        Uint32At(data, at + 32), Uint32At(data, at + 36), Uint32At(data, at + 40), Uint32At(data, at + 44),
        Uint32At(data, at + 48), Uint32At(data, at + 52), Uint32At(data, at + 56), Uint32At(data, at + 60),
        Uint32At(data, at + 64), Uint32At(data, at + 68)))
  }

  // ---------------------------------------------------------------------------
  // Decoders

  /** The `if (bits == 32) read_uint32 else read_uint64` choice each
      address-sized field makes. */
  method ReadWord(r: Reader, bits: int) returns (v: Option<u64>)
    modifies r
    ensures r.pos == AfterRead(old(r.pos), WordSize(bits), |r.data|)
    ensures v == if old(r.pos) + WordSize(bits) <= |r.data| then Some(WordAt(r.data, old(r.pos), bits)) else None
  {
    if bits == 32 {
      var w := ReadUint32(r);
      v := if w.Some? then Some(w.value as u64) else None;
    } else {
      v := ReadUint64(r);
    }
  }

  /** macho_read_header: reads the magic and rejects anything but the two
      accepted values after those 4 bytes; otherwise reads the six 32-bit
      fields and, for the 64-bit magic, `reserved`. */
  method ReadHeader(r: Reader) returns (h: Result<Header, Error>)
    modifies r
    ensures h == HeaderAt(r.data, old(r.pos))
    ensures h.Ok? ==> r.pos == old(r.pos) + HeaderSize(h.value.magic)
    ensures h.Err? && h.error.NotMachO? ==> r.pos == old(r.pos) + 4
    ensures h.Err? && h.error.Truncated? ==>
      r.pos == if old(r.pos) + 4 <= |r.data| then old(r.pos) + 4 else old(r.pos)
  {
    var start := r.pos;
    if start + 4 > |r.data| {
      return Err(Truncated(start));
    }
    var magic := ReadUint32(r);
    if magic.value != MH_MAGIC && magic.value != MH_MAGIC_64 {
      return Err(NotMachO(magic.value));
    }
    if start + HeaderSize(magic.value) > |r.data| {
      return Err(Truncated(start));
    }
    var cpuType := ReadUint32(r);
    var cpuSubtype := ReadUint32(r);
    var fileType := ReadUint32(r);
    var loadCommandCount := ReadUint32(r);
    var loadCommandSize := ReadUint32(r);
    var flags := ReadUint32(r);
    // 64-bit files carry one more word; otherwise it keeps the 0 of the memset.
    var reserved := 0;
    if magic.value == MH_MAGIC_64 {
      var word := ReadUint32(r);
      reserved := word.value;
    }
    h := Ok(Header(magic.value, cpuType.value, cpuSubtype.value, fileType.value,
                   loadCommandCount.value, loadCommandSize.value, flags.value, reserved));
  }

  /** macho_read_load_command. */
  method ReadLoadCommand(r: Reader) returns (c: Option<LoadCommand>)
    modifies r
    ensures c == LoadCommandAt(r.data, old(r.pos))
    ensures r.pos == if c.Some? then old(r.pos) + LOAD_COMMAND_SIZE else old(r.pos)
  {
    if r.pos + LOAD_COMMAND_SIZE > |r.data| {
      return None;
    }
    var tag := ReadUint32(r);
    var size := ReadUint32(r);
    c := Some(LoadCommand(tag.value, size.value));
  }

  /** macho_read_segment_load: the raw 16-byte name, four fields whose width
      `bits` selects, four 32-bit fields. */
  method ReadSegmentLoad(r: Reader, bits: int) returns (s: Option<SegmentLoad>)
    modifies r
    ensures s == SegmentLoadAt(r.data, old(r.pos), bits)
    ensures r.pos == if s.Some? then old(r.pos) + SegmentLoadSize(bits) else old(r.pos)
  {
    if r.pos + SegmentLoadSize(bits) > |r.data| {
      return None;
    }
    ghost var w := WordSize(bits);
    var name := r.Read(16);
    var address := ReadWord(r, bits);
    assert r.pos == old(r.pos) + 16 + w;
    var addressSize := ReadWord(r, bits);
    assert r.pos == old(r.pos) + 16 + 2 * w;
    var fileOffset := ReadWord(r, bits);
    assert r.pos == old(r.pos) + 16 + 3 * w;
    var fileSize := ReadWord(r, bits);
    assert r.pos == old(r.pos) + 16 + 4 * w;
    var protectionMax := ReadUint32(r);
    var protectionInitial := ReadUint32(r);
    var sectionCount := ReadUint32(r);
    var flag := ReadUint32(r);
    s := Some(SegmentLoad(name.value, address.value, addressSize.value, fileOffset.value, fileSize.value,
                          protectionMax.value, protectionInitial.value, sectionCount.value, flag.value));
  }

  /** macho_read_section: two raw 16-byte names, two fields of width `bits`,
      eight 32-bit fields (reserved3 included whatever the width). */
  method ReadSection(r: Reader, bits: int) returns (s: Option<Section>)
    modifies r
    ensures s == SectionAt(r.data, old(r.pos), bits)
    ensures r.pos == if s.Some? then old(r.pos) + SectionSize(bits) else old(r.pos)
  {
    if r.pos + SectionSize(bits) > |r.data| {
      return None;
    }
    ghost var w := WordSize(bits);
    var sectionName := r.Read(16);
    var segmentName := r.Read(16);
    var address := ReadWord(r, bits);
    assert r.pos == old(r.pos) + 32 + w;
    var size := ReadWord(r, bits);
    assert r.pos == old(r.pos) + 32 + 2 * w;
    var offset := ReadUint32(r);
    var align := ReadUint32(r);
    var relocationOffset := ReadUint32(r);
    var relocationCount := ReadUint32(r);
    var flags := ReadUint32(r);
    var reserved1 := ReadUint32(r);
    var reserved2 := ReadUint32(r);
    var reserved3 := ReadUint32(r);
    s := Some(Section(sectionName.value, segmentName.value, address.value, size.value, offset.value, align.value,
                      relocationOffset.value, relocationCount.value, flags.value,
                      reserved1.value, reserved2.value, reserved3.value));
  }

  /** macho_read_symtab. */
  method ReadSymtab(r: Reader) returns (s: Option<Symtab>)
    modifies r
    ensures s == SymtabAt(r.data, old(r.pos))
    ensures r.pos == if s.Some? then old(r.pos) + SYMTAB_SIZE else old(r.pos)
  {
    if r.pos + SYMTAB_SIZE > |r.data| {
      return None;
    }
    var symbolTableOffset := ReadUint32(r);
    var symbolCount := ReadUint32(r);
    var stringTableOffset := ReadUint32(r);
    var stringTableSize := ReadUint32(r);
    s := Some(Symtab(symbolTableOffset.value, symbolCount.value, stringTableOffset.value, stringTableSize.value));
  }

  /** macho_read_symbol: 4 + 1 + 1 + 2 bytes, then a value of width `bits`. */
  method ReadSymbol(r: Reader, bits: int) returns (s: Option<Symbol>)
    modifies r
    ensures s == SymbolAt(r.data, old(r.pos), bits)
    ensures r.pos == if s.Some? then old(r.pos) + SymbolSize(bits) else old(r.pos)
  {
    if r.pos + SymbolSize(bits) > |r.data| {
      return None;
    }
    var stringIndex := ReadUint32(r);
    var symbolType := ReadUint8(r);
    var section := ReadUint8(r);
    var desc := ReadUint16(r);
    assert r.pos == old(r.pos) + 8;
    var value := ReadWord(r, bits);
    s := Some(Symbol(stringIndex.value, symbolType.value, section.value, desc.value, value.value));
  }

  /** macho_read_dysymtab: eighteen 32-bit fields in declaration order. */
  method ReadDysymtab(r: Reader) returns (d: Option<Dysymtab>)
    modifies r
    ensures d == DysymtabAt(r.data, old(r.pos))
    ensures r.pos == if d.Some? then old(r.pos) + DYSYMTAB_SIZE else old(r.pos)
  {
    if r.pos + DYSYMTAB_SIZE > |r.data| {
      return None;
    }
    var localSymIndex := ReadUint32(r);
    var localSymCount := ReadUint32(r);
    var externalSymIndex := ReadUint32(r);
    var externalSymCount := ReadUint32(r);
    var undefinedSymIndex := ReadUint32(r);
    var undefinedSymCount := ReadUint32(r);
    assert r.pos == old(r.pos) + 24;
    var tocOffset := ReadUint32(r);
    var tocCount := ReadUint32(r);
    var modTableOffset := ReadUint32(r);
    var modCount := ReadUint32(r);
    var refSymOffset := ReadUint32(r);
    var refSymCount := ReadUint32(r);
    assert r.pos == old(r.pos) + 48;
    var indirectSymIndex := ReadUint32(r);
    var indirectSymCount := ReadUint32(r);
    var externalRelocOffset := ReadUint32(r);
    var externalRelocCount := ReadUint32(r);
    var localRelocOffset := ReadUint32(r);
    var localRelocCount := ReadUint32(r);
    d := Some(Dysymtab(localSymIndex.value, localSymCount.value, externalSymIndex.value, externalSymCount.value,
                       undefinedSymIndex.value, undefinedSymCount.value, tocOffset.value, tocCount.value,
                       modTableOffset.value, modCount.value, refSymOffset.value, refSymCount.value,
                       indirectSymIndex.value, indirectSymCount.value, externalRelocOffset.value,
                       externalRelocCount.value, localRelocOffset.value, localRelocCount.value));
  }

  // ---------------------------------------------------------------------------
  // Encoders: the inverse of each layout, with the round trip that shows the
  // decoder keeps every field and reads them in the declared order.

  /** Fields of `n` bytes each, laid out one after the other. */
  function PutAll(vs: seq<nat>, n: nat): (e: seq<byte>)
    ensures |e| == n * |vs|
  {
    if vs == [] then [] else Put(vs[0], n) + PutAll(vs[1..], n)
  }

  /** The `k`-th field of PutAll sits at offset `off == n * k`. */
  lemma {:induction false} PutAllSlice(vs: seq<nat>, n: nat, k: nat, off: nat)
    requires k < |vs| && off == n * k
    ensures off + n <= |PutAll(vs, n)| && PutAll(vs, n)[off..off + n] == Put(vs[k], n)
  {
    var e := PutAll(vs, n);
    var rest := PutAll(vs[1..], n);
    assert e == Put(vs[0], n) + rest;
    if k == 0 {
      assert e[0..n] == Put(vs[0], n);
    } else {
      var j := n * (k - 1);
      assert off == n + j;
      PutAllSlice(vs[1..], n, k - 1, j);
      assert e[n + j..n + j + n] == rest[j..j + n];
    }
  }

  /** Two bytes holding an encoded 16-bit value read back as that value. */
  lemma Uint16Of(data: seq<byte>, at: nat, v: u16)
    requires at + 2 <= |data| && data[at..at + 2] == Put(v, 2)
    ensures Uint16At(data, at) == v
  {
    DecodeEncode(v, 2);
  }

  lemma Uint32Of(data: seq<byte>, at: nat, v: u32)
    requires at + 4 <= |data| && data[at..at + 4] == Put(v, 4)
    ensures Uint32At(data, at) == v
  {
    DecodeEncode(v, 4);
  }

  /** An address-sized field that fits the width reads back as encoded. */
  lemma WordOf(data: seq<byte>, at: nat, v: u64, bits: int)
    requires FitsWord(v, bits)
    requires at + WordSize(bits) <= |data| && data[at..at + WordSize(bits)] == PutWord(v, bits)
    ensures WordAt(data, at, bits) == v
  {
    if bits == 32 {
        DecodeEncode(v, 4);
    } else {
      DecodeEncode(v, 8);
    }
  }

  /** The `k`-th of a run of 32-bit fields reads back as encoded. */
  lemma Uint32sField(vs: seq<nat>, k: nat)
    requires k < |vs| && vs[k] < 0x1_0000_0000
    ensures 4 * k + 4 <= |PutAll(vs, 4)| && Uint32At(PutAll(vs, 4), 4 * k) == vs[k]
  {
    PutAllSlice(vs, 4, k, 4 * k);
    Uint32Of(PutAll(vs, 4), 4 * k, vs[k]);
  }

  /** The `k`-th of a run of address-sized fields reads back as encoded. */
  lemma WordsField(vs: seq<nat>, bits: int, k: nat)
    requires k < |vs| && FitsWord(vs[k], bits)
    ensures WordSize(bits) * k + WordSize(bits) <= |PutAll(vs, WordSize(bits))|
    ensures WordAt(PutAll(vs, WordSize(bits)), WordSize(bits) * k, bits) == vs[k]
  {
    var w := WordSize(bits);
    PutAllSlice(vs, w, k, w * k);
    WordOf(PutAll(vs, w), w * k, vs[k], bits);
  }

  // Reading inside one part of a concatenation.

  lemma Uint32After(a: seq<byte>, b: seq<byte>, j: nat)
    requires j + 4 <= |b|
    ensures Uint32At(a + b, |a| + j) == Uint32At(b, j)
  {
    assert (a + b)[|a| + j..|a| + j + 4] == b[j..j + 4];
  }

  lemma WordAfter(a: seq<byte>, b: seq<byte>, j: nat, bits: int)
    requires j + WordSize(bits) <= |b|
    ensures WordAt(a + b, |a| + j, bits) == WordAt(b, j, bits)
  {
    var w := WordSize(bits);
    assert (a + b)[|a| + j..|a| + j + w] == b[j..j + w];
  }

  lemma WordBefore(a: seq<byte>, b: seq<byte>, j: nat, bits: int)
    requires j + WordSize(bits) <= |a|
    ensures WordAt(a + b, j, bits) == WordAt(a, j, bits)
  {
    var w := WordSize(bits);
    assert (a + b)[j..j + w] == a[j..j + w];
  }

  /** A header macho_read_header accepts: one of the two magics, and no
      reserved word unless the magic is the 64-bit one. */
  predicate WellFormedHeader(h: Header)
  {
    (h.magic == MH_MAGIC || h.magic == MH_MAGIC_64) && (h.magic != MH_MAGIC_64 ==> h.reserved == 0)
  }

  function HeaderWords(h: Header): seq<nat>
  {
    [h.magic, h.cpuType, h.cpuSubtype, h.fileType, h.loadCommandCount, h.loadCommandSize, h.flags]
      + (if h.magic == MH_MAGIC_64 then [h.reserved] else [])
  }

  function EncodeHeader(h: Header): (e: seq<byte>)
    ensures |e| == HeaderSize(h.magic)
  {
    PutAll(HeaderWords(h), 4)
  }

  lemma HeaderFieldAt(h: Header, k: nat)
    requires k < |HeaderWords(h)|
    ensures Uint32At(EncodeHeader(h), 4 * k) == HeaderWords(h)[k]
  {
    Uint32sField(HeaderWords(h), k);
  }

  /** The words of an encoded header, each at its offset. */
  lemma HeaderWordsRead(h: Header)
    ensures Uint32At(EncodeHeader(h), 0) == h.magic && Uint32At(EncodeHeader(h), 4) == h.cpuType
    ensures Uint32At(EncodeHeader(h), 8) == h.cpuSubtype && Uint32At(EncodeHeader(h), 12) == h.fileType
    ensures Uint32At(EncodeHeader(h), 16) == h.loadCommandCount && Uint32At(EncodeHeader(h), 20) == h.loadCommandSize
    ensures Uint32At(EncodeHeader(h), 24) == h.flags
    ensures h.magic == MH_MAGIC_64 ==> Uint32At(EncodeHeader(h), 28) == h.reserved
  {
    var w := HeaderWords(h);
    assert w[0] == h.magic && w[1] == h.cpuType && w[2] == h.cpuSubtype && w[3] == h.fileType;
    assert w[4] == h.loadCommandCount && w[5] == h.loadCommandSize && w[6] == h.flags;
    HeaderFieldAt(h, 0);
    HeaderFieldAt(h, 1);
    HeaderFieldAt(h, 2);
    HeaderFieldAt(h, 3);
    HeaderFieldAt(h, 4);
    HeaderFieldAt(h, 5);
    HeaderFieldAt(h, 6);
    if h.magic == MH_MAGIC_64 {
      assert w[7] == h.reserved;
      HeaderFieldAt(h, 7);
    }
  }

  /** Every header macho_read_header accepts is read back from its encoding. */
  lemma HeaderRoundTrip(h: Header)
    requires WellFormedHeader(h)
    ensures HeaderAt(EncodeHeader(h), 0) == Ok(h)
  {
    HeaderWordsRead(h);
  }

  function EncodeLoadCommand(c: LoadCommand): (e: seq<byte>)
    ensures |e| == LOAD_COMMAND_SIZE
  {
    PutAll([c.tag, c.size], 4)
  }

  lemma LoadCommandRoundTrip(c: LoadCommand)
    ensures LoadCommandAt(EncodeLoadCommand(c), 0) == Some(c)
  {
    Uint32sField([c.tag, c.size], 0);
    Uint32sField([c.tag, c.size], 1);
  }

  /** A segment whose name is the 16-byte buffer and whose address-sized
      fields fit the width. */
  predicate SegmentLoadFits(s: SegmentLoad, bits: int)
  {
    |s.name| == 16 && FitsWord(s.address, bits) && FitsWord(s.addressSize, bits)
    && FitsWord(s.fileOffset, bits) && FitsWord(s.fileSize, bits)
  }

  function SegmentWords(s: SegmentLoad): seq<nat>
  {
    [s.address, s.addressSize, s.fileOffset, s.fileSize]
  }

  function SegmentFlags(s: SegmentLoad): seq<nat>
  {
    [s.protectionMax, s.protectionInitial, s.sectionCount, s.flag]
  }

  function EncodeSegmentLoad(s: SegmentLoad, bits: int): (e: seq<byte>)
    requires |s.name| == 16
    ensures |e| == SegmentLoadSize(bits)
  {
    s.name + PutAll(SegmentWords(s), WordSize(bits)) + PutAll(SegmentFlags(s), 4)
  }

  lemma SegmentWordAt(s: SegmentLoad, bits: int, k: nat)
    requires SegmentLoadFits(s, bits) && k < 4
    ensures WordAt(EncodeSegmentLoad(s, bits), 16 + WordSize(bits) * k, bits) == SegmentWords(s)[k]
  {
    var w := WordSize(bits);
    var words := PutAll(SegmentWords(s), w);
    var tail := PutAll(SegmentFlags(s), 4);
    WordsField(SegmentWords(s), bits, k);
    WordAfter(s.name, words, w * k, bits);
    WordBefore(s.name + words, tail, 16 + w * k, bits);
  }

  lemma SegmentFlagAt(s: SegmentLoad, bits: int, k: nat)
    requires SegmentLoadFits(s, bits) && k < 4
    ensures Uint32At(EncodeSegmentLoad(s, bits), 16 + 4 * WordSize(bits) + 4 * k) == SegmentFlags(s)[k]
  {
    var w := WordSize(bits);
    Uint32sField(SegmentFlags(s), k);
    Uint32After(s.name + PutAll(SegmentWords(s), w), PutAll(SegmentFlags(s), 4), 4 * k);
  }

  lemma SegmentLoadRoundTrip(s: SegmentLoad, bits: int)
    requires SegmentLoadFits(s, bits)
    ensures SegmentLoadAt(EncodeSegmentLoad(s, bits), 0, bits) == Some(s)
  {
    var e := EncodeSegmentLoad(s, bits);
    assert e[0..16] == s.name;
    SegmentWordAt(s, bits, 0);
    SegmentWordAt(s, bits, 1);
    SegmentWordAt(s, bits, 2);
    SegmentWordAt(s, bits, 3);
    SegmentFlagAt(s, bits, 0);
    SegmentFlagAt(s, bits, 1);
    SegmentFlagAt(s, bits, 2);
    SegmentFlagAt(s, bits, 3);
  }

  /** A section whose two names are 16-byte buffers and whose address and
      size fit the width. */
  predicate SectionFits(s: Section, bits: int)
  {
    |s.sectionName| == 16 && |s.segmentName| == 16 && FitsWord(s.address, bits) && FitsWord(s.size, bits)
  }

  function SectionFields(s: Section): seq<nat>
  {
    [s.offset, s.align, s.relocationOffset, s.relocationCount, s.flags, s.reserved1, s.reserved2, s.reserved3]
  }

  function EncodeSection(s: Section, bits: int): (e: seq<byte>)
    requires |s.sectionName| == 16 && |s.segmentName| == 16
    ensures |e| == SectionSize(bits)
  {
    s.sectionName + s.segmentName + PutAll([s.address, s.size], WordSize(bits)) + PutAll(SectionFields(s), 4)
  }

  lemma SectionWordAt(s: Section, bits: int, k: nat)
    requires SectionFits(s, bits) && k < 2
    ensures WordAt(EncodeSection(s, bits), 32 + WordSize(bits) * k, bits) == [s.address, s.size][k]
  {
    var w := WordSize(bits);
    var names := s.sectionName + s.segmentName;
    var words := PutAll([s.address, s.size], w);
    WordsField([s.address, s.size], bits, k);
    WordAfter(names, words, w * k, bits);
    WordBefore(names + words, PutAll(SectionFields(s), 4), 32 + w * k, bits);
  }

  lemma SectionFieldAt(s: Section, bits: int, k: nat)
    requires SectionFits(s, bits) && k < 8
    ensures Uint32At(EncodeSection(s, bits), 32 + 2 * WordSize(bits) + 4 * k) == SectionFields(s)[k]
  {
    var w := WordSize(bits);
    var head := s.sectionName + s.segmentName + PutAll([s.address, s.size], w);
    Uint32sField(SectionFields(s), k);
    Uint32After(head, PutAll(SectionFields(s), 4), 4 * k);
  }

  lemma SectionRoundTrip(s: Section, bits: int)
    requires SectionFits(s, bits)
    ensures SectionAt(EncodeSection(s, bits), 0, bits) == Some(s)
  {
    var e := EncodeSection(s, bits);
    assert e[0..16] == s.sectionName;
    assert e[16..32] == s.segmentName;
    SectionWordAt(s, bits, 0);
    SectionWordAt(s, bits, 1);
    SectionFieldAt(s, bits, 0);
    SectionFieldAt(s, bits, 1);
    SectionFieldAt(s, bits, 2);
    SectionFieldAt(s, bits, 3);
    SectionFieldAt(s, bits, 4);
    SectionFieldAt(s, bits, 5);
    SectionFieldAt(s, bits, 6);
    SectionFieldAt(s, bits, 7);
  }

  function EncodeSymtab(s: Symtab): (e: seq<byte>)
    ensures |e| == SYMTAB_SIZE
  {
    PutAll([s.symbolTableOffset, s.symbolCount, s.stringTableOffset, s.stringTableSize], 4)
  }

  lemma SymtabRoundTrip(s: Symtab)
    ensures SymtabAt(EncodeSymtab(s), 0) == Some(s)
  {
    var vs := [s.symbolTableOffset, s.symbolCount, s.stringTableOffset, s.stringTableSize];
    Uint32sField(vs, 0);
    Uint32sField(vs, 1);
    Uint32sField(vs, 2);
    Uint32sField(vs, 3);
  }

  function EncodeSymbol(s: Symbol, bits: int): (e: seq<byte>)
    ensures |e| == SymbolSize(bits)
  {
    Put(s.stringIndex, 4) + [s.symbolType, s.section] + Put(s.desc, 2) + PutWord(s.value, bits)
  }

  lemma SymbolRoundTrip(s: Symbol, bits: int)
    requires FitsWord(s.value, bits)
    ensures SymbolAt(EncodeSymbol(s, bits), 0, bits) == Some(s)
  {
    var e := EncodeSymbol(s, bits);
    assert e[0..4] == Put(s.stringIndex, 4);
    assert e[6..8] == Put(s.desc, 2);
    assert e[8..8 + WordSize(bits)] == PutWord(s.value, bits);
    Uint32Of(e, 0, s.stringIndex);
    Uint16Of(e, 6, s.desc);
    WordOf(e, 8, s.value, bits);
  }

  function DysymtabFields(d: Dysymtab): seq<nat>
  {
    [d.localSymIndex, d.localSymCount, d.externalSymIndex, d.externalSymCount,
     d.undefinedSymIndex, d.undefinedSymCount, d.tocOffset, d.tocCount,
     d.modTableOffset, d.modCount, d.refSymOffset, d.refSymCount,
     d.indirectSymIndex, d.indirectSymCount, d.externalRelocOffset, d.externalRelocCount,
     d.localRelocOffset, d.localRelocCount]
  }

  function EncodeDysymtab(d: Dysymtab): (e: seq<byte>)
    ensures |e| == DYSYMTAB_SIZE
  {
    PutAll(DysymtabFields(d), 4)
  }

  lemma DysymtabFieldAt(d: Dysymtab, k: nat)
    requires k < 18
    ensures Uint32At(EncodeDysymtab(d), 4 * k) == DysymtabFields(d)[k]
  {
    Uint32sField(DysymtabFields(d), k);
  }

  lemma DysymtabRoundTrip(d: Dysymtab)
    ensures DysymtabAt(EncodeDysymtab(d), 0) == Some(d)
  {
    DysymtabFieldAt(d, 0);
    DysymtabFieldAt(d, 1);
    DysymtabFieldAt(d, 2);
    DysymtabFieldAt(d, 3);
    DysymtabFieldAt(d, 4);
    DysymtabFieldAt(d, 5);
    DysymtabFieldAt(d, 6);
    DysymtabFieldAt(d, 7);
    DysymtabFieldAt(d, 8);
    DysymtabFieldAt(d, 9);
    DysymtabFieldAt(d, 10);
    DysymtabFieldAt(d, 11);
    DysymtabFieldAt(d, 12);
    DysymtabFieldAt(d, 13);
    DysymtabFieldAt(d, 14);
    DysymtabFieldAt(d, 15);
    DysymtabFieldAt(d, 16);
    DysymtabFieldAt(d, 17);
  }
}
