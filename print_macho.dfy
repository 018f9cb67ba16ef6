/** parse_macho of src/print_macho.c: read the header, derive the word size
    from the CPU type, then walk exactly load_command_count load commands,
    decoding the ones it recognises and stepping over the others. What the C
    prints becomes the data each command yields. */
module PrintMachO {
  import opened Wrappers
  import opened FileIO
  import opened MachOTypes
  import opened MachODecode
  import opened MachOLabels
  import opened MachOSymtab

  /** The word size parse_macho derives: 64 exactly when the CPU type has the
      64-bit flag, whichever magic was accepted. */
  function BitsOf(cpuType: u32): (bits: int)
    ensures bits == 32 || bits == 64
    ensures bits == 64 <==> IsAbi64(cpuType)
  {
    if IsAbi64(cpuType) then 64 else 32
  }

  /** `size - 8` computed on uint32, as the dump loop bound and the skip
      distance are: a size below 8 wraps around to nearly 2^32. */
  function PayloadSize(size: u32): (n: u32)
    ensures size >= 8 ==> n + 8 == size
    ensures size < 8 ==> n == size + 0x1_0000_0000 - 8
  {
    if size >= 8 then size - 8 else size + 0x1_0000_0000 - 8
  }

  /** What a load command yields, by tag. */
  datatype CommandBody =
    | Segment(segment: SegmentLoad, sections: seq<Section>)
    | SymbolTable(symtab: Symtab, listing: SymtabListing)
    | DynamicSymbolTable(dysymtab: Dysymtab)
    | BuildVersion(payload: seq<byte>)
    | Skipped

  /** A load command found at `offset`, and where the cursor stands after it. */
  datatype Command = Command(offset: nat, load: LoadCommand, body: CommandBody, end: nat)

  /** The outcome of a whole pass: the header, the derived word size, the
      commands in stream order and the final cursor. */
  datatype Parsed = Parsed(header: Header, bits: int, commands: seq<Command>, end: nat)

  /** Prefix a successful list. */
  function AppendOk<T>(xs: seq<T>, rest: Result<seq<T>, Error>): (r: Result<seq<T>, Error>)
    ensures r.Ok? <==> rest.Ok?
    ensures r.Ok? ==> r.value == xs + rest.value
    ensures r.Err? ==> r.error == rest.error
  {
    match rest
    case Err(e) => Err(e)
    case Ok(ys) => Ok(xs + ys)
  }

  lemma AppendOkNothing<T>(rest: Result<seq<T>, Error>)
    ensures AppendOk([], rest) == rest
  {
    if rest.Ok? {
      assert [] + rest.value == rest.value;
    }
  }

  lemma AppendOkOne<T>(xs: seq<T>, x: T, rest: Result<seq<T>, Error>)
    ensures AppendOk(xs, AppendOk([x], rest)) == AppendOk(xs + [x], rest)
  {
    if rest.Ok? {
      assert xs + ([x] + rest.value) == xs + [x] + rest.value;
    }
  }

  // ---------------------------------------------------------------------------
  // Sections

  /** Where `count` sections laid end to end from `at` end. */
  function SectionsEnd(at: nat, count: nat, bits: int): (end: nat)
    ensures at <= end
    decreases count
  {
    if count == 0 then at else SectionsEnd(at + SectionSize(bits), count - 1, bits)
  }

  /** ... which is `count` section sizes further on. */
  lemma {:induction false} SectionsEndIs(at: nat, count: nat, bits: int)
    ensures SectionsEnd(at, count, bits) == at + count * SectionSize(bits)
    decreases count
  {
    if count > 0 {
      SectionsEndIs(at + SectionSize(bits), count - 1, bits);
      assert count * SectionSize(bits) == SectionSize(bits) + (count - 1) * SectionSize(bits);
    }
  }

  /** `count` sections laid end to end from `at`; the first one that runs
      past the end of the file is the error. */
  function SectionsFrom(data: seq<byte>, at: nat, count: nat, bits: int): (r: Result<seq<Section>, Error>)
    ensures r.Ok? ==> |r.value| == count
    ensures r.Ok? && count > 0 ==> SectionsEnd(at, count, bits) <= |data|
    ensures r.Err? ==> r.error.Truncated? && at <= r.error.offset
    decreases count
  {
    if count == 0 then Ok([])
    else
      match SectionAt(data, at, bits)
      case None => Err(Truncated(at))
      case Some(s) =>
        AppendOk([s], SectionsFrom(data, at + SectionSize(bits), count - 1, bits))
  }

  /** A non-empty run of sections: the section at `at`, then the run after it. */
  lemma SectionsStep(data: seq<byte>, at: nat, count: nat, bits: int)
    requires count > 0 && SectionsFrom(data, at, count, bits).Ok?
    ensures SectionsFrom(data, at + SectionSize(bits), count - 1, bits).Ok?
    ensures SectionAt(data, at, bits) == Some(SectionsFrom(data, at, count, bits).value[0])
    ensures SectionsFrom(data, at, count, bits).value[1..] == SectionsFrom(data, at + SectionSize(bits), count - 1, bits).value
  {
    var rest := SectionsFrom(data, at + SectionSize(bits), count - 1, bits);
    assert SectionsFrom(data, at, count, bits).value == [SectionAt(data, at, bits).value] + rest.value;
  }

  /** Section `k` of a decoded run is the section found where the first `k`
      sections end. */
  lemma {:induction false} SectionsLaidOut(data: seq<byte>, at: nat, count: nat, bits: int, k: nat)
    requires SectionsFrom(data, at, count, bits).Ok? && k < count
    ensures SectionAt(data, SectionsEnd(at, k, bits), bits) == Some(SectionsFrom(data, at, count, bits).value[k])
    decreases k
  {
    SectionsStep(data, at, count, bits);
    if k > 0 {
      var next := at + SectionSize(bits);
      SectionsLaidOut(data, next, count - 1, bits, k - 1);
      assert SectionsEnd(at, k, bits) == SectionsEnd(next, k - 1, bits);
      assert SectionsFrom(data, at, count, bits).value[k] == SectionsFrom(data, at, count, bits).value[1..][k - 1];
    }
  }

  /** The section loop of parse_macho: `count` section reads in a row. */
  method ReadSections(r: Reader, count: u32, bits: int) returns (sections: Result<seq<Section>, Error>)
    modifies r
    ensures sections == SectionsFrom(r.data, old(r.pos), count, bits)
    ensures sections.Ok? ==> r.pos == SectionsEnd(old(r.pos), count, bits)
  {
    ghost var start := r.pos;
    var list: seq<Section> := [];
    var n: nat := 0;
    AppendOkNothing(SectionsFrom(r.data, start, count, bits));
    while n < count
      invariant n <= count
      invariant SectionsEnd(start, count, bits) == SectionsEnd(r.pos, count - n, bits)
      invariant SectionsFrom(r.data, start, count, bits)
        == AppendOk(list, SectionsFrom(r.data, r.pos, count - n, bits))
    {
      var s := ReadSection(r, bits);
      if s.None? {
        return Err(Truncated(r.pos));
      }
      AppendOkOne(list, s.value, SectionsFrom(r.data, r.pos, count - n - 1, bits));
      list := list + [s.value];
      n := n + 1;
    }
    assert list + [] == list;
    sections := Ok(list);
  }

  // ---------------------------------------------------------------------------
  // One load command

  /** The tags parse_macho decodes a record for. */
  predicate DecodedTag(tag: u32)
  {
    tag == LC_SEGMENT || tag == LC_SEGMENT_64 || tag == LC_SYMTAB || tag == LC_DYSYMTAB
  }

  /** The load command at `at`, decoded as parse_macho's switch does. Only
      the bytes the decoders consume are accounted for: there is no seek to
      `at + size` after a decoded record. */
  function CommandAt(data: seq<byte>, at: nat, bits: int): (c: Result<Command, Error>)
    ensures c.Ok? ==> c.value.offset == at && LoadCommandAt(data, at) == Some(c.value.load)
    ensures c.Ok? && !DecodedTag(c.value.load.tag) && c.value.load.size >= 8 ==> c.value.end == at + c.value.load.size
    ensures c.Err? ==> c.error.Truncated? && at <= c.error.offset
  {
    match LoadCommandAt(data, at)
    case None => Err(Truncated(at))
    case Some(load) => CommandWith(data, at, load, bits)
  }

  /** The switch on the tag of `load`, read at `at`. */
  function CommandWith(data: seq<byte>, at: nat, load: LoadCommand, bits: int): (c: Result<Command, Error>)
    ensures c.Ok? ==> c.value.offset == at && c.value.load == load
    ensures c.Ok? && !DecodedTag(load.tag) && load.size >= 8 ==> c.value.end == at + load.size
    ensures c.Err? ==> c.error.Truncated? && at <= c.error.offset
  {
    if load.tag == LC_SEGMENT || load.tag == LC_SEGMENT_64 then SegmentCommand(data, at, load, bits)
    else if load.tag == LC_SYMTAB then SymtabCommand(data, at, load, bits)
    else if load.tag == LC_DYSYMTAB then DysymtabCommand(data, at, load)
    else if load.tag == LC_BUILD_VERSION then BuildVersionCommand(data, at, load)
    else Ok(Command(at, load, Skipped, at + LOAD_COMMAND_SIZE + PayloadSize(load.size)))
  }

  /** Tags 0x1 and 0x19: the segment and its sections, with the width `bits`
      (not the one the tag names). */
  function SegmentCommand(data: seq<byte>, at: nat, load: LoadCommand, bits: int): (c: Result<Command, Error>)
    ensures c.Ok? ==> c.value.offset == at && c.value.load == load && c.value.body.Segment?
    ensures c.Ok? ==> (
      && |c.value.body.sections| == c.value.body.segment.sectionCount
      && c.value.end == SectionsEnd(at + 8 + SegmentLoadSize(bits), c.value.body.segment.sectionCount, bits)
      && c.value.end <= |data|)
    ensures c.Err? ==> c.error.Truncated? && at + 8 <= c.error.offset
  {
    var body := at + LOAD_COMMAND_SIZE;
    match SegmentLoadAt(data, body, bits)
    case None => Err(Truncated(body))
    case Some(segment) =>
      var first := body + SegmentLoadSize(bits);
      match SectionsFrom(data, first, segment.sectionCount, bits)
      case Err(e) => Err(e)
      case Ok(sections) =>
        Ok(Command(at, load, Segment(segment, sections), SectionsEnd(first, segment.sectionCount, bits)))
  }

  /** Tag 0x2: the symtab record, then the symbol-table pass, which leaves
      the cursor right after the record. */
  function SymtabCommand(data: seq<byte>, at: nat, load: LoadCommand, bits: int): (c: Result<Command, Error>)
    ensures c.Ok? ==> c.value.offset == at && c.value.load == load && c.value.body.SymbolTable?
    ensures c.Ok? ==> (
      && c.value.end == at + 24 <= |data|
      && c.value.body.listing == SymtabListingAt(data, c.value.body.symtab, bits))
    ensures c.Err? ==> c.error == Truncated(at + 8)
  {
    var body := at + LOAD_COMMAND_SIZE;
    match SymtabAt(data, body)
    case None => Err(Truncated(body))
    case Some(symtab) =>
      Ok(Command(at, load, SymbolTable(symtab, SymtabListingAt(data, symtab, bits)), body + SYMTAB_SIZE))
  }

  /** Tag 0xb: the dysymtab record. */
  function DysymtabCommand(data: seq<byte>, at: nat, load: LoadCommand): (c: Result<Command, Error>)
    ensures c.Ok? ==> c.value.offset == at && c.value.load == load && c.value.body.DynamicSymbolTable?
    ensures c.Ok? ==> c.value.end == at + 80 <= |data|
    ensures c.Err? ==> c.error == Truncated(at + 8)
  {
    var body := at + LOAD_COMMAND_SIZE;
    match DysymtabAt(data, body)
    case None => Err(Truncated(body))
    case Some(dysymtab) => Ok(Command(at, load, DynamicSymbolTable(dysymtab), body + DYSYMTAB_SIZE))
  }

  /** Tag 0x32: the `size - 8` bytes after the tag and size, as they are. */
  function BuildVersionCommand(data: seq<byte>, at: nat, load: LoadCommand): (c: Result<Command, Error>)
    ensures c.Ok? ==> c.value.offset == at && c.value.load == load && c.value.body.BuildVersion?
    ensures c.Ok? ==> (
      && c.value.end == at + 8 + PayloadSize(load.size) <= |data|
      && c.value.body.payload == data[at + 8..c.value.end])
    ensures c.Err? <==> at + 8 + PayloadSize(load.size) > |data|
  {
    var body := at + LOAD_COMMAND_SIZE;
    var n := PayloadSize(load.size);
    if body + n > |data| then Err(Truncated(body))
    else Ok(Command(at, load, BuildVersion(data[body..body + n]), body + n))
  }

  /** The 0x32 dump: `count` getc calls, every one inside the file. */
  method DumpPayload(r: Reader, count: nat) returns (payload: seq<byte>)
    requires r.pos + count <= |r.data|
    modifies r
    ensures payload == r.data[old(r.pos)..old(r.pos) + count]
    ensures r.pos == old(r.pos) + count
  {
    ghost var start := r.pos;
    payload := [];
    var n := 0;
    while n < count
      invariant n <= count && r.pos == start + n
      invariant payload == r.data[start..r.pos]
    {
      var ch := r.GetC();
      payload := payload + [ch];
      n := n + 1;
    }
  }

  /** One iteration of parse_macho's loop: the tag/size read and the switch. */
  method ProcessCommand(r: Reader, bits: int) returns (c: Result<Command, Error>)
    modifies r
    ensures c == CommandAt(r.data, old(r.pos), bits)
    ensures c.Ok? ==> r.pos == c.value.end
  {
    var at := r.Tell();
    var load := ReadLoadCommand(r);
    if load.None? {
      return Err(Truncated(at));
    }
    var tag := load.value.tag;
    if tag == LC_SEGMENT || tag == LC_SEGMENT_64 {
      c := ReadSegmentCommand(r, at, load.value, bits);
    } else if tag == LC_SYMTAB {
      c := ReadSymtabCommand(r, at, load.value, bits);
    } else if tag == LC_DYSYMTAB {
      c := ReadDysymtabCommand(r, at, load.value);
    } else if tag == LC_BUILD_VERSION {
      c := ReadBuildVersionCommand(r, at, load.value);
    } else {
      r.Skip(PayloadSize(load.value.size));
      c := Ok(Command(at, load.value, Skipped, r.pos));
    }
  }

  /** The segment case of the switch, entered with the cursor after the tag
      and size. */
  method ReadSegmentCommand(r: Reader, at: nat, load: LoadCommand, bits: int) returns (c: Result<Command, Error>)
    requires r.pos == at + LOAD_COMMAND_SIZE
    modifies r
    ensures c == SegmentCommand(r.data, at, load, bits)
    ensures c.Ok? ==> r.pos == c.value.end
  {
    var segment := ReadSegmentLoad(r, bits);
    if segment.None? {
      return Err(Truncated(at + LOAD_COMMAND_SIZE));
    }
    var sections := ReadSections(r, segment.value.sectionCount, bits);
    if sections.Err? {
      return Err(sections.error);
    }
    c := Ok(Command(at, load, Segment(segment.value, sections.value), r.pos));
  }

  /** The symtab case of the switch. */
  method ReadSymtabCommand(r: Reader, at: nat, load: LoadCommand, bits: int) returns (c: Result<Command, Error>)
    requires r.pos == at + LOAD_COMMAND_SIZE
    modifies r
    ensures c == SymtabCommand(r.data, at, load, bits)
    ensures c.Ok? ==> r.pos == c.value.end
  {
    var symtab := ReadSymtab(r);
    if symtab.None? {
      return Err(Truncated(at + LOAD_COMMAND_SIZE));
    }
    var listing := SymtabPass(r, symtab.value, bits);
    c := Ok(Command(at, load, SymbolTable(symtab.value, listing), r.pos));
  }

  /** The dysymtab case of the switch. */
  method ReadDysymtabCommand(r: Reader, at: nat, load: LoadCommand) returns (c: Result<Command, Error>)
    requires r.pos == at + LOAD_COMMAND_SIZE
    modifies r
    ensures c == DysymtabCommand(r.data, at, load)
    ensures c.Ok? ==> r.pos == c.value.end
  {
    var dysymtab := ReadDysymtab(r);
    if dysymtab.None? {
      return Err(Truncated(at + LOAD_COMMAND_SIZE));
    }
    c := Ok(Command(at, load, DynamicSymbolTable(dysymtab.value), r.pos));
  }

  /** The 0x32 case of the switch: dump `size - 8` bytes. */
  method ReadBuildVersionCommand(r: Reader, at: nat, load: LoadCommand) returns (c: Result<Command, Error>)
    requires r.pos == at + LOAD_COMMAND_SIZE
    modifies r
    ensures c == BuildVersionCommand(r.data, at, load)
    ensures c.Ok? ==> r.pos == c.value.end
  {
    var count := PayloadSize(load.size);
    if r.pos + count > |r.data| {
      return Err(Truncated(at + LOAD_COMMAND_SIZE));
    }
    var payload := DumpPayload(r, count);
    c := Ok(Command(at, load, BuildVersion(payload), r.pos));
  }

  // ---------------------------------------------------------------------------
  // The command loop

  /** Where the cursor stands after a run of commands that started at `at`. */
  function EndOf(commands: seq<Command>, at: nat): nat
  {
    if commands == [] then at else commands[|commands| - 1].end
  }

  /** `count` load commands walked from `at`, each starting where the
      previous one left the cursor; the first failure ends the walk. */
  function CommandsFrom(data: seq<byte>, at: nat, count: nat, bits: int): (r: Result<seq<Command>, Error>)
    ensures r.Ok? ==> |r.value| == count
    ensures r.Ok? && count > 0 ==> r.value[0].offset == at
    ensures r.Err? ==> r.error.Truncated? && at <= r.error.offset
    decreases count, 2
  {
    if count == 0 then Ok([]) else CommandThenRest(data, at, count, bits)
  }

  /** A non-empty walk: the tag and size at `at`, then the rest. */
  function CommandThenRest(data: seq<byte>, at: nat, count: nat, bits: int): (r: Result<seq<Command>, Error>)
    requires count > 0
    ensures r.Ok? ==> |r.value| == count && r.value[0].offset == at
    ensures r.Err? ==> r.error.Truncated? && at <= r.error.offset
    decreases count, 1
  {
    match LoadCommandAt(data, at)
    case None => Err(Truncated(at))
    case Some(load) => BodyThenRest(data, at, load, count, bits)
  }

  /** The command whose tag and size `load` were read at `at`, then the walk
      from where it leaves the cursor. */
  function BodyThenRest(data: seq<byte>, at: nat, load: LoadCommand, count: nat, bits: int): (r: Result<seq<Command>, Error>)
    requires count > 0
    ensures r.Ok? ==> |r.value| == count && r.value[0].offset == at
    ensures r.Err? ==> r.error.Truncated? && at <= r.error.offset
    decreases count, 0
  {
    match CommandWith(data, at, load, bits)
    case Err(e) => Err(e)
    case Ok(c) => AppendOk([c], CommandsFrom(data, c.end, count - 1, bits))
  }

  /** The walk after one command: it fails with that command, or goes on
      from where that command left the cursor. */
  lemma CommandsStep(data: seq<byte>, at: nat, count: nat, bits: int)
    requires count > 0
    ensures CommandAt(data, at, bits).Err? ==> CommandsFrom(data, at, count, bits) == Err(CommandAt(data, at, bits).error)
    ensures CommandAt(data, at, bits).Ok? ==>
      CommandsFrom(data, at, count, bits)
        == AppendOk([CommandAt(data, at, bits).value], CommandsFrom(data, CommandAt(data, at, bits).value.end, count - 1, bits))
  {
    assert CommandsFrom(data, at, count, bits) == CommandThenRest(data, at, count, bits);
    match LoadCommandAt(data, at)
    case None =>
    case Some(load) =>
      assert CommandThenRest(data, at, count, bits) == BodyThenRest(data, at, load, count, bits);
  }

  /** A successful walk of at least one command: the command at `at` is
      its first. */
  lemma CommandsHead(data: seq<byte>, at: nat, count: nat, bits: int)
    requires count > 0 && CommandsFrom(data, at, count, bits).Ok?
    ensures CommandAt(data, at, bits) == Ok(CommandsFrom(data, at, count, bits).value[0])
  {
    CommandsStep(data, at, count, bits);
  }

  /** After its first command, a successful walk goes on from where that
      command ends. */
  lemma CommandsTail(data: seq<byte>, at: nat, count: nat, bits: int)
    requires count > 0 && CommandsFrom(data, at, count, bits).Ok?
    ensures CommandsFrom(data, CommandsFrom(data, at, count, bits).value[0].end, count - 1, bits).Ok?
    ensures CommandsFrom(data, at, count, bits).value[1..]
      == CommandsFrom(data, CommandsFrom(data, at, count, bits).value[0].end, count - 1, bits).value
  {
    CommandsStep(data, at, count, bits);
    var cs := CommandsFrom(data, at, count, bits).value;
    var rest := CommandsFrom(data, CommandAt(data, at, bits).value.end, count - 1, bits);
    assert cs == [CommandAt(data, at, bits).value] + rest.value;
  }

  /** The walk from command `k`'s offset is the rest of the walk from `k` on. */
  lemma {:induction false} CommandsDrop(data: seq<byte>, at: nat, count: nat, bits: int, k: nat)
    requires CommandsFrom(data, at, count, bits).Ok? && k < count
    ensures CommandsFrom(data, CommandsFrom(data, at, count, bits).value[k].offset, count - k, bits)
      == Ok(CommandsFrom(data, at, count, bits).value[k..])
    decreases k
  {
    var cs := CommandsFrom(data, at, count, bits).value;
    if k == 0 {
      assert cs[0..] == cs;
    } else {
      CommandsTail(data, at, count, bits);
      CommandsDrop(data, cs[0].end, count - 1, bits, k - 1);
      TailIndex(cs, k);
    }
  }

  lemma TailIndex<T>(xs: seq<T>, k: nat)
    requires 0 < k < |xs|
    ensures xs[k] == xs[1..][k - 1] && xs[k..] == xs[1..][k - 1..]
  {
  }

  /** Every command of a successful walk is the command found at its own
      offset, and the next one starts where it left the cursor: the commands
      follow one another in stream order. */
  lemma CommandsLaidOut(data: seq<byte>, at: nat, count: nat, bits: int, k: nat)
    requires CommandsFrom(data, at, count, bits).Ok? && k < count
    ensures CommandAt(data, CommandsFrom(data, at, count, bits).value[k].offset, bits)
      == Ok(CommandsFrom(data, at, count, bits).value[k])
    ensures k + 1 < count ==>
      CommandsFrom(data, at, count, bits).value[k + 1].offset == CommandsFrom(data, at, count, bits).value[k].end
  {
    var cs := CommandsFrom(data, at, count, bits).value;
    CommandsDrop(data, at, count, bits, k);
    CommandsHead(data, cs[k].offset, count - k, bits);
    assert cs[k..][0] == cs[k];
    if k + 1 < count {
      CommandsTail(data, cs[k].offset, count - k, bits);
      assert cs[k..][1..][0] == cs[k + 1];
    }
  }

  /** One turn of parse_macho's loop, seen from the whole walk: `walk` is
      what the commands so far (`done`) and the `remaining` ones make up. */
  method NextCommand(r: Reader, bits: int, remaining: nat, ghost done: seq<Command>,
                     ghost walk: Result<seq<Command>, Error>) returns (c: Result<Command, Error>)
    requires remaining > 0 && walk == AppendOk(done, CommandsFrom(r.data, r.pos, remaining, bits))
    modifies r
    ensures c.Err? ==> walk == Err(c.error)
    ensures c.Ok? ==> r.pos == c.value.end
    ensures c.Ok? ==> walk == AppendOk(done + [c.value], CommandsFrom(r.data, r.pos, remaining - 1, bits))
  {
    ghost var at := r.pos;
    CommandsStep(r.data, at, remaining, bits);
    c := ProcessCommand(r, bits);
    if c.Ok? {
      AppendOkOne(done, c.value, CommandsFrom(r.data, r.pos, remaining - 1, bits));
    }
  }

  /** The loop of parse_macho: `count` commands in a row. */
  method ReadCommands(r: Reader, count: u32, bits: int) returns (commands: Result<seq<Command>, Error>)
    modifies r
    ensures commands == CommandsFrom(r.data, old(r.pos), count, bits)
    ensures commands.Ok? ==> r.pos == EndOf(commands.value, old(r.pos))
  {
    ghost var first := r.pos;
    ghost var walk := CommandsFrom(r.data, first, count, bits);
    var list: seq<Command> := [];
    var i := 0;
    AppendOkNothing(walk);
    while i < count
      invariant i <= count
      invariant r.pos == EndOf(list, first)
      invariant walk == AppendOk(list, CommandsFrom(r.data, r.pos, count - i, bits))
    {
      var c := NextCommand(r, bits, count - i, list, walk);
      if c.Err? {
        return Err(c.error);
      }
      list := list + [c.value];
      i := i + 1;
    }
    assert list + [] == list;
    commands := Ok(list);
  }

  /** parse_macho on the file from `at`: a rejected or cut-off header ends
      it before any load command. */
  function ParseAt(data: seq<byte>, at: nat): (r: Result<Parsed, Error>)
    ensures HeaderAt(data, at).Err? ==> r == Err(HeaderAt(data, at).error)
    ensures r.Ok? ==> r.value.header.magic == MH_MAGIC || r.value.header.magic == MH_MAGIC_64
    ensures r.Ok? ==> (r.value.bits == 64 <==> IsAbi64(r.value.header.cpuType))
    ensures r.Ok? ==> |r.value.commands| == r.value.header.loadCommandCount
    ensures r.Ok? && r.value.commands != [] ==> r.value.commands[0].offset == at + HeaderSize(r.value.header.magic)
  {
    match HeaderAt(data, at)
    case Err(e) => Err(e)
    case Ok(header) =>
      var bits := BitsOf(header.cpuType);
      var first := at + HeaderSize(header.magic);
      match CommandsFrom(data, first, header.loadCommandCount, bits)
      case Err(e) => Err(e)
      case Ok(commands) => Ok(Parsed(header, bits, commands, EndOf(commands, first)))
  }

  /** A successful parse holds the walk of load_command_count commands from
      right after the header, and ends where that walk ends. */
  lemma ParseCommands(data: seq<byte>, at: nat)
    requires ParseAt(data, at).Ok?
    ensures HeaderAt(data, at).Ok?
    ensures ParseAt(data, at).value.bits == BitsOf(HeaderAt(data, at).value.cpuType)
    ensures CommandsFrom(data, at + HeaderSize(HeaderAt(data, at).value.magic), HeaderAt(data, at).value.loadCommandCount,
                         ParseAt(data, at).value.bits)
      == Ok(ParseAt(data, at).value.commands)
    ensures ParseAt(data, at).value.end
      == EndOf(ParseAt(data, at).value.commands, at + HeaderSize(HeaderAt(data, at).value.magic))
  {
  }

  /** parse_macho: the header, then exactly load_command_count iterations. */
  method ParseMachO(r: Reader) returns (p: Result<Parsed, Error>)
    modifies r
    ensures p == ParseAt(r.data, old(r.pos))
    ensures p.Ok? ==> r.pos == p.value.end
    ensures p.Err? && p.error.NotMachO? ==> r.pos == old(r.pos) + 4
  {
    var header := ReadHeader(r);
    if header.Err? {
      return Err(header.error);
    }
    var bits := BitsOf(header.value.cpuType);
    ghost var first := r.pos;
    var commands := ReadCommands(r, header.value.loadCommandCount, bits);
    if commands.Err? {
      return Err(commands.error);
    }
    p := Ok(Parsed(header.value, bits, commands.value, r.pos));
  }
}
