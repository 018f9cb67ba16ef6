# print_macho in Dafny

This project models the decode path of print_macho, a command-line tool that
dumps the header, load commands, segments, sections and symbol tables of a
Mach-O object file. The model treats the file as an immutable sequence of
bytes with one cursor. That is the `FILE*` the C code reads with `getc`,
`fread`, `ftell` and `fseek`. What the C prints becomes the data each step
produces.

The model has seven modules:

- `Wrappers` (wrappers.dfy): `Option` and `Result`.
- `FileIO` (fileio.dfy): the byte reader of src/fileio.c.
  - The `Reader` class holds the file's bytes (`const data`) and the stream position (`var pos`).
  - `GetC`, `Seek`, `Skip`, `Tell` and `Read` stand for `getc`, the two uses of `fseek`, `ftell` and `fread`.
  - `ReadUint8`/`16`/`32`/`64` are specified by `LittleEndian`, the base-256 value of a byte sequence, lowest digit first.
- `MachOTypes` (macho_types.dfy): the constants and records of src/macho.h, and how many bytes each record takes in the file for each width.
- `MachODecode` (macho_decode.dfy): the `macho_read_*` decoders.
  - Each decoder is a method that reads field by field. A function gives the record found at a file offset, and the method's `ensures` ties the two together.
  - Each record also has an encoder, with a round-trip lemma showing that the layout keeps every field, in declaration order.
- `MachOLabels` (macho_labels.dfy): the code-to-label tables and lookups.
- `MachOSymtab` (macho_symtab.dfy): the symbol-table pass of `macho_print_symtab` and `macho_print_symbol`.
  - The string-table listing becomes a sequence of (offset, text) entries.
  - Each symbol comes with its NUL-terminated name.
  - The cursor is saved and restored around both.
- `PrintMachO` (print_macho.dfy): `parse_macho`.
  - Reads the header and derives the word size from the CPU type.
  - Walks exactly `load_command_count` load commands, dispatching on the tag.
  - Each command records where it started and where it left the cursor.

The C checks only the 16-byte name reads (src/macho.c:176, 203-204) for a
short read, and otherwise folds `EOF` into the value it reads. The model's
fixed-size decoders instead fail with `None` or `Truncated(offset)` when the
file holds fewer bytes than the record needs. `GetC` returns `EOF` and the
name lookup stops at `EOF`, as the C does.

## Model

| member | source | states |
|---|---|---|
| FileIO.Reader.constructor | src/print_macho.c:104 | a freshly opened stream holds the given bytes with the cursor at 0 |
| FileIO.Reader.GetC | src/macho.c:412-413 | returns the byte under the cursor and advances by one; at or past the end returns EOF (-1) and does not move |
| FileIO.Reader.Tell | src/macho.c:357 | returns the stream position without changing it |
| FileIO.Reader.Seek | src/macho.c:358 | the cursor ends exactly at the requested absolute offset, even past the end |
| FileIO.Reader.Skip | src/print_macho.c:79 | the cursor moves forward by exactly the requested distance |
| FileIO.Reader.Read | src/macho.c:176 | yields the next n bytes exactly when all n are present and then advances by n; otherwise yields None and stops at the end of the data |
| FileIO.AfterRead | src/fileio.c:40-43 | the cursor after asking for n bytes lies within n of the start, and is exactly n further on iff the bytes were all there |
| FileIO.ReadUint8 | src/fileio.c:58-65 | consumes exactly one byte and returns it unchanged; None when no byte is left |
| FileIO.ReadUint16 | src/fileio.c:48-56 | consumes exactly 2 bytes and returns their little-endian value, below 2^16; None on a short read |
| FileIO.ReadUint32 | src/fileio.c:36-46 | consumes exactly 4 bytes and returns their little-endian value, below 2^32; None on a short read |
| FileIO.ReadUint64 | src/fileio.c:20-34 | consumes exactly 8 bytes and returns their little-endian value, below 2^64; None on a short read |
| FileIO.Uint16Bytes | src/fileio.c:52-53 | the value read is `b0 + 256*b1`, whatever the host byte order |
| FileIO.Uint32Bytes | src/fileio.c:40-43 | the value read is `b0 + 2^8*b1 + 2^16*b2 + 2^24*b3`, which is what the ORs of the disjoint shifted bytes compute |
| FileIO.Uint64Bytes | src/fileio.c:24-31 | the value read weighs byte k by 2^(8k), for k from 0 to 7 |
| FileIO.LittleEndianBound | src/fileio.c:20-56 | an n-byte value is below 2^(8n) |
| FileIO.DecodeEncode | src/fileio.c:20-56 | every value below 2^(8n) is the decoding of its own n-byte encoding, so decoding is onto |
| FileIO.EncodeDecode | src/fileio.c:20-56 | encoding the decoding of any byte sequence gives that sequence back |
| FileIO.LittleEndianInjective | src/fileio.c:20-56 | distinct n-byte sequences decode to distinct values |
| MachOTypes.RecordSizes | src/macho.c:138-256 | the decoders read 48/64-byte segments, 72/80-byte sections, 12/16-byte symbols and 28/32-byte headers for the two widths |
| MachODecode.WordAt | src/macho.c:178-191 | an address-sized field read with width 32 is below 2^32 |
| MachODecode.ReadWord | src/macho.c:178-191 | reads 4 bytes when `bits == 32` and 8 otherwise, as the field found at the cursor |
| MachODecode.ReadHeader | src/macho.c:138-164 | yields the header found at the cursor; any magic other than 0xfeedface and 0xfeedfacf is rejected after exactly the 4 magic bytes; an accepted header consumes 28 or 32 bytes by magic; a header cut short after an accepted magic leaves the cursor after the magic |
| MachODecode.HeaderWordsRead | src/macho.c:150-160 | in an encoded header, the six fields lie in declaration order at offsets 4 to 24, and `reserved` lies at 28 for the 64-bit magic |
| MachODecode.HeaderRoundTrip | src/macho.c:140-161 | every header with an accepted magic, and with reserved 0 unless the magic is 0xfeedfacf, decodes from its encoding to itself |
| MachODecode.ReadLoadCommand | src/macho.c:166-172 | reads tag then size, 8 bytes, or fails without moving |
| MachODecode.LoadCommandRoundTrip | src/macho.c:168-169 | a load command decodes from its encoding to itself |
| MachODecode.ReadSegmentLoad | src/macho.c:174-199 | consumes a raw 16-byte name, four fields of the width `bits` selects and four 32-bit fields, 48 or 64 bytes; fails without moving on a short read |
| MachODecode.SegmentLoadRoundTrip | src/macho.c:176-196 | a segment whose wide fields fit the width decodes from its encoding to itself |
| MachODecode.ReadSection | src/macho.c:201-227 | consumes two raw 16-byte names, two fields of width `bits` and eight 32-bit fields, 72 or 80 bytes |
| MachODecode.SectionRoundTrip | src/macho.c:203-224 | a section whose wide fields fit the width decodes from its encoding to itself, reserved3 included |
| MachODecode.ReadSymtab | src/macho.c:229-237 | consumes 16 bytes as the four symtab fields in order |
| MachODecode.SymtabRoundTrip | src/macho.c:231-234 | a symtab record decodes from its encoding to itself |
| MachODecode.ReadSymbol | src/macho.c:239-256 | consumes 4+1+1+2 bytes and then a value of width `bits`, 12 or 16 bytes |
| MachODecode.SymbolRoundTrip | src/macho.c:241-253 | a symbol whose value fits the width decodes from its encoding to itself |
| MachODecode.ReadDysymtab | src/macho.c:258-280 | consumes 72 bytes as the eighteen dysymtab fields |
| MachODecode.DysymtabRoundTrip | src/macho.c:260-277 | a dysymtab record decodes from its encoding to itself, so its fields are read in declaration order |
| MachOLabels.ClearAbi64 | src/macho.c:84 | the result has the 64-bit flag clear, and is the input or the input less that flag |
| MachOLabels.CpuTypeLabel | src/macho.c:80-88 | "???" exactly for the codes that macho.h does not name once the 64-bit flag is cleared |
| MachOLabels.ArmSubtypeLabel | src/macho.c:90-96 | "???" exactly for subtypes of 17 and above; otherwise one of the table's names |
| MachOLabels.X86SubtypeLabel | src/macho.c:98-118 | "???" exactly for the codes outside the fourteen the switch names |
| MachOLabels.CpuSubtypeLabel | src/macho.c:120-128 | "" exactly when the CPU type is neither exactly ARM nor exactly x86, so also for their 64-bit variants |
| MachOLabels.FileTypeLabel | src/macho.c:130-136 | "???" exactly for 0 and for codes of 13 and above |
| MachOLabels.Abi64SharesFamilyName | src/macho.c:80-128 | setting the 64-bit flag keeps the CPU family name, and the subtype label is then "" for every subtype |
| MachOSymtab.ListingEntry | src/macho.c:361-381 | each listed entry is a non-empty NUL-free run found in the table at its offset, and one NUL separates it from the next entry, so offsets strictly increase |
| MachOSymtab.ListingOfPacked | src/macho.c:361-381 | listing packed non-empty NUL-free names, followed by a NUL or by the end, gives exactly those names at their offsets |
| MachOSymtab.ListingOfPackedWindow | src/macho.c:361-381 | a string table made of NUL-terminated non-empty names lists back as those names at their offsets |
| MachOSymtab.ScanIsListing | src/macho.c:361-381 | reading byte by byte, closing an entry at each NUL and stopping at an empty one, yields the run-by-run listing after the entries found so far |
| MachOSymtab.ScanStopsIsStops | src/macho.c:361-381 | the byte-by-byte reading stops at an empty entry exactly when the run-by-run listing does |
| MachOSymtab.ListingOfPrefix | src/macho.c:361-381 | once the listing stops inside a window, any longer window with the same start lists the same entries: bytes after the stop are never read |
| MachOSymtab.ListingIgnoresTail | src/macho.c:361-381 | a defined listing does not change when the file goes on past its end |
| MachOSymtab.ScanBytes | src/macho.c:361-381 | the loop over the window's bytes yields the listing, entries tagged with the table offset of their first byte, when the window is whole or the listing stops inside it; it yields None exactly when it reads EOF first |
| MachOSymtab.ScanWindow | src/macho.c:361-381 | the loop over the `string_table_size - 1` bytes at the cursor yields the listing of the part inside the file; None only when the end of the file comes before the window's end and before any empty entry |
| MachOSymtab.ListStrings | src/macho.c:358-381 | seeks to `string_table_offset + 1` (a 32-bit sum) and yields the listing of the window there; a listing that stops at an empty entry inside the file is defined even when the window passes the end of the file |
| MachOSymtab.CStringAtShape | src/macho.c:410-415 | a resolved name holds no NUL, is found in the file at its offset, and ends at a NUL or at the end of the file |
| MachOSymtab.CStringAtTerminated | src/macho.c:410-415 | conversely, a NUL-free run followed by a NUL is the name resolved at its start |
| MachOSymtab.ResolveName | src/macho.c:407-417 | yields the name at `string_table_offset + string_index`, and the cursor afterwards equals the cursor before |
| MachOSymtab.WindowNameResolves | src/macho.c:361-417 | for any window with its first byte at table offset 1, looking a name up at a listed entry's offset gives that entry's text |
| MachOSymtab.ListedNamesResolve | src/macho.c:361-417 | a name looked up at the offset the listing reports for an entry is that entry's text, for every entry but the last, which the window may cut short |
| MachOSymtab.WalkFits | src/macho.c:383-391 | when each read succeeds exactly for records ending within the file, a walk of `count` reads succeeds exactly when its last record does |
| MachOSymtab.WalkNth | src/macho.c:383-391 | item k of a successful walk is what the read at record k yields |
| MachOSymtab.SymbolsCons | src/macho.c:387-391 | one turn of the symbol loop: the symbol at the cursor with the name its string index points at, then the walk from the next record; a short symbol record ends the walk |
| MachOSymtab.SymbolsFrom | src/macho.c:383-391 | a successful walk holds exactly `count` named symbols |
| MachOSymtab.SymbolsFit | src/macho.c:383-391 | for a non-zero count the walk succeeds exactly when `at + count * symbol size` is within the file |
| MachOSymtab.SymbolsStep | src/macho.c:387-391 | a non-empty walk is the symbol at its start, with its name, followed by the walk from the next record |
| MachOSymtab.SymbolsLaidOut | src/macho.c:383-417 | symbol k of the walk is the record k symbol sizes after the first, named by the string its string index points at |
| MachOSymtab.ListSymbols | src/macho.c:383-391 | reads `symbol_count` symbols in table order, each with its resolved name, and ends `count` symbol sizes on; the name lookups do not disturb the symbol reads |
| MachOSymtab.SymtabPass | src/macho.c:344-396 | yields the string listing and the named symbols, and leaves the cursor where it found it |
| PrintMachO.BitsOf | src/print_macho.c:34 | the width is 32 or 64, and 64 exactly when the CPU type has the 64-bit flag, whatever the magic |
| PrintMachO.PayloadSize | src/print_macho.c:71-79 | `size - 8` on uint32: the declared size less the 8 tag and size bytes, wrapping to nearly 2^32 for sizes below 8 |
| PrintMachO.SectionsEndIs | src/print_macho.c:52-56 | `count` sections end `count` section sizes after the first |
| PrintMachO.SectionsFrom | src/print_macho.c:52-56 | a successful run holds exactly `count` sections, all inside the file; a failing one is truncated at or after the first section |
| PrintMachO.SectionsStep | src/print_macho.c:52-56 | a non-empty run is the section at its start followed by the run after it |
| PrintMachO.SectionsLaidOut | src/print_macho.c:52-56 | section k of a run is the one found where the first k sections end |
| PrintMachO.ReadSections | src/print_macho.c:52-56 | the section loop reads that run and leaves the cursor where it ends |
| PrintMachO.CommandAt | src/print_macho.c:40-80 | a command starts at its offset with the tag and size found there; for tags other than 0x1, 0x19, 0x2 and 0xb with size at least 8, it ends at start + size |
| PrintMachO.CommandWith | src/print_macho.c:43-80 | the tag switch keeps the offset and load command, and advances by the declared size on the generic path |
| PrintMachO.SegmentCommand | src/print_macho.c:45-57 | tags 0x1 and 0x19 read exactly `section_count` sections of width `bits`; the command ends after the segment and its sections, with no seek to start + size |
| PrintMachO.SymtabCommand | src/print_macho.c:58-62 | tag 0x2 ends at start + 24 and carries the symtab pass's listing |
| PrintMachO.DysymtabCommand | src/print_macho.c:63-67 | tag 0xb ends at start + 80 |
| PrintMachO.BuildVersionCommand | src/print_macho.c:68-77 | tag 0x32 consumes exactly `size - 8` bytes and keeps them as they are; it fails exactly when they pass the end of the file |
| PrintMachO.DumpPayload | src/print_macho.c:71-75 | `count` getc calls yield the next `count` bytes of the file and advance by `count` |
| PrintMachO.ProcessCommand | src/print_macho.c:40-80 | one loop iteration yields the command at the cursor and leaves the cursor where that command ends |
| PrintMachO.ReadSegmentCommand | src/print_macho.c:45-57 | the segment case yields the segment command and leaves the cursor after its last section |
| PrintMachO.ReadSymtabCommand | src/print_macho.c:58-62 | the symtab case yields the symtab command and leaves the cursor right after the 16-byte record |
| PrintMachO.ReadDysymtabCommand | src/print_macho.c:63-67 | the dysymtab case yields the dysymtab command and leaves the cursor right after the 72-byte record |
| PrintMachO.ReadBuildVersionCommand | src/print_macho.c:68-77 | the 0x32 case yields the dumped bytes and leaves the cursor after them |
| PrintMachO.CommandsFrom | src/print_macho.c:37-82 | a successful walk holds exactly `count` commands, the first at the starting offset; a failure is truncated at or after it |
| PrintMachO.CommandsStep | src/print_macho.c:37-82 | each command starts where the previous one left the cursor, and the first failing command ends the walk |
| PrintMachO.CommandsHead | src/print_macho.c:37-43 | the first command of a successful walk is the command decoded at the walk's start |
| PrintMachO.CommandsTail | src/print_macho.c:37-82 | after its first command, a successful walk goes on from the offset where that command left the cursor |
| PrintMachO.CommandsDrop | src/print_macho.c:37-82 | walking the remaining commands from command k's offset gives exactly commands k and after |
| PrintMachO.CommandsLaidOut | src/print_macho.c:37-82 | for every k, command k of a successful walk is the command decoded at its own offset, and command k+1 starts where command k left the cursor |
| PrintMachO.NextCommand | src/print_macho.c:38-81 | one turn of the loop extends the commands read so far by one and leaves the rest of the walk to the remaining count |
| PrintMachO.ReadCommands | src/print_macho.c:37-82 | the loop runs exactly `count` iterations, in stream order, and leaves the cursor where the last command ends |
| PrintMachO.ParseAt | src/print_macho.c:16-87 | a rejected header ends the parse before any load command; otherwise the magic is accepted, the width follows the 64-bit flag, there are exactly `load_command_count` commands, and the first starts right after the header |
| PrintMachO.ParseCommands | src/print_macho.c:34-84 | a successful parse holds the walk of `load_command_count` commands from right after the header at the width `BitsOf` gives, and ends where that walk ends; with CommandsLaidOut this places every command |
| PrintMachO.ParseMachO | src/print_macho.c:16-87 | the parse yields ParseAt of the file at the cursor, ends with the cursor after the last command, and a rejected magic consumes only its 4 bytes |

## Left out

- `main`, command-line handling, `fopen`/`fclose` and exit codes: the model starts from a `Reader` over the file's bytes.
- All `printf` output is left out: the header, segment, section, symbol and dysymtab listings, the hex-dump layout of tag 0x32 and the final offset line. The model keeps only which bytes are read and what data they yield.
- `macho_print_header`'s use of the labels: the lookups are modelled, but the text they are printed in is not.
- FileIO.ReadUint8, FileIO.ReadUint16, FileIO.ReadUint32, FileIO.ReadUint64: a read that runs past the end of the file yields None. The C ORs EOF (-1) into the value and goes on.
- FileIO.ReadUint32: the signed overflow of `getc(in) << 24` on `int` is not modelled. The value is the unsigned sum of the four bytes.
- MachODecode.ReadLoadCommand, MachODecode.ReadSegmentLoad, MachODecode.ReadSection, MachODecode.ReadSymbol, MachODecode.ReadSymtab, MachODecode.ReadDysymtab: each fails up front when its whole record does not fit. The C returns -1 only on a short name `fread` and otherwise reads on past the end.
- MachODecode.ReadHeader: a file shorter than the 4 magic bytes gives Truncated, where the C would compare a value holding EOF bits against the two magics and print "Not a MachO file". An accepted magic followed by fewer bytes than the rest of the header also gives Truncated, where the C reads EOF into the fields and goes on.
- MachODecode.WordAt: a 32-bit field with bit 31 set is a negative `int` in the C (`read_uint32` returns `int`), and it is sign-extended when stored in the `uint64_t` address, size and value fields (src/macho.c:180-183, 208-209, 248). The model keeps the unsigned 32-bit value, so its bound below 2^32 describes the model, not the binary.
- PrintMachO.ParseMachO: the cursor after a failed command is left unspecified. The C keeps looping after a short read, and the model stops at the first failure.
- MachOSymtab.ListStrings: the listing is None when the loop reaches the end of the file before the end of the window `[string_table_offset + 1, string_table_offset + string_table_size)` and before an empty entry. The C then reads EOF, which is not 0, so it would list -1 bytes as characters until its counter runs out.
- PrintMachO.BuildVersionCommand: the dump fails when `size - 8` bytes are not all in the file. The C goes on printing EOF values.
- Codes of 2^31 and above become negative `int`s in the C lookups, and index the tables out of bounds. The model takes codes as non-negative and states only the fallback for codes past the end of a table.
- `%s` printing of 16-byte names that may lack a NUL: the names are kept as raw 16-byte sequences.
- `fseek` past the end of the file is modelled as a cursor beyond the data, from which every read fails or returns EOF. Other `FILE*` behaviour, such as buffering and I/O errors, is not modelled.
- After a segment, symtab or dysymtab command, parse_macho never seeks to `command start + size`, and it never checks that a decoder consumed the declared size. The model does the same: `SegmentCommand`, `SymtabCommand` and `DysymtabCommand` state the cursor advance each tag actually makes.
- A 32-bit section takes 72 bytes, because `reserved3` is read for both widths. Apple's 32-bit `struct section` is 68 bytes.
