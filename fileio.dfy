/** The byte reader of print_macho (src/fileio.c) and the part of stdio it
    stands on. The file is an immutable byte sequence with one cursor; every
    multi-byte integer is assembled least-significant byte first, whatever
    the host byte order. */
module FileIO {
  import opened Wrappers

  /** A byte as `getc` delivers it when it does not hit the end of the file. */
  type byte = b: int | 0 <= b < 0x100
  type u8 = byte
  type u16 = x: int | 0 <= x < 0x1_0000
  type u32 = x: int | 0 <= x < 0x1_0000_0000
  type u64 = x: int | 0 <= x < 0x1_0000_0000_0000_0000

  /** What `getc` returns at the end of the file. */
  const EOF: int := -1

  function Pow256(n: nat): (r: nat)
    ensures r > 0
  {
    if n == 0 then 1 else 0x100 * Pow256(n - 1)
  }

  /** The number whose base-256 digits are `s`, lowest digit first. */
  function LittleEndian(s: seq<byte>): nat
  {
    if s == [] then 0 else s[0] as int + 0x100 * LittleEndian(s[1..])
  }

  /** The `n` base-256 digits of `v`, lowest first: the inverse of LittleEndian. */
  function ToLittleEndian(v: nat, n: nat): (s: seq<byte>)
    ensures |s| == n
  {
    if n == 0 then [] else [v % 0x100] + ToLittleEndian(v / 0x100, n - 1)
  }

  /** An n-byte little-endian value is below 2^(8n). */
  lemma {:induction false} LittleEndianBound(s: seq<byte>)
    ensures LittleEndian(s) < Pow256(|s|)
  {
    if s != [] {
      LittleEndianBound(s[1..]);
    }
  }

  /** Every value below 2^(8n) is the decoding of its own n-byte encoding. */
  lemma {:induction false} DecodeEncode(v: nat, n: nat)
    requires v < Pow256(n)
    ensures LittleEndian(ToLittleEndian(v, n)) == v
  {
    if n > 0 {
      DecodeEncode(v / 0x100, n - 1);
      var s := ToLittleEndian(v, n);
      assert s[1..] == ToLittleEndian(v / 0x100, n - 1);
    }
  }

  /** Encoding the decoding of `s` gives `s` back. */
  lemma {:induction false} EncodeDecode(s: seq<byte>)
    ensures ToLittleEndian(LittleEndian(s), |s|) == s
  {
    if s != [] {
      EncodeDecode(s[1..]);
      var v := LittleEndian(s);
      assert v % 0x100 == s[0] && v / 0x100 == LittleEndian(s[1..]);
    }
  }

  /** Distinct n-byte sequences decode to distinct values, so decoding is a
      bijection from n-byte sequences onto [0, 2^(8n)). */
  lemma LittleEndianInjective(s: seq<byte>, t: seq<byte>)
    requires |s| == |t| && LittleEndian(s) == LittleEndian(t)
    ensures s == t
  {
    EncodeDecode(s);
    EncodeDecode(t);
  }

  lemma LittleEndian2(s: seq<byte>)
    requires |s| == 2
    ensures LittleEndian(s) == s[0] as int + 0x100 * s[1] as int
  {
    assert s[1..][1..] == [];
    assert LittleEndian(s[1..]) == s[1] as int;
  }

  lemma LittleEndian4(s: seq<byte>)
    requires |s| == 4
    ensures LittleEndian(s) == s[0] as int + 0x100 * s[1] as int + 0x1_0000 * s[2] as int + 0x100_0000 * s[3] as int
  {
    LittleEndian2(s[2..]);
    assert s[1..][1..] == s[2..];
  }

  lemma LittleEndian8(s: seq<byte>)
    requires |s| == 8
    ensures LittleEndian(s) == s[0] as int + 0x100 * s[1] as int + 0x1_0000 * s[2] as int + 0x100_0000 * s[3] as int
                               + 0x1_0000_0000 * s[4] as int + 0x100_0000_0000 * s[5] as int
                               + 0x1_0000_0000_0000 * s[6] as int + 0x100_0000_0000_0000 * s[7] as int
  {
    LittleEndian4(s[4..]);
    assert s[1..][1..] == s[2..] && s[2..][1..] == s[3..] && s[3..][1..] == s[4..];
    assert LittleEndian(s[3..]) == s[3] as int + 0x100 * LittleEndian(s[4..]);
    assert LittleEndian(s[2..]) == s[2] as int + 0x100 * LittleEndian(s[3..]);
    assert LittleEndian(s[1..]) == s[1] as int + 0x100 * LittleEndian(s[2..]);
  }

  /** read_uint16's value at `at`: the little-endian value of two bytes. */
  function Uint16At(data: seq<byte>, at: nat): u16
    requires at + 2 <= |data|
  {
    LittleEndianBound(data[at..at + 2]);
    assert Pow256(2) == 0x1_0000;
    LittleEndian(data[at..at + 2])
  }

  /** read_uint32's value at `at`: the little-endian value of four bytes. */
  function Uint32At(data: seq<byte>, at: nat): u32
    requires at + 4 <= |data|
  {
    LittleEndianBound(data[at..at + 4]);
    assert Pow256(4) == 0x1_0000_0000;
    LittleEndian(data[at..at + 4])
  }

  /** read_uint64's value at `at`: the little-endian value of eight bytes. */
  function Uint64At(data: seq<byte>, at: nat): u64
    requires at + 8 <= |data|
  {
    LittleEndianBound(data[at..at + 8]);
    assert Pow256(8) == 0x1_0000_0000_0000_0000;
    LittleEndian(data[at..at + 8])
  }

  /** read_uint16 computes `b0 | b1 << 8`; the shifted bytes do not overlap,
      so the OR is a sum, and that sum is Uint16At. */
  lemma Uint16Bytes(data: seq<byte>, at: nat)
    requires at + 2 <= |data|
    ensures Uint16At(data, at) == data[at] as int + 0x100 * data[at + 1] as int
  {
    var s := data[at..at + 2];
    LittleEndian2(s);
    assert s[0] == data[at] && s[1] == data[at + 1];
  }

  /** read_uint32 computes `b0 | b1 << 8 | b2 << 16 | b3 << 24`, which is Uint32At. */
  lemma Uint32Bytes(data: seq<byte>, at: nat)
    requires at + 4 <= |data|
    ensures Uint32At(data, at)
         == data[at] as int + 0x100 * data[at + 1] as int + 0x1_0000 * data[at + 2] as int + 0x100_0000 * data[at + 3] as int
  {
    var s := data[at..at + 4];
    LittleEndian4(s);
    assert s[0] == data[at] && s[1] == data[at + 1] && s[2] == data[at + 2] && s[3] == data[at + 3];
  }

  /** read_uint64 weighs byte k by 2^(8k), which is Uint64At. */
  lemma Uint64Bytes(data: seq<byte>, at: nat)
    requires at + 8 <= |data|
    ensures Uint64At(data, at)
         == data[at] as int + 0x100 * data[at + 1] as int + 0x1_0000 * data[at + 2] as int + 0x100_0000 * data[at + 3] as int
            + 0x1_0000_0000 * data[at + 4] as int + 0x100_0000_0000 * data[at + 5] as int
            + 0x1_0000_0000_0000 * data[at + 6] as int + 0x100_0000_0000_0000 * data[at + 7] as int
  {
    var s := data[at..at + 8];
    LittleEndian8(s);
    assert s[0] == data[at] && s[1] == data[at + 1] && s[2] == data[at + 2] && s[3] == data[at + 3];
    assert s[4] == data[at + 4] && s[5] == data[at + 5] && s[6] == data[at + 6] && s[7] == data[at + 7];
  }

  /** Where the cursor stands after asking for `n` bytes at `pos`: `n` further
      on when they are all there, otherwise at the end of the data (a cursor
      already past the end does not move). */
  function AfterRead(pos: nat, n: nat, length: nat): (p: nat)
    ensures pos <= p <= pos + n
    ensures p == pos + n <==> pos + n <= length || n == 0
  {
    if pos + n <= length then pos + n else if pos < length then length else pos
  }

  /** A FILE* opened for reading: the file's bytes and the stream position. */
  class Reader {
    /** The whole file; nothing ever changes it. */
    const data: seq<byte>
    /** The stream position, which `fseek` may put past the end. */
    var pos: nat

    constructor (contents: seq<byte>)
      ensures data == contents && pos == 0
    {
      data := contents;
      pos := 0;
    }

    /** `ftell`. */
    method Tell() returns (p: nat)
      ensures p == pos
    {
      p := pos;
    }

    /** `fseek(fp, to, SEEK_SET)`. */
    method Seek(to: nat)
      modifies this
      ensures pos == to
    {
      pos := to;
    }

    /** `fseek(fp, n, SEEK_CUR)` with a non-negative offset. */
    method Skip(n: nat)
      modifies this
      ensures pos == old(pos) + n
    {
      pos := pos + n;
    }

    /** `getc`: the byte under the cursor, or EOF without moving at the end. */
    method GetC() returns (c: int)
      modifies this
      ensures old(pos) < |data| ==> c == data[old(pos)] && pos == old(pos) + 1
      ensures |data| <= old(pos) ==> c == EOF && pos == old(pos)
    {
      if pos < |data| {
        c := data[pos];
        pos := pos + 1;
      } else {
        c := EOF;
      }
    }

    /** `fread(buffer, 1, n, fp) == n`: the next `n` bytes, or None when fewer
        remain (the cursor then stops at the end of the data). */
    method Read(n: nat) returns (r: Option<seq<byte>>)
      modifies this
      ensures pos == AfterRead(old(pos), n, |data|)
      ensures r == if old(pos) + n <= |data| then Some(data[old(pos)..old(pos) + n]) else None
    {
      if pos + n <= |data| {
        r := Some(data[pos..pos + n]);
        pos := pos + n;
      } else {
        r := None;
        if pos < |data| {
          pos := |data|;
        }
      }
    }
  }

  /** `read_uint8`: one byte, unchanged. */
  method ReadUint8(r: Reader) returns (v: Option<u8>)
    modifies r
    ensures r.pos == AfterRead(old(r.pos), 1, |r.data|)
    ensures v == if old(r.pos) + 1 <= |r.data| then Some(r.data[old(r.pos)]) else None
  {
    var c := r.GetC();
    if c == EOF {
      return None;
    }
    v := Some(c);
  }

  /** `read_uint16`: two bytes, low byte first. */
  method ReadUint16(r: Reader) returns (v: Option<u16>)
    modifies r
    ensures r.pos == AfterRead(old(r.pos), 2, |r.data|)
    ensures v == if old(r.pos) + 2 <= |r.data| then Some(Uint16At(r.data, old(r.pos))) else None
  {
    var c0 := r.GetC();
    var c1 := r.GetC();
    if c1 == EOF {
      return None;
    }
    // The C ORs in the shifted byte; the bits do not overlap, so this is a sum.
    var c := c0;
    c := c + c1 * 0x100;
    Uint16Bytes(r.data, old(r.pos));
    v := Some(c);
  }

  /** `read_uint32`: four bytes, low byte first. */
  method ReadUint32(r: Reader) returns (v: Option<u32>)
    modifies r
    ensures r.pos == AfterRead(old(r.pos), 4, |r.data|)
    ensures v == if old(r.pos) + 4 <= |r.data| then Some(Uint32At(r.data, old(r.pos))) else None
  {
    var c0 := r.GetC();
    var c1 := r.GetC();
    var c2 := r.GetC();
    var c3 := r.GetC();
    if c3 == EOF {
      return None;
    }
    var c := c0;
    c := c + c1 * 0x100;
    c := c + c2 * 0x1_0000;
    c := c + c3 * 0x100_0000;
    Uint32Bytes(r.data, old(r.pos));
    v := Some(c);
  }

  /** `read_uint64`: eight bytes, low byte first. */
  method ReadUint64(r: Reader) returns (v: Option<u64>)
    modifies r
    ensures r.pos == AfterRead(old(r.pos), 8, |r.data|)
    ensures v == if old(r.pos) + 8 <= |r.data| then Some(Uint64At(r.data, old(r.pos))) else None
  {
    var c0 := r.GetC();
    var c1 := r.GetC();
    var c2 := r.GetC();
    var c3 := r.GetC();
    var c4 := r.GetC();
    var c5 := r.GetC();
    var c6 := r.GetC();
    var c7 := r.GetC();
    if c7 == EOF {
      return None;
    }
    var c := c0;
    c := c + c1 * 0x100;
    c := c + c2 * 0x1_0000;
    c := c + c3 * 0x100_0000;
    c := c + c4 * 0x1_0000_0000;
    c := c + c5 * 0x100_0000_0000;
    c := c + c6 * 0x1_0000_0000_0000;
    c := c + c7 * 0x100_0000_0000_0000;
    Uint64Bytes(r.data, old(r.pos));
    v := Some(c);
  }
}
