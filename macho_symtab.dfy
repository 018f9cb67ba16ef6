/** The symbol-table pass of src/macho.c (macho_print_symtab and
    macho_print_symbol) with its output kept as data: the string table split
    into (offset, text) entries, and each symbol with the NUL-terminated name
    its string index points at. The pass moves the cursor about the file and
    puts it back where it found it. */
module MachOSymtab {
  import opened Wrappers
  import opened FileIO
  import opened MachOTypes
  import opened MachODecode

  /** One line of the string-table listing: the table offset `n` of the
      entry's first byte, and the entry's bytes. */
  datatype StringEntry = StringEntry(offset: nat, text: seq<byte>)

  /** A symbol with the name its string index resolves to. */
  datatype NamedSymbol = NamedSymbol(symbol: Symbol, name: seq<byte>)

  /** What the pass produces. Either part is None when it reads past the end
      of the file; the other part does not depend on it. */
  datatype SymtabListing = SymtabListing(strings: Option<seq<StringEntry>>, symbols: Option<seq<NamedSymbol>>)

  predicate NulFree(s: seq<byte>)
  {
    forall i | 0 <= i < |s| :: s[i] != 0
  }

  /** No NUL in `w` from index `i` up to (not including) `j`. */
  predicate NulFreeBetween(w: seq<byte>, i: nat, j: nat)
  {
    forall t | i <= t < j && t < |w| :: w[t] != 0
  }

  // ---------------------------------------------------------------------------
  // The string-table listing

  /** Where the run of non-NUL bytes of `w` that starts at `i` ends: at the
      first NUL from `i` on, or at the end of `w`. */
  function RunEnd(w: seq<byte>, i: nat): (j: nat)
    requires i <= |w|
    ensures i <= j <= |w|
    ensures j < |w| ==> w[j] == 0
    decreases |w| - i
  {
    if i == |w| || w[i] == 0 then i else RunEnd(w, i + 1)
  }

  /** A NUL-free stretch followed by a NUL (or by the end) is the run. */
  lemma {:induction false} RunEndIs(w: seq<byte>, i: nat, j: nat)
    requires i <= j <= |w| && NulFreeBetween(w, i, j)
    requires j < |w| ==> w[j] == 0
    ensures RunEnd(w, i) == j
    decreases j - i
  {
    if i < j {
      RunEndIs(w, i + 1, j);
    }
  }

  /** The entries the listing loop reports for the window `w` of the string
      table from index `i` on, where `w[0]` sits at table offset `first`:
      each maximal run of non-NUL bytes, in order, up to the first empty run
      (two NULs in a row, or a NUL at the start), where the loop stops. A run
      cut off by the end of the window is still reported. */
  function ListingFrom(w: seq<byte>, i: nat, first: nat): seq<StringEntry>
    requires i <= |w|
    decreases |w| - i
  {
    var j := RunEnd(w, i);
    if j == i then []
    else if j == |w| then [StringEntry(first + i, w[i..])]
    else [StringEntry(first + i, w[i..j])] + ListingFrom(w, j + 1, first)
  }

  function Listing(w: seq<byte>, first: nat): seq<StringEntry>
  {
    ListingFrom(w, 0, first)
  }

  /** The listing from a NUL-free run closed by a NUL: that run, then the
      listing after the NUL. */
  lemma ListingStep(w: seq<byte>, i: nat, j: nat, first: nat)
    requires i < j < |w| && NulFreeBetween(w, i, j) && w[j] == 0
    ensures ListingFrom(w, i, first) == [StringEntry(first + i, w[i..j])] + ListingFrom(w, j + 1, first)
  {
    RunEndIs(w, i, j);
  }

  /** The listing from a NUL-free run that reaches the end: that run alone. */
  lemma ListingLast(w: seq<byte>, i: nat, first: nat)
    requires i < |w| && NulFreeBetween(w, i, |w|)
    ensures ListingFrom(w, i, first) == [StringEntry(first + i, w[i..])]
  {
    RunEndIs(w, i, |w|);
  }

  /** An entry whose text is found, non-empty and NUL-free, in `w` at its
      offset, at or after index `i`. */
  predicate EntryIn(w: seq<byte>, i: nat, first: nat, e: StringEntry)
  {
    e.text != [] && NulFree(e.text) && first + i <= e.offset
    && e.offset - first + |e.text| <= |w| && w[e.offset - first..e.offset - first + |e.text|] == e.text
  }

  /** `e` ends with a NUL in `w`, and `next` starts right after it. */
  predicate Separated(w: seq<byte>, first: nat, e: StringEntry, next: StringEntry)
  {
    first <= e.offset && e.offset - first + |e.text| < |w| && w[e.offset - first + |e.text|] == 0
    && next.offset == e.offset + |e.text| + 1
  }

  /** Every entry of the listing is a non-empty NUL-free run found at its
      offset, and it is separated from the next entry by exactly one NUL; so
      the offsets strictly increase. */
  lemma {:induction false} ListingEntry(w: seq<byte>, i: nat, first: nat, k: nat)
    requires i <= |w| && k < |ListingFrom(w, i, first)|
    ensures EntryIn(w, i, first, ListingFrom(w, i, first)[k])
    ensures k + 1 < |ListingFrom(w, i, first)| ==>
      Separated(w, first, ListingFrom(w, i, first)[k], ListingFrom(w, i, first)[k + 1])
    decreases k
  {
    if k == 0 {
      ListingHead(w, i, first);
    } else {
      var es := ListingFrom(w, i, first);
      var j := RunEnd(w, i);
      ListingTail(w, i, first);
      var tail := ListingFrom(w, j + 1, first);
      ListingEntry(w, j + 1, first, k - 1);
      EntryInFrom(w, i, j + 1, first, tail[k - 1]);
      ConsIndex(es, tail, k);
    }
  }

  /** A listing of two or more entries goes on after the NUL that closes its
      first run. */
  lemma ListingTail(w: seq<byte>, i: nat, first: nat)
    requires i <= |w| && 1 < |ListingFrom(w, i, first)|
    ensures i < RunEnd(w, i) < |w|
    ensures ListingFrom(w, i, first)[1..] == ListingFrom(w, RunEnd(w, i) + 1, first)
  {
  }

  lemma ConsIndex<T>(xs: seq<T>, tail: seq<T>, k: nat)
    requires 0 < k < |xs| && xs[1..] == tail
    ensures xs[k] == tail[k - 1]
    ensures k + 1 < |xs| ==> xs[k + 1] == tail[k]
  {
  }

  /** An entry found from index `j` on is found from any earlier index. */
  lemma EntryInFrom(w: seq<byte>, i: nat, j: nat, first: nat, e: StringEntry)
    requires i <= j && EntryIn(w, j, first, e)
    ensures EntryIn(w, i, first, e)
  {
  }

  /** The first entry of a listing, and how the second follows it. */
  lemma ListingHead(w: seq<byte>, i: nat, first: nat)
    requires i <= |w| && 0 < |ListingFrom(w, i, first)|
    ensures EntryIn(w, i, first, ListingFrom(w, i, first)[0])
    ensures 1 < |ListingFrom(w, i, first)| ==>
      Separated(w, first, ListingFrom(w, i, first)[0], ListingFrom(w, i, first)[1])
  {
    var es := ListingFrom(w, i, first);
    var j := RunEnd(w, i);
    var head := StringEntry(first + i, w[i..j]);
    RunIsNulFree(w, i, j);
    if j < |w| {
      var tail := ListingFrom(w, j + 1, first);
      assert es == [head] + tail;
      assert es[0] == head;
      if 0 < |tail| {
        assert tail[0].offset == first + j + 1;
        assert es[1] == tail[0];
      }
    } else {
      assert w[i..] == w[i..j];
      assert es == [head];
    }
  }

  /** A run, as a slice, is NUL-free. */
  lemma {:induction false} RunIsNulFree(w: seq<byte>, i: nat, j: nat)
    requires i <= |w| && j == RunEnd(w, i)
    ensures NulFree(w[i..j])
    decreases |w| - i
  {
    if i < j {
      RunIsNulFree(w, i + 1, j);
      assert w[i..j] == [w[i]] + w[i + 1..j];
    }
  }

  /** Names a string table can hold as entries: non-empty and NUL-free. */
  predicate ListableNames(texts: seq<seq<byte>>)
  {
    texts == [] || (texts[0] != [] && NulFree(texts[0]) && ListableNames(texts[1..]))
  }

  /** The string-table bytes a list of names becomes: each name followed by
      its NUL. */
  function Pack(texts: seq<seq<byte>>): (w: seq<byte>)
  {
    if texts == [] then [] else texts[0] + [0] + Pack(texts[1..])
  }

  /** The entries the listing should report for packed names: each name at
      the offset where Pack puts it. */
  function EntriesOf(texts: seq<seq<byte>>, first: nat): (es: seq<StringEntry>)
    ensures |es| == |texts|
  {
    if texts == [] then [] else [StringEntry(first, texts[0])] + EntriesOf(texts[1..], first + |texts[0]| + 1)
  }

  /** Round trip: listing packed non-empty NUL-free names gives back exactly
      those names at their offsets, whatever follows an empty entry. */
  lemma {:induction false} ListingOfPacked(texts: seq<seq<byte>>, w: seq<byte>, i: nat, first: nat)
    requires ListableNames(texts)
    requires i <= |w| && |Pack(texts)| <= |w| - i && w[i..i + |Pack(texts)|] == Pack(texts)
    requires i + |Pack(texts)| == |w| || w[i + |Pack(texts)|] == 0
    ensures ListingFrom(w, i, first) == EntriesOf(texts, first + i)
    decreases |texts|
  {
    if texts == [] {
      RunEndIs(w, i, i);
      assert ListingFrom(w, i, first) == [];
    } else {
      var t := texts[0];
      PackedParts(texts, w, i);
      ListingOfPacked(texts[1..], w, i + |t| + 1, first);
      assert texts == [t] + texts[1..];
      ListingCons(w, i, t, texts[1..], first);
    }
  }

  /** Packed names found at `i`: the first name, its NUL, then the rest
      packed. */
  lemma PackedParts(texts: seq<seq<byte>>, w: seq<byte>, i: nat)
    requires texts != [] && ListableNames(texts)
    requires i + |Pack(texts)| <= |w| && w[i..i + |Pack(texts)|] == Pack(texts)
    ensures texts[0] != [] && NulFree(texts[0]) && ListableNames(texts[1..])
    ensures |Pack(texts)| == |texts[0]| + 1 + |Pack(texts[1..])|
    ensures w[i..i + |texts[0]|] == texts[0] && w[i + |texts[0]|] == 0
    ensures w[i + |texts[0]| + 1..i + |Pack(texts)|] == Pack(texts[1..])
  {
    var t := texts[0];
    var more := Pack(texts[1..]);
    assert Pack(texts) == t + [0] + more;
    SliceOfPacked(w, i, t, more);
  }

  /** One name at `i`, closed by a NUL, in front of a window part that
      lists as `others`. */
  lemma ListingCons(w: seq<byte>, i: nat, t: seq<byte>, others: seq<seq<byte>>, first: nat)
    requires t != [] && NulFree(t)
    requires i + |t| < |w| && w[i..i + |t|] == t && w[i + |t|] == 0
    requires ListingFrom(w, i + |t| + 1, first) == EntriesOf(others, first + i + |t| + 1)
    ensures ListingFrom(w, i, first) == EntriesOf([t] + others, first + i)
  {
    NulFreeSlice(w, i, t);
    ListingStep(w, i, i + |t|, first);
    EntriesCons(t, others, first + i);
  }

  lemma EntriesCons(t: seq<byte>, others: seq<seq<byte>>, first: nat)
    ensures EntriesOf([t] + others, first) == [StringEntry(first, t)] + EntriesOf(others, first + |t| + 1)
  {
    assert ([t] + others)[1..] == others;
  }

  /** The pieces of a slice holding a name, its NUL, and more. */
  lemma SliceOfPacked(w: seq<byte>, i: nat, t: seq<byte>, more: seq<byte>)
    requires i + |t| + 1 + |more| <= |w| && w[i..i + |t| + 1 + |more|] == t + [0] + more
    ensures w[i..i + |t|] == t && w[i + |t|] == 0
    ensures w[i + |t| + 1..i + |t| + 1 + |more|] == more
  {
    var packed := t + [0] + more;
    var j := i + |t|;
    assert packed[..|t|] == t && packed[|t|] == 0 && packed[|t| + 1..] == more;
    assert w[i..j] == w[i..i + |packed|][..|t|];
    assert w[j] == w[i..i + |packed|][|t|];
    assert w[j + 1..j + 1 + |more|] == w[i..i + |packed|][|t| + 1..];
  }

  /** A NUL-free text found in `w` leaves no NUL in its range. */
  lemma NulFreeSlice(w: seq<byte>, i: nat, t: seq<byte>)
    requires i + |t| <= |w| && w[i..i + |t|] == t && NulFree(t)
    ensures NulFreeBetween(w, i, i + |t|)
  {
    forall u | i <= u < i + |t|
      ensures w[u] != 0
    {
      assert w[u] == t[u - i];
    }
  }

  /** Listing a whole window of packed names. */
  lemma ListingOfPackedWindow(texts: seq<seq<byte>>, first: nat)
    requires ListableNames(texts)
    ensures Listing(Pack(texts), first) == EntriesOf(texts, first)
  {
    var w := Pack(texts);
    assert w[0..|w|] == w;
    ListingOfPacked(texts, w, 0, first);
  }

  /** Where the listing loop reads: from string_table_offset + 1 (a 32-bit
      sum) for string_table_size - 1 bytes (none when the size is 0). */
  function WindowStart(st: Symtab): nat
  {
    if st.stringTableOffset + 1 < 0x1_0000_0000 then st.stringTableOffset + 1 else 0
  }

  function WindowLength(size: u32): nat
  {
    if size >= 1 then size - 1 else 0
  }

  /** The part of the `len` bytes at `lo` that lies inside the file. */
  function WindowIn(data: seq<byte>, lo: nat, len: nat): (w: seq<byte>)
    ensures lo >= |data| ==> w == []
    ensures lo < |data| ==> |w| == (if lo + len <= |data| then len else |data| - lo)
    ensures w == [] || (lo + |w| <= |data| && w == data[lo..lo + |w|])
  {
    if lo >= |data| then [] else if lo + len <= |data| then data[lo..lo + len] else data[lo..]
  }

  /** Whether the listing from index `i` ends at an empty run inside `w` (a
      NUL where an entry should start) rather than at the end of `w`. */
  predicate StopsFrom(w: seq<byte>, i: nat)
    requires i <= |w|
    decreases |w| - i
  {
    var j := RunEnd(w, i);
    if j == i then i < |w| else j < |w| && StopsFrom(w, j + 1)
  }

  /** The listing of the `len` bytes at `lo`. The loop reads them one by one
      and stops at the first empty entry, so it is only defined when that
      stop, or the whole window, lies within the file; otherwise the loop
      would read EOF as data, and the result is None. */
  function ListingAt(data: seq<byte>, lo: nat, len: nat): Option<seq<StringEntry>>
  {
    var w := WindowIn(data, lo, len);
    if |w| == len || StopsFrom(w, 0) then Some(Listing(w, 1)) else None
  }

  /** The listing of the string table of `st`. */
  function StringsAt(data: seq<byte>, st: Symtab): Option<seq<StringEntry>>
  {
    ListingAt(data, WindowStart(st), WindowLength(st.stringTableSize))
  }

  lemma {:induction false} RunNulFreeBetween(w: seq<byte>, i: nat)
    requires i <= |w|
    ensures NulFreeBetween(w, i, RunEnd(w, i))
    decreases |w| - i
  {
    if i < |w| && w[i] != 0 {
      RunNulFreeBetween(w, i + 1);
    }
  }

  /** A listing that stops inside `w` is the listing of any longer window
      that starts with `w`: the bytes after the stop are never looked at. */
  lemma ListingOfPrefix(w: seq<byte>, v: seq<byte>, i: nat, first: nat)
    requires i <= |w| <= |v| && w == v[..|w|] && StopsFrom(w, i)
    ensures StopsFrom(v, i)
    ensures ListingFrom(v, i, first) == ListingFrom(w, i, first)
  {
    StopsOfPrefix(w, v, i);
    ListingFromPrefix(w, v, i, first);
  }

  lemma {:induction false} StopsOfPrefix(w: seq<byte>, v: seq<byte>, i: nat)
    requires i <= |w| <= |v| && w == v[..|w|] && StopsFrom(w, i)
    ensures StopsFrom(v, i)
    decreases |w| - i
  {
    var j := RunEnd(w, i);
    RunEndOfPrefix(w, v, i);
    if j > i {
      StopsNext(w, i);
      StopsOfPrefix(w, v, j + 1);
    }
  }

  lemma {:induction false} ListingFromPrefix(w: seq<byte>, v: seq<byte>, i: nat, first: nat)
    requires i <= |w| <= |v| && w == v[..|w|] && StopsFrom(w, i)
    ensures ListingFrom(v, i, first) == ListingFrom(w, i, first)
    decreases |w| - i
  {
    var j := RunEnd(w, i);
    RunEndOfPrefix(w, v, i);
    PrefixSlice(w, v, i, j);
    if j > i {
      StopsNext(w, i);
      ListingFromPrefix(w, v, j + 1, first);
    }
    ListingsAgree(w, v, i, first);
  }

  /** Two windows whose runs from `i` close at the same NUL, with the same
      bytes, and which list alike after it, list alike from `i`. */
  lemma ListingsAgree(w: seq<byte>, v: seq<byte>, i: nat, first: nat)
    requires i <= |w| <= |v| && RunEnd(w, i) < |w| && RunEnd(v, i) == RunEnd(w, i)
    requires v[i..RunEnd(w, i)] == w[i..RunEnd(w, i)]
    requires i < RunEnd(w, i) ==> ListingFrom(v, RunEnd(w, i) + 1, first) == ListingFrom(w, RunEnd(w, i) + 1, first)
    ensures ListingFrom(v, i, first) == ListingFrom(w, i, first)
  {
    ListingOpen(w, i, first);
    ListingOpen(v, i, first);
  }

  /** A listing that stops and whose first run is not empty stops after
      that run's NUL. */
  lemma StopsNext(w: seq<byte>, i: nat)
    requires i <= |w| && StopsFrom(w, i) && i < RunEnd(w, i)
    ensures RunEnd(w, i) < |w| && StopsFrom(w, RunEnd(w, i) + 1)
  {
  }

  /** The listing from a run closed by a NUL: nothing when the run is empty,
      otherwise the run and then the listing after the NUL. */
  lemma ListingOpen(w: seq<byte>, i: nat, first: nat)
    requires i <= |w| && RunEnd(w, i) < |w|
    ensures ListingFrom(w, i, first)
      == if RunEnd(w, i) == i then []
         else [StringEntry(first + i, w[i..RunEnd(w, i)])] + ListingFrom(w, RunEnd(w, i) + 1, first)
  {
  }

  lemma PrefixSlice(w: seq<byte>, v: seq<byte>, i: nat, j: nat)
    requires i <= j <= |w| <= |v| && w == v[..|w|]
    ensures v[i..j] == w[i..j]
  {
    assert forall t | i <= t < j :: v[t] == w[t];
  }

  /** A run that ends at a NUL inside `w` ends there in any longer window. */
  lemma RunEndOfPrefix(w: seq<byte>, v: seq<byte>, i: nat)
    requires i <= |w| <= |v| && w == v[..|w|] && RunEnd(w, i) < |w|
    ensures RunEnd(v, i) == RunEnd(w, i)
  {
    var j := RunEnd(w, i);
    RunNulFreeBetween(w, i);
    forall t | i <= t < j
      ensures v[t] != 0
    {
      assert v[t] == w[t];
    }
    assert w[j] == v[j];
    RunEndIs(v, i, j);
  }

  /** The listing does not depend on the bytes past the end of the file:
      a file that goes on gives the same listing. */
  lemma ListingIgnoresTail(data: seq<byte>, more: seq<byte>, lo: nat, len: nat)
    requires ListingAt(data, lo, len).Some?
    ensures ListingAt(data + more, lo, len) == ListingAt(data, lo, len)
  {
    var w := WindowIn(data, lo, len);
    var v := WindowIn(data + more, lo, len);
    if |w| == len {
      if len > 0 {
        assert v == (data + more)[lo..lo + len] == data[lo..lo + len] == w;
      } else {
        assert v == [];
      }
    } else {
      assert lo < |data| && w == data[lo..];
      assert |w| <= |v| && w == v[..|w|];
      ListingOfPrefix(w, v, 0, 1);
    }
  }

  /** The listing of macho_print_symtab: seek to string_table_offset + 1,
      wrapping as the 32-bit sum does, and scan the window from there. The
      cursor it leaves is not used: the pass seeks to the symbols next. */
  method ListStrings(r: Reader, st: Symtab) returns (entries: Option<seq<StringEntry>>)
    modifies r
    ensures entries == StringsAt(r.data, st)
  {
    r.Seek(WindowStart(st));
    entries := ScanWindow(r, st.stringTableSize);
  }

  /** The listing loop, from the cursor: the window it reads is the part of
      the `size - 1` bytes there that lies inside the file. The cursor it
      leaves is not used. */
  method ScanWindow(r: Reader, size: u32) returns (list: Option<seq<StringEntry>>)
    modifies r
    ensures list == ListingAt(r.data, old(r.pos), WindowLength(size))
  {
    ghost var w := WindowIn(r.data, r.pos, WindowLength(size));
    ScanIsListing(w, 0, 0, []);
    ScanStopsIsStops(w, 0, 0);
    assert [] + Listing(w, 1) == Listing(w, 1);
    list := ScanBytes(r, size, w, WindowLength(size));
  }

  /** The loop itself: read `w` byte by byte, closing an entry at each NUL
      and stopping at an empty one. `n` counts from 1 as the table offset of
      the byte about to be read. Reading EOF, which happens when `w` is cut
      short by the end of the file, ends the scan with None. */
  method ScanBytes(r: Reader, size: u32, ghost w: seq<byte>, ghost len: nat) returns (list: Option<seq<StringEntry>>)
    requires len == WindowLength(size) && |w| <= len
    requires w == [] || (r.pos + |w| <= |r.data| && w == r.data[r.pos..r.pos + |w|])
    requires |w| < len ==> |r.data| <= r.pos + |w|
    modifies r
    ensures list == if |w| == len || ScanStopsFrom(w, 0, 0) then Some(ScanFrom(w, 0, 0, [])) else None
  {
    ghost var lo := r.pos;
    // What the whole window lists, and whether that listing stops inside it.
    ghost var total := ScanFrom(w, 0, 0, []);
    ghost var stops := ScanStopsFrom(w, 0, 0);
    // The run in progress is `cur`, which starts at index `s` of the window.
    ghost var s: nat := 0;
    var found: seq<StringEntry> := [];
    var cur: seq<byte> := [];
    var n := 1;
    while n < size
      invariant 1 <= n && n - 1 <= len && n - 1 <= |w|
      invariant r.pos == lo + n - 1
      invariant s + |cur| == n - 1 && cur == w[s..n - 1]
      invariant ScanFrom(w, s, n - 1, found) == total
      invariant ScanStopsFrom(w, s, n - 1) == stops
    {
      var ch := r.GetC();
      if ch == EOF {
        assert |w| == n - 1 < len && !stops;
        return None;
      }
      assert ch == w[n - 1];
      if ch == 0 {
        if |cur| == 0 {
          assert stops && found == total;
          return Some(found);
        }
        found := found + [StringEntry(n - |cur|, cur)];
        cur := [];
        s := n;
      } else {
        assert w[s..n] == cur + [ch];
        cur := cur + [ch];
      }
      n := n + 1;
    }
    assert |w| == len;
    if |cur| > 0 {
      assert w[s..] == cur;
      found := found + [StringEntry(n - |cur|, cur)];
    }
    assert found == total;
    list := Some(found);
  }

  /** The listing as the loop reads it, one byte at a time, with the
      entries `found` so far: the run in progress starts at index `s` of the
      window and `k` is the next byte. Window index `i` is table offset
      `i + 1`. */
  function ScanFrom(w: seq<byte>, s: nat, k: nat, found: seq<StringEntry>): seq<StringEntry>
    requires s <= k <= |w|
    decreases |w| - k
  {
    if k == |w| then (if s < k then found + [StringEntry(1 + s, w[s..])] else found)
    else if w[k] != 0 then ScanFrom(w, s, k + 1, found)
    else if s == k then found
    else ScanFrom(w, k + 1, k + 1, found + [StringEntry(1 + s, w[s..k])])
  }

  /** Whether the loop, in the same state, stops at an empty entry. */
  predicate ScanStopsFrom(w: seq<byte>, s: nat, k: nat)
    requires s <= k <= |w|
    decreases |w| - k
  {
    if k == |w| then false
    else if w[k] != 0 then ScanStopsFrom(w, s, k + 1)
    else s == k || ScanStopsFrom(w, k + 1, k + 1)
  }

  /** Reading byte by byte lists what splitting into runs lists, and stops
      where it stops. */
  lemma {:induction false} ScanIsListing(w: seq<byte>, s: nat, k: nat, found: seq<StringEntry>)
    requires s <= k <= |w| && NulFreeBetween(w, s, k)
    ensures ScanFrom(w, s, k, found) == found + ListingFrom(w, s, 1)
    decreases |w| - k
  {
    if k < |w| && w[k] != 0 {
      ScanIsListing(w, s, k + 1, found);
    } else if s < k < |w| {
      ScanIsListing(w, k + 1, k + 1, found + [StringEntry(1 + s, w[s..k])]);
      ScanClosesRun(w, s, k, found);
    } else {
      ScanEndsRun(w, s, k, found);
    }
  }

  /** A NUL at `k` after a non-empty run closes it as an entry. */
  lemma ScanClosesRun(w: seq<byte>, s: nat, k: nat, found: seq<StringEntry>)
    requires s < k < |w| && NulFreeBetween(w, s, k) && w[k] == 0
    requires ScanFrom(w, k + 1, k + 1, found + [StringEntry(1 + s, w[s..k])])
      == (found + [StringEntry(1 + s, w[s..k])]) + ListingFrom(w, k + 1, 1)
    ensures ScanFrom(w, s, k, found) == found + ListingFrom(w, s, 1)
  {
    ListingStep(w, s, k, 1);
    Regroup(found, StringEntry(1 + s, w[s..k]), ListingFrom(w, k + 1, 1));
  }

  lemma Regroup<T>(xs: seq<T>, x: T, ys: seq<T>)
    ensures (xs + [x]) + ys == xs + ([x] + ys)
  {
  }

  /** The end of the window, or a NUL where a run should start, ends the
      reading with the run in progress, if any. */
  lemma ScanEndsRun(w: seq<byte>, s: nat, k: nat, found: seq<StringEntry>)
    requires s <= k <= |w| && NulFreeBetween(w, s, k)
    requires k == |w| || (w[k] == 0 && s == k)
    ensures ScanFrom(w, s, k, found) == found + ListingFrom(w, s, 1)
  {
    if s < k {
      ListingLast(w, s, 1);
    } else {
      RunEndIs(w, s, k);
      assert found + [] == found;
    }
  }

  lemma {:induction false} ScanStopsIsStops(w: seq<byte>, s: nat, k: nat)
    requires s <= k <= |w| && NulFreeBetween(w, s, k)
    ensures ScanStopsFrom(w, s, k) == StopsFrom(w, s)
    decreases |w| - k
  {
    if k < |w| && w[k] != 0 {
      ScanStopsIsStops(w, s, k + 1);
    } else {
      RunEndIs(w, s, k);
      if s < k < |w| {
        ScanStopsIsStops(w, k + 1, k + 1);
      }
    }
  }


  // ---------------------------------------------------------------------------
  // Name lookup

  /** The name macho_print_symbol prints for a string at `at`: the bytes up
      to the first NUL or the end of the file. */
  function CStringAt(data: seq<byte>, at: nat): seq<byte>
    decreases |data| - at
  {
    if at >= |data| || data[at] == 0 then [] else [data[at]] + CStringAt(data, at + 1)
  }

  /** The name is NUL-free, is found in the data at `at`, and ends at a NUL
      or at the end of the data. */
  lemma {:induction false} CStringAtShape(data: seq<byte>, at: nat)
    ensures NulFree(CStringAt(data, at))
    ensures at < |data| ==>
      && at + |CStringAt(data, at)| <= |data|
      && data[at..at + |CStringAt(data, at)|] == CStringAt(data, at)
      && (at + |CStringAt(data, at)| == |data| || data[at + |CStringAt(data, at)|] == 0)
    ensures at >= |data| ==> CStringAt(data, at) == []
    decreases |data| - at
  {
    if at < |data| && data[at] != 0 {
      CStringAtShape(data, at + 1);
      var rest := CStringAt(data, at + 1);
      var name := [data[at]] + rest;
      assert CStringAt(data, at) == name;
      forall i | 0 <= i < |name|
        ensures name[i] != 0
      {
        if i > 0 {
          assert name[i] == rest[i - 1];
        }
      }
      SliceCons(data, at, |rest|);
    }
  }

  lemma SliceCons<T>(xs: seq<T>, i: nat, n: nat)
    requires i + 1 + n <= |xs|
    ensures xs[i..i + 1 + n] == [xs[i]] + xs[i + 1..i + 1 + n]
  {
  }

  /** Conversely, a NUL-free run followed by a NUL is the name found there. */
  lemma {:induction false} CStringAtTerminated(data: seq<byte>, at: nat, t: seq<byte>)
    requires at + |t| < |data| && data[at..at + |t|] == t && NulFree(t) && data[at + |t|] == 0
    ensures CStringAt(data, at) == t
    decreases |t|
  {
    if t != [] {
      assert data[at] == t[0];
      assert data[at + 1..at + 1 + |t[1..]|] == t[1..];
      CStringAtTerminated(data, at + 1, t[1..]);
    }
  }

  /** The name scan of macho_print_symbol: remember the cursor, seek to the
      name, read until a NUL or EOF, then seek back. */
  method ResolveName(r: Reader, at: nat) returns (name: seq<byte>)
    modifies r
    ensures name == CStringAt(r.data, at)
    ensures r.pos == old(r.pos)
  {
    var marker := r.Tell();
    r.Seek(at);
    name := [];
    while true
      invariant r.pos == at + |name|
      invariant name + CStringAt(r.data, r.pos) == CStringAt(r.data, at)
      decreases |r.data| - r.pos
    {
      var ch := r.GetC();
      if ch == 0 || ch == EOF {
        break;
      }
      name := name + [ch];
    }
    r.Seek(marker);
  }

  /** Names looked up at the offsets the listing reports are the listed
      texts (every entry but the last, which may be cut off by the window). */
  lemma ListedNamesResolve(data: seq<byte>, st: Symtab, j: nat)
    requires st.stringTableOffset + 1 < 0x1_0000_0000
    requires StringsAt(data, st).Some? && j + 1 < |StringsAt(data, st).value|
    ensures CStringAt(data, st.stringTableOffset + StringsAt(data, st).value[j].offset)
      == StringsAt(data, st).value[j].text
  {
    var w := WindowIn(data, WindowStart(st), WindowLength(st.stringTableSize));
    assert w != [];
    WindowNameResolves(data, WindowStart(st), |w|, j);
  }

  /** The same for a window of `len` bytes at `lo`, whose first byte has
      table offset 1. */
  lemma WindowNameResolves(data: seq<byte>, lo: nat, len: nat, j: nat)
    requires 1 <= lo && lo + len <= |data|
    requires j + 1 < |Listing(data[lo..lo + len], 1)|
    ensures CStringAt(data, lo - 1 + Listing(data[lo..lo + len], 1)[j].offset)
      == Listing(data[lo..lo + len], 1)[j].text
  {
    var w := data[lo..lo + len];
    ListingEntry(w, 0, 1, j);
    EntryResolves(data, lo, len, Listing(w, 1)[j], Listing(w, 1)[j + 1]);
  }

  /** An entry found in the window and closed by a NUL is the name looked
      up at its offset. */
  lemma EntryResolves(data: seq<byte>, lo: nat, len: nat, e: StringEntry, next: StringEntry)
    requires 1 <= lo && lo + len <= |data|
    requires EntryIn(data[lo..lo + len], 0, 1, e) && Separated(data[lo..lo + len], 1, e, next)
    ensures CStringAt(data, lo - 1 + e.offset) == e.text
  {
    var a := e.offset - 1;
    InnerSlice(data, lo, len, a, a + |e.text|);
    assert data[lo..lo + len][a + |e.text|] == data[lo + a + |e.text|];
    CStringAtTerminated(data, lo + a, e.text);
  }

  lemma InnerSlice(data: seq<byte>, lo: nat, len: nat, a: nat, b: nat)
    requires lo + len <= |data| && a <= b <= len
    ensures data[lo..lo + len][a..b] == data[lo + a..lo + b]
  {
    var inner := data[lo..lo + len][a..b];
    var outer := data[lo + a..lo + b];
    forall k | 0 <= k < |inner|
      ensures inner[k] == outer[k]
    {
    }
  }

  // ---------------------------------------------------------------------------
  // The symbols

  /** `count` items read one after another from `at`, `step` bytes apart,
      each by `item`; None as soon as one cannot be read. */
  function Walk<T>(item: nat -> Option<T>, at: nat, count: nat, step: nat): (r: Option<seq<T>>)
    ensures r.Some? ==> |r.value| == count
    decreases count
  {
    if count == 0 then Some([])
    else
      match item(at)
      case None => None
      case Some(x) => Prepend(x, Walk(item, at + step, count - 1, step))
  }

  /** Where item `k` of a walk from `at` is read, counted the way the walk
      moves. */
  function RecordAt(at: nat, k: nat, step: nat): nat
    decreases k
  {
    if k == 0 then at else RecordAt(at + step, k - 1, step)
  }

  lemma {:induction false} RecordIs(at: nat, k: nat, step: nat)
    ensures RecordAt(at, k, step) == at + k * step
    decreases k
  {
    if k > 0 {
      RecordIs(at + step, k - 1, step);
      NextRecord(at, step, k);
    }
  }

  /** Record `k` from `at` is record `k - 1` from the next one. */
  lemma NextRecord(at: nat, size: nat, k: nat)
    requires 0 < k
    ensures at + k * size == (at + size) + (k - 1) * size
  {
  }

  /** A walk is its first item, then the walk from the next position. */
  lemma WalkStep<T>(item: nat -> Option<T>, at: nat, count: nat, step: nat)
    requires Walk(item, at, count, step).Some? && 0 < count
    ensures Walk(item, at + step, count - 1, step).Some?
    ensures item(at) == Some(Walk(item, at, count, step).value[0])
    ensures Walk(item, at, count, step).value[1..] == Walk(item, at + step, count - 1, step).value
  {
    var rest := Walk(item, at + step, count - 1, step);
    assert Walk(item, at, count, step).value == [item(at).value] + rest.value;
  }

  /** Dropping the first `k` items of a walk leaves the walk from item `k`. */
  lemma {:induction false} WalkDrop<T>(item: nat -> Option<T>, at: nat, count: nat, step: nat, k: nat)
    requires Walk(item, at, count, step).Some? && k <= count
    ensures Walk(item, RecordAt(at, k, step), count - k, step).Some?
    ensures Walk(item, at, count, step).value[k..] == Walk(item, RecordAt(at, k, step), count - k, step).value
    decreases k
  {
    var all := Walk(item, at, count, step).value;
    if k == 0 {
      assert all[0..] == all;
    } else {
      WalkStep(item, at, count, step);
      WalkDrop(item, at + step, count - 1, step, k - 1);
      DropTail(all, k);
    }
  }

  lemma DropTail<T>(xs: seq<T>, k: nat)
    requires 0 < k <= |xs|
    ensures xs[k..] == xs[1..][k - 1..]
  {
  }

  /** Item `k` of a walk is what `item` reads at record `k`. */
  lemma WalkNth<T>(item: nat -> Option<T>, at: nat, count: nat, step: nat, k: nat)
    requires Walk(item, at, count, step).Some? && k < count
    ensures item(RecordAt(at, k, step)) == Some(Walk(item, at, count, step).value[k])
  {
    var all := Walk(item, at, count, step).value;
    WalkDrop(item, at, count, step, k);
    WalkStep(item, RecordAt(at, k, step), count - k, step);
    assert all[k] == all[k..][0];
  }

  /** When `item` succeeds exactly on the records that end by `limit`, the
      walk succeeds exactly when its last record does. */
  lemma {:induction false} WalkFits<T>(item: nat -> Option<T>, at: nat, count: nat, step: nat, limit: nat)
    requires forall p: nat :: item(p).Some? <==> p + step <= limit
    ensures Walk(item, at, count, step).Some? <==> count == 0 || at + count * step <= limit
    decreases count
  {
    if count > 0 {
      WalkFits(item, at + step, count - 1, step, limit);
      NextRecord(at, step, count);
      assert 0 <= (count - 1) * step;
    }
  }

  /** The symbol record at `at` with the name its string index points at. */
  function NamedSymbolAt(data: seq<byte>, at: nat, stroff: nat, bits: int): Option<NamedSymbol>
  {
    match SymbolAt(data, at, bits)
    case None => None
    case Some(s) => Some(NamedSymbol(s, CStringAt(data, stroff + s.stringIndex)))
  }

  /** Reading one named symbol, as a walk does it. */
  function SymbolReader(data: seq<byte>, stroff: nat, bits: int): nat -> Option<NamedSymbol>
  {
    (at: nat) => NamedSymbolAt(data, at, stroff, bits)
  }

  /** `count` symbols read one after another from `at`, each with its name
      from the string table at `stroff`; None when one runs past the end. */
  function SymbolsFrom(data: seq<byte>, at: nat, count: nat, stroff: nat, bits: int): (r: Option<seq<NamedSymbol>>)
    ensures r.Some? ==> |r.value| == count
  {
    Walk(SymbolReader(data, stroff, bits), at, count, SymbolSize(bits))
  }

  /** A walk of at least one symbol reads the record at its start, names it,
      and goes on from the next record; it fails when that record is short. */
  lemma SymbolsCons(data: seq<byte>, at: nat, count: nat, stroff: nat, bits: int)
    requires 0 < count
    ensures SymbolsFrom(data, at, count, stroff, bits)
      == if SymbolAt(data, at, bits).None? then None
         else Prepend(NamedSymbol(SymbolAt(data, at, bits).value,
                                  CStringAt(data, stroff + SymbolAt(data, at, bits).value.stringIndex)),
                      SymbolsFrom(data, at + SymbolSize(bits), count - 1, stroff, bits))
  {
  }

  /** The walk succeeds exactly when all `count` symbol records lie inside
      the file. */
  lemma SymbolsFit(data: seq<byte>, at: nat, count: nat, stroff: nat, bits: int)
    ensures SymbolsFrom(data, at, count, stroff, bits).Some? <==> count == 0 || at + count * SymbolSize(bits) <= |data|
  {
    var item := SymbolReader(data, stroff, bits);
    forall p: nat
      ensures item(p).Some? <==> p + SymbolSize(bits) <= |data|
    {
      assert item(p) == NamedSymbolAt(data, p, stroff, bits);
    }
    WalkFits(item, at, count, SymbolSize(bits), |data|);
  }

  /** Symbol `k` of the walk is the record `k` symbol sizes on, with the name
      its string index points at. */
  lemma SymbolsLaidOut(data: seq<byte>, at: nat, count: nat, stroff: nat, bits: int, k: nat)
    requires SymbolsFrom(data, at, count, stroff, bits).Some? && k < count
    ensures SymbolAt(data, at + k * SymbolSize(bits), bits).Some?
    ensures SymbolsFrom(data, at, count, stroff, bits).value[k]
      == NamedSymbol(SymbolAt(data, at + k * SymbolSize(bits), bits).value,
                     CStringAt(data, stroff + SymbolAt(data, at + k * SymbolSize(bits), bits).value.stringIndex))
  {
    var item := SymbolReader(data, stroff, bits);
    var p := at + k * SymbolSize(bits);
    WalkNth(item, at, count, SymbolSize(bits), k);
    RecordIs(at, k, SymbolSize(bits));
    assert item(p) == NamedSymbolAt(data, p, stroff, bits);
  }

  /** The walk is its first symbol, then the walk from the next record. */
  lemma SymbolsStep(data: seq<byte>, at: nat, count: nat, stroff: nat, bits: int)
    requires SymbolsFrom(data, at, count, stroff, bits).Some? && 0 < count
    ensures SymbolAt(data, at, bits).Some?
    ensures SymbolsFrom(data, at + SymbolSize(bits), count - 1, stroff, bits).Some?
    ensures NamedSymbolAt(data, at, stroff, bits) == Some(SymbolsFrom(data, at, count, stroff, bits).value[0])
    ensures SymbolsFrom(data, at, count, stroff, bits).value[1..] == SymbolsFrom(data, at + SymbolSize(bits), count - 1, stroff, bits).value
  {
    var item := SymbolReader(data, stroff, bits);
    WalkStep(item, at, count, SymbolSize(bits));
    assert item(at) == NamedSymbolAt(data, at, stroff, bits);
  }

  function Prepend<T>(x: T, rest: Option<seq<T>>): (r: Option<seq<T>>)
    ensures r.Some? <==> rest.Some?
    ensures r.Some? ==> r.value == [x] + rest.value
  {
    match rest
    case None => None
    case Some(xs) => Some([x] + xs)
  }

  function PrependAll<T>(xs: seq<T>, rest: Option<seq<T>>): (r: Option<seq<T>>)
    ensures r.Some? <==> rest.Some?
    ensures r.Some? ==> r.value == xs + rest.value
  {
    match rest
    case None => None
    case Some(ys) => Some(xs + ys)
  }

  lemma PrependNothing<T>(rest: Option<seq<T>>)
    ensures PrependAll([], rest) == rest
  {
    if rest.Some? {
      assert [] + rest.value == rest.value;
    }
  }

  lemma PrependAllPrepend<T>(xs: seq<T>, x: T, rest: Option<seq<T>>)
    ensures PrependAll(xs, Prepend(x, rest)) == PrependAll(xs + [x], rest)
  {
    if rest.Some? {
      assert xs + ([x] + rest.value) == xs + [x] + rest.value;
    }
  }

  /** The symbol loop of macho_print_symtab: from wherever the cursor stands,
      `count` symbol reads, each followed by the name lookup. The name lookup
      puts the cursor back after each record. After a short read the cursor
      is not used: the pass seeks back to where it started. */
  method ListSymbols(r: Reader, count: u32, stroff: u32, bits: int) returns (symbols: Option<seq<NamedSymbol>>)
    modifies r
    ensures symbols == SymbolsFrom(r.data, old(r.pos), count, stroff, bits)
    ensures symbols.Some? ==> r.pos == old(r.pos) + count * SymbolSize(bits)
  {
    ghost var start := r.pos;
    var list: seq<NamedSymbol> := [];
    var n: nat := 0;
    PrependNothing(SymbolsFrom(r.data, start, count, stroff, bits));
    while n < count
      invariant n <= count
      invariant r.pos == start + n * SymbolSize(bits)
      invariant SymbolsFrom(r.data, start, count, stroff, bits)
        == PrependAll(list, SymbolsFrom(r.data, r.pos, count - n, stroff, bits))
    {
      SymbolsCons(r.data, r.pos, count - n, stroff, bits);
      var s := ReadSymbol(r, bits);
      if s.None? {
        return None;
      }
      var name := ResolveName(r, stroff + s.value.stringIndex);
      PrependAllPrepend(list, NamedSymbol(s.value, name), SymbolsFrom(r.data, r.pos, count - n - 1, stroff, bits));
      list := list + [NamedSymbol(s.value, name)];
      assert (n + 1) * SymbolSize(bits) == n * SymbolSize(bits) + SymbolSize(bits);
      n := n + 1;
    }
    assert list + [] == list;
    symbols := Some(list);
  }

  /** What macho_print_symtab produces for a symtab command. */
  function SymtabListingAt(data: seq<byte>, st: Symtab, bits: int): SymtabListing
  {
    SymtabListing(StringsAt(data, st),
                  SymbolsFrom(data, st.symbolTableOffset, st.symbolCount, st.stringTableOffset, bits))
  }

  /** macho_print_symtab: remember the cursor, list the string table, read
      the symbols with their names, and seek back. */
  method SymtabPass(r: Reader, st: Symtab, bits: int) returns (listing: SymtabListing)
    modifies r
    ensures listing == SymtabListingAt(r.data, st, bits)
    ensures r.pos == old(r.pos)
  {
    var marker := r.Tell();
    var strings := ListStrings(r, st);
    r.Seek(st.symbolTableOffset);
    var symbols := ListSymbols(r, st.symbolCount, st.stringTableOffset, bits);
    r.Seek(marker);
    listing := SymtabListing(strings, symbols);
  }
}
