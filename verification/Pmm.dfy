/** The physical page allocator (kernel/src/mm/pmm.c): one bitmap a region, scanned a word or byte at a time. */
module Pmm {
  import opened Bitmaps

  function Filled(bits: seq<bool>, lo: nat, hi: nat, v: bool): (r: seq<bool>)
    ensures |r| == |bits|
  {
    seq(|bits|, i requires 0 <= i < |bits| => if lo <= i < hi then v else bits[i])
  }

  /** How many pages are free. */
  function Clear(bits: seq<bool>): nat {
    if bits == [] then 0 else Clear(bits[..|bits| - 1]) + if bits[|bits| - 1] then 0 else 1
  }

  lemma {:induction false} ClearUpdate(bits: seq<bool>, i: nat, v: bool)
    requires i < |bits|
    ensures Clear(bits[i := v]) + (if bits[i] then 0 else 1) == Clear(bits) + (if v then 0 else 1)
  {
    var n := |bits| - 1;
    if i == n {
      assert bits[i := v][..n] == bits[..n];
    } else {
      assert bits[i := v][..n] == bits[..n][i := v];
      ClearUpdate(bits[..n], i, v);
    }
  }

  lemma {:induction false} ClearRun(bits: seq<bool>, lo: nat, hi: nat)
    requires lo <= hi <= |bits| && forall i | lo <= i < hi :: !bits[i]
    ensures Clear(bits) >= hi - lo && Clear(Filled(bits, lo, hi, true)) == Clear(bits) - (hi - lo)
  {
    if lo == hi {
      assert Filled(bits, lo, hi, true) == bits;
    } else {
      ClearRun(bits, lo, hi - 1);
      var f := Filled(bits, lo, hi - 1, true);
      assert Filled(bits, lo, hi, true) == f[hi - 1 := true];
      ClearUpdate(f, hi - 1, true);
    }
  }

  /** count pages from s on are free and within [begin, end). */
  predicate Fits(bits: seq<bool>, count: nat, begin: nat, end: nat, s: nat) {
    begin <= s && s + count <= end <= |bits| && forall i | s <= i < s + count :: !bits[i]
  }

  lemma ClearFit(bits: seq<bool>, count: nat, end: nat, s: nat)
    requires Fits(bits, count, 0, end, s)
    ensures s + count <= end <= |bits|
    ensures count <= Clear(bits) && Clear(Filled(bits, s, s + count, true)) == Clear(bits) - count
  {
    ClearRun(bits, s, s + count);
  }

  /** r is where a scan bit by bit from begin would first have found count free pages; -1 if nowhere. */
  ghost predicate FirstFit(bits: seq<bool>, count: nat, begin: nat, end: nat, r: int) {
    if r < 0 then r == -1 && (count == 0 || forall s: nat :: !Fits(bits, count, begin, end, s))
    else count > 0 && Fits(bits, count, begin, end, r) && forall s: nat | s < r :: !Fits(bits, count, begin, end, s)
  }

  /** The scan so far: the last run pages before i are free, the page before them is not, and nothing fits yet. */
  ghost predicate Scanned(bits: seq<bool>, count: nat, begin: nat, end: nat, i: nat, run: nat) {
    && run <= i - begin && run < count && i <= end <= |bits|
    && (forall j | i - run <= j < i :: !bits[j])
    && (begin < i - run ==> bits[i - run - 1])
    && forall s: nat | begin <= s && s + count <= i :: !Fits(bits, count, begin, end, s)
  }

  lemma RunWithin(bits: seq<bool>, count: nat, begin: nat, end: nat, i: nat, run: nat)
    requires Scanned(bits, count, begin, end, i, run)
    ensures run <= i - begin && end <= |bits|
  {}

  lemma NothingFits(bits: seq<bool>, count: nat, begin: nat, end: nat, run: nat)
    requires Scanned(bits, count, begin, end, end, run) && count > 0
    ensures FirstFit(bits, count, begin, end, -1)
  {}

  lemma AfterUsed(bits: seq<bool>, count: nat, begin: nat, end: nat, i: nat, run: nat, step: nat)
    requires begin <= i && Scanned(bits, count, begin, end, i, run) && 0 < step && i + step <= end
    requires forall j | i <= j < i + step :: bits[j]
    ensures Scanned(bits, count, begin, end, i + step, 0)
  {
    forall s: nat | begin <= s && s + count <= i + step ensures !Fits(bits, count, begin, end, s) {
      if s + count > i {
        assert bits[if s <= i then i else s];
      }
    }
  }

  lemma AfterFree(bits: seq<bool>, count: nat, begin: nat, end: nat, i: nat, run: nat, step: nat)
    requires begin <= i && Scanned(bits, count, begin, end, i, run) && 0 < step && i + step <= end
    requires forall j | i <= j < i + step :: !bits[j]
    ensures run + step < count ==> Scanned(bits, count, begin, end, i + step, run + step)
    ensures run + step >= count ==> FirstFit(bits, count, begin, end, i - run)
  {
    forall s: nat | begin <= s < i - run ensures !Fits(bits, count, begin, end, s) {
      if s + count > i {
        assert bits[i - run - 1];
      }
    }
    if run + step < count {
      forall s: nat | begin <= s && s + count <= i + step ensures !Fits(bits, count, begin, end, s) {
        assert s < i - run;
      }
    }
  }

  lemma ByteRun(bytes: seq<bv8>, i: nat)
    requires i % 8 == 0 && i / 8 < |bytes| && (bytes[i / 8] == 0xFF || bytes[i / 8] == 0)
    ensures forall j: nat | i <= j < i + 8 :: ByteAt(j) < |bytes| && Used(bytes, j) == (bytes[i / 8] != 0)
  {
    forall j: nat | i <= j < i + 8 ensures ByteAt(j) < |bytes| && Used(bytes, j) == (bytes[i / 8] != 0) {
      WholeByte(bytes[i / 8], BitAt(j));
    }
  }

  lemma WordRun(bytes: seq<bv8>, i: nat)
    requires i % 64 == 0 && i / 8 + 8 <= |bytes|
    requires var w := Word(bytes[i / 8..i / 8 + 8]); w == 0xFFFF_FFFF_FFFF_FFFF || w == 0
    ensures forall j: nat | i <= j < i + 64 ::
      ByteAt(j) < |bytes|
      && Used(bytes, j) == (Word(bytes[i / 8..i / 8 + 8]) != 0)
  {
    hide Word, Used;
    forall j: nat | i <= j < i + 64
      ensures ByteAt(j) < |bytes| && Used(bytes, j) == (Word(bytes[i / 8..i / 8 + 8]) != 0)
    {
      WordBit(bytes, i, j);
    }
  }

  lemma WordBit(bytes: seq<bv8>, i: nat, j: nat)
    requires i % 64 == 0 && i / 8 + 8 <= |bytes| && i <= j < i + 64
    requires var w := Word(bytes[i / 8..i / 8 + 8]); w == 0xFFFF_FFFF_FFFF_FFFF || w == 0
    ensures ByteAt(j) < |bytes| && Used(bytes, j) == (Word(bytes[i / 8..i / 8 + 8]) != 0)
  {
    hide Word, BitOf, BitAt, ByteAt;
    ByteOfWord(i, j);
    var b := bytes[i / 8..i / 8 + 8];
    var k := ByteAt(j) - i / 8;
    WordIs(b, k);
    assert bytes[ByteAt(j)] == b[k];
    WholeByte(b[k], BitAt(j));
  }

  lemma ByteOfWord(i: nat, j: nat)
    requires i % 64 == 0 && i <= j < i + 64
    ensures i / 8 <= ByteAt(j) < i / 8 + 8
  {
    var q, r := i / 64, j / 8;
    assert i == 8 * (8 * q) && 8 * r <= j < 8 * r + 8;
    assert i / 8 == 8 * q;
  }

  lemma FilledStep(bits: seq<bool>, lo: nat, k: nat, v: bool)
    requires lo <= k < |bits|
    ensures Filled(bits, lo, k, v)[k := v] == Filled(bits, lo, k + 1, v)
    ensures Filled(bits, lo, k, v)[k] == bits[k]
  {}

  lemma FilledNone(bits: seq<bool>, lo: nat, v: bool)
    ensures Filled(bits, lo, lo, v) == bits
  {}

  const PAGE_SIZE: nat := 4096
  const ENTRY_BYTES: nat := 48
  const PMM_MIN_REGION_PAGES: nat := 4

  function HeaderPages(total: nat): nat { (ENTRY_BYTES + (total + 7) / 8 + PAGE_SIZE - 1) / PAGE_SIZE }

  /** The header has room for the entry and a bit for every page, and would not with a page less. */
  lemma HeaderHolds(total: nat)
    ensures (HeaderPages(total) - 1) * PAGE_SIZE * 8 < ENTRY_BYTES * 8 + total <= HeaderPages(total) * PAGE_SIZE * 8
  {
    var bytes := ENTRY_BYTES + (total + 7) / 8;
    var h := HeaderPages(total);
    assert h * PAGE_SIZE <= bytes + PAGE_SIZE - 1 < h * PAGE_SIZE + PAGE_SIZE;
    assert total <= (total + 7) / 8 * 8 <= total + 7;
  }

  lemma HeaderFits(total: nat)
    requires total >= HeaderPages(total) + PMM_MIN_REGION_PAGES
    ensures 1 <= HeaderPages(total) && 2 * HeaderPages(total) <= total
  {}

  lemma {:induction false} AllClear(bits: seq<bool>)
    requires forall i | 0 <= i < |bits| :: !bits[i]
    ensures Clear(bits) == |bits|
  {
    if bits != [] {
      AllClear(bits[..|bits| - 1]);
    }
  }

  lemma ZeroBits(bytes: seq<bv8>, n: nat)
    requires n <= 8 * |bytes| && forall i | 0 <= i < |bytes| :: bytes[i] == 0
    ensures (forall i: nat | i < n :: !Bits(bytes, n)[i]) && Clear(Bits(bytes, n)) == n
  {
    forall i: nat | i < n ensures !Bits(bytes, n)[i] { WholeByte(bytes[ByteAt(i)], BitAt(i)); }
    AllClear(Bits(bytes, n));
  }

  lemma HeaderMarked(bits: seq<bool>, header: nat)
    requires header <= |bits| && (forall i: nat | i < |bits| :: !bits[i]) && Clear(bits) == |bits|
    ensures Clear(Filled(bits, 0, header, true)) == |bits| - header
    ensures forall i: nat | i < |bits| :: Filled(bits, 0, header, true)[i] <==> i < header
    ensures Fits(bits, header, 0, |bits|, 0)
  {
    ClearRun(bits, 0, header);
  }

  class Region {
    const base: nat            // region_base, as a page number
    const headerPages: nat
    const capacity: nat
    var available: nat
    var cursor: nat
    const bitmap: array<bv8>

    ghost function B(): seq<bool>
      requires capacity <= 8 * bitmap.Length
      reads bitmap
    {
      Bits(bitmap[..], capacity)
    }

    ghost predicate Valid()
      reads this, bitmap
    {
      capacity <= 8 * bitmap.Length && headerPages >= 1 && available == Clear(B())
    }

    constructor (region: nat, total: nat, header: nat)
      requires 1 <= header <= total
      ensures base == region && headerPages == header && capacity == total - header && cursor == 0
      ensures available == capacity <= 8 * bitmap.Length && fresh(bitmap)
      ensures forall i | 0 <= i < bitmap.Length :: bitmap[i] == 0
    {
      base, headerPages, capacity, available, cursor := region, header, total - header, total - header, 0;
      bitmap := new bv8[(total + 7) / 8](_ => 0);
    }

    /** pmm_init for one region of total pages. The header is taken off the front, and then as many usable pages
        again are marked as used. */
    static method Init(region: nat, total: nat) returns (r: Region)
      requires total >= HeaderPages(total) + PMM_MIN_REGION_PAGES
      ensures r.Valid() && fresh(r) && fresh(r.bitmap) && r.base == region && r.headerPages == HeaderPages(total)
      ensures r.capacity + r.headerPages == total && r.cursor == 0 && r.available == r.capacity - r.headerPages
      ensures forall i: nat | i < r.capacity :: r.B()[i] <==> i < r.headerPages
    {
      hide HeaderPages, Clear, Used, Filled, Bits, Fits;
      HeaderFits(total);
      r := new Region(region, total, HeaderPages(total));
      ghost var zeroed := r.bitmap[..];
      ZeroBits(zeroed, r.capacity);
      HeaderMarked(Bits(zeroed, r.capacity), r.headerPages);
      r.MarkUnavailable(0, r.headerPages);
    }

    method Set(i: nat, v: bool)
      requires i < capacity <= 8 * bitmap.Length
      modifies bitmap
      ensures B() == old(B())[i := v]
    {
      hide WithBit, BitOf, BitAt, Used;
      ghost var was := bitmap[..];
      bitmap[ByteAt(i)] := WithBit(bitmap[ByteAt(i)], BitAt(i), v);
      assert bitmap[..] == Changed(was, i, v);
      ChangedBits(was, capacity, i, v);
    }

    method SetRun(start: nat, count: nat)
      requires start + count <= capacity <= 8 * bitmap.Length
      modifies bitmap
      ensures B() == Filled(old(B()), start, start + count, true)
    {
      FilledNone(B(), start, true);
      hide Filled, Bits;
      for i := 0 to count
        invariant B() == Filled(old(B()), start, start + i, true)
      {
        FilledStep(old(B()), start, start + i, true);
        Set(start + i, true);
      }
    }

    /** paging_mark_entry_unavailable, on free pages */
    method MarkUnavailable(start: nat, count: nat)
      requires Valid() && Fits(B(), count, 0, capacity, start)
      modifies this`available, bitmap
      ensures Valid() && B() == Filled(old(B()), start, start + count, true)
    {
      hide Filled, Clear, Bits, Fits;
      ClearFit(B(), count, capacity, start);
      SetRun(start, count);
      available := available - count;
    }

    /** paging_mark_entry_available: a page that is free already is not counted again. */
    method MarkAvailable(start: nat, count: nat)
      requires Valid() && start + count <= capacity
      modifies this`available, bitmap
      ensures Valid() && B() == Filled(old(B()), start, start + count, false)
    {
      ghost var was := B();
      FilledNone(was, start, false);
      hide Filled, Bits;
      for i := 0 to count
        invariant Valid() && B() == Filled(was, start, start + i, false)
      {
        var k := start + i;
        FilledStep(was, start, k, false);
        assert B()[k] == Used(bitmap[..], k);
        if BitOf(bitmap[ByteAt(k)], BitAt(k)) {
          ClearUpdate(B(), k, false);
          Set(k, false);
          available := available + 1;
        } else {
          assert B() == B()[k := false];
        }
      }
    }

    /** The part of pmm_free_pages for the region it has found: no further than the region goes. */
    method FreeAt(idx: nat, n: nat)
      requires Valid() && idx < capacity
      modifies this`available, this`cursor, bitmap
      ensures Valid() && B() == Filled(old(B()), idx, if idx + n > capacity then capacity else idx + n, false)
      ensures cursor == if idx < old(cursor) then idx else old(cursor)
    {
      hide Filled, Clear, Bits;
      var count := if idx + n > capacity then capacity - idx else n;
      MarkAvailable(idx, count);
      if idx < cursor {
        cursor := idx;
      }
    }

    /** How far the scan goes in one step: a whole word or byte whose pages are alike, else one page. */
    method Look(i: nat, end: nat) returns (step: nat, used: bool)
      requires i < end <= capacity <= 8 * bitmap.Length
      ensures 0 < step && i + step <= end
      ensures forall j: nat | i <= j < i + step :: B()[j] == used
    {
      hide Used, Word;
      step := 0;
      if i % 64 == 0 && i + 64 <= end {
        var bits := Word(bitmap[i / 8..i / 8 + 8]);
        if bits == 0xFFFF_FFFF_FFFF_FFFF || bits == 0 {
          step, used := 64, bits != 0;
          assert bitmap[..][i / 8..i / 8 + 8] == bitmap[i / 8..i / 8 + 8];
          WordRun(bitmap[..], i);
        }
      }
      if step == 0 && i % 8 == 0 && i + 8 <= end {
        var bits := bitmap[i / 8];
        if bits == 0xFF || bits == 0 {
          step, used := 8, bits != 0;
          ByteRun(bitmap[..], i);
        }
      }
      if step == 0 {
        step, used := 1, BitOf(bitmap[ByteAt(i)], BitAt(i));
        OneBit(bitmap[..], i);
      }
    }

    /** paging_bitmap_find_free_in_range */
    method FindFreeInRange(count: nat, begin: nat, end: nat) returns (r: int)
      requires capacity <= 8 * bitmap.Length && end <= capacity
      ensures FirstFit(B(), count, begin, end, r)
    {
      if count == 0 || begin >= end {
        return -1;
      }
      ghost var bits := B();
      var run, start, i := 0, 0, begin;
      assert Scanned(bits, count, begin, end, begin, 0);
      hide Scanned, FirstFit;
      while i < end
        invariant begin <= i <= end && Scanned(bits, count, begin, end, i, run)
        invariant run > 0 ==> start == i - run
      {
        var step, used := Look(i, end);
        RunWithin(bits, count, begin, end, i, run);
        assert bits == B();
        if used {
          AfterUsed(bits, count, begin, end, i, run, step);
          run := 0;
        } else {
          AfterFree(bits, count, begin, end, i, run, step);
          if run == 0 {
            start := i;
          }
          run := run + step;
          if run >= count {
            return start;
          }
        }
        i := i + step;
      }
      NothingFits(bits, count, begin, end, run);
      return -1;
    }

    /** paging_bitmap_find_free: first from the cursor on, then before it. */
    method FindFree(count: nat) returns (r: int)
      requires Valid()
      modifies this`cursor
      ensures r >= 0 ==> NextFit(B(), count, Start(old(cursor)), r)
      ensures r < 0 <==> count == 0 || !exists s: nat ::
        Fits(B(), count, 0, capacity, s)
        && !Straddles(s, count, Start(old(cursor)))
      ensures r >= 0 ==> cursor == (if r + count >= capacity then 0 else r + count)
      ensures r < 0 ==> cursor == old(cursor)
    {
      if count == 0 || count > capacity {
        return -1;
      }
      var at := Start(cursor);
      r := FindFreeInRange(count, at, capacity);
      Sides(B(), count, capacity, at, r);
      if r < 0 && at != 0 {
        r := FindFreeInRange(count, 0, at);
      }
      if r >= 0 {
        cursor := r + count;
        if cursor >= capacity {
          cursor := 0;
        }
      }
    }

    /** Where the search begins: at the cursor, unless that has run past the region. */
    function Start(c: nat): (at: nat)
      ensures c < capacity ==> at == c
      ensures at < capacity || at == 0
    {
      if c >= capacity then 0 else c
    }
  }

  /** r is the first place from at on, or if there is none the first before it. */
  ghost predicate NextFit(bits: seq<bool>, count: nat, at: nat, r: int) {
    && r >= 0
    && (FirstFit(bits, count, at, |bits|, r)
      || (FirstFit(bits, count, at, |bits|, -1) && FirstFit(bits, count, 0, at, r)))
  }

  lemma NextFits(bits: seq<bool>, count: nat, at: nat, r: int)
    requires NextFit(bits, count, at, r) && at <= |bits|
    ensures count > 0 && Fits(bits, count, 0, |bits|, r) && !Straddles(r, count, at)
  {}

  /** The run crosses the cursor. */
  predicate Straddles(s: nat, count: nat, at: nat) { s < at < s + count }

  lemma Sides(bits: seq<bool>, count: nat, n: nat, at: nat, r: int)
    requires at <= n == |bits| && 0 < count
    ensures forall s: nat :: Fits(bits, count, 0, n, s) && !Straddles(s, count, at) <==>
      Fits(bits, count, at, n, s)
      || Fits(bits, count, 0, at, s)
  {}

  /** So a region may refuse pages it has: the only free run crosses the cursor. */
  lemma MissesTheMiddle() returns (bits: seq<bool>, count: nat, at: nat, s: nat)
    ensures at < |bits| && Fits(bits, count, 0, |bits|, s)
    ensures forall t: nat :: Fits(bits, count, 0, |bits|, t) ==> Straddles(t, count, at)
  {
    bits, count, at, s := [false, false, false, true], 3, 2, 0;
  }
}
