/** All regions of memory together (kernel/src/mm/pmm.c): the list that pmm_init builds, allocation and freeing on it,
    and what that means for frames over every history. */
module PmmRegions {
  import opened Collections
  import opened Pmm

  /** A region: header pages first, then as many usable ones as bits. */
  datatype R = R(base: nat, header: nat, bits: seq<bool>, cursor: nat)

  function First(r: R): nat { r.base + r.header }

  function End(r: R): nat { First(r) + |r.bits| }

  predicate Has(r: R, f: nat) { First(r) <= f < End(r) }

  /** Regions do not overlap, and each begins with at least one header page. */
  predicate WellLaid(rs: seq<R>) {
    && (forall i | 0 <= i < |rs| :: rs[i].header >= 1)
    && (forall i, j | 0 <= i < j < |rs| :: End(rs[i]) <= rs[j].base || End(rs[j]) <= rs[i].base)
  }

  predicate Usable(rs: seq<R>, f: nat) { exists i :: 0 <= i < |rs| && Has(rs[i], f) }

  predicate Marked(r: R, f: nat) { Has(r, f) && r.bits[f - First(r)] }

  /** Frame f is usable and in use. */
  predicate InUse(rs: seq<R>, f: nat) { exists i :: 0 <= i < |rs| && Marked(rs[i], f) }

  /** The region of frame f, or |rs|. */
  function Find(rs: seq<R>, f: nat): (k: nat)
    ensures k <= |rs| && (k < |rs| ==> Has(rs[k], f)) && forall i | 0 <= i < k :: !Has(rs[i], f)
  {
    if rs == [] then 0 else if Has(rs[0], f) then 0 else 1 + Find(rs[1..], f)
  }

  lemma OneRegion(rs: seq<R>, f: nat, k: nat)
    requires WellLaid(rs) && k < |rs| && Has(rs[k], f)
    ensures Find(rs, f) == k && forall i | 0 <= i < |rs| && Has(rs[i], f) :: i == k
  {}

  function Min(a: nat, b: nat): nat { if a < b then a else b }

  // ---------------------------------------------------------------- freeing

  /** Pages [i, i + n) of a region are freed, as far as it goes, and the next search starts there if it was past it. */
  function Cleared(r: R, i: nat, n: nat): R {
    r.(bits := Filled(r.bits, i, Min(i + n, |r.bits|), false), cursor := Min(i, r.cursor))
  }

  /** pmm_free_pages: frames [f, f + n), as far as the region goes that f is in. */
  function Freed(rs: seq<R>, f: nat, n: nat): (r: seq<R>)
    ensures |r| == |rs|
  {
    var k := Find(rs, f);
    if k == |rs| then rs else rs[k := Cleared(rs[k], f - First(rs[k]), n)]
  }

  /** The same one frame at a time. */
  function FreedEach(rs: seq<R>, f: nat, n: nat): (r: seq<R>)
    ensures |r| == |rs|
  {
    if n == 0 then rs else Freed(FreedEach(rs, f, n - 1), f + n - 1, 1)
  }

  lemma {:induction false} FindSame(rs: seq<R>, rs': seq<R>, f: nat)
    requires |rs| == |rs'| && forall i | 0 <= i < |rs| :: Has(rs[i], f) <==> Has(rs'[i], f)
    ensures Find(rs, f) == Find(rs', f)
  {
    if rs != [] {
      assert forall i | 0 <= i < |rs| - 1 :: rs[1..][i] == rs[i + 1] && rs'[1..][i] == rs'[i + 1];
      if !Has(rs[0], f) {
        FindSame(rs[1..], rs'[1..], f);
      }
    }
  }

  /** Between the usable frames of two regions there is a header page, so neighbours are in the same region. */
  lemma Neighbours(rs: seq<R>, f: nat)
    requires WellLaid(rs) && Find(rs, f) < |rs| && Usable(rs, f + 1)
    ensures Find(rs, f + 1) == Find(rs, f) && Has(rs[Find(rs, f)], f + 1)
  {
    var i :| 0 <= i < |rs| && Has(rs[i], f + 1);
    var k := Find(rs, f);
    SameRegion(rs, i, k, f);
    OneRegion(rs, f + 1, k);
  }

  lemma SameRegion(rs: seq<R>, i: nat, k: nat, f: nat)
    requires WellLaid(rs) && i < |rs| && k < |rs| && Has(rs[k], f) && Has(rs[i], f + 1)
    ensures i == k
  {}

  /** A run of usable frames lies in one region. */
  lemma {:induction false} RunInOneRegion(rs: seq<R>, f: nat, n: nat)
    requires WellLaid(rs) && n > 0 && forall g: nat | f <= g < f + n :: Usable(rs, g)
    ensures Find(rs, f) < |rs| && Has(rs[Find(rs, f)], f + n - 1) && Find(rs, f + n - 1) == Find(rs, f)
  {
    if n == 1 {
      var i :| 0 <= i < |rs| && Has(rs[i], f);
      OneRegion(rs, f, i);
    } else {
      RunInOneRegion(rs, f, n - 1);
      assert Usable(rs, f + n - 1);
      Neighbours(rs, f + n - 2);
    }
  }

  /** So freeing a run of usable frames in one call does what freeing them one at a time does. */
  lemma {:induction false} CoalescedFree(rs: seq<R>, f: nat, n: nat)
    requires WellLaid(rs) && n > 0 && forall g: nat | f <= g < f + n :: Usable(rs, g)
    ensures FreedEach(rs, f, n) == Freed(rs, f, n)
  {
    hide Freed, Find, WellLaid, Usable;
    if n == 1 {
      assert FreedEach(rs, f, 0) == rs;
    } else {
      CoalescedFree(rs, f, n - 1);
      RunInOneRegion(rs, f, n);
      FreedOneMore(rs, f, n);
    }
  }

  lemma ClearedTwice(r: R, i: nat, n: nat)
    requires n > 0 && i + n <= |r.bits|
    ensures Cleared(Cleared(r, i, n - 1), i + n - 1, 1) == Cleared(r, i, n)
  {
    assert Filled(Filled(r.bits, i, i + n - 1, false), i + n - 1, i + n, false) == Filled(r.bits, i, i + n, false);
  }

  lemma FreedOneMore(rs: seq<R>, f: nat, n: nat)
    requires n > 1 && Find(rs, f) < |rs| && Has(rs[Find(rs, f)], f + n - 1) && Find(rs, f + n - 1) == Find(rs, f)
    ensures Freed(Freed(rs, f, n - 1), f + n - 1, 1) == Freed(rs, f, n)
  {
    hide Filled, Find;
    var k := Find(rs, f);
    FindSame(rs, Freed(rs, f, n - 1), f + n - 1);
    ClearedTwice(rs[k], f - First(rs[k]), n);
  }

  // ---------------------------------------------------------------- allocating

  /** Where the next search of a region starts. */
  function From(r: R): nat { if r.cursor >= |r.bits| then 0 else r.cursor }

  /** A run of n free pages that does not cross the cursor. */
  ghost predicate CanGive(r: R, n: nat) {
    n > 0 && exists s: nat :: Fits(r.bits, n, 0, |r.bits|, s) && !Straddles(s, n, From(r))
  }

  function Given(r: R, s: nat, n: nat): R {
    r.(bits := Filled(r.bits, s, s + n, true), cursor := if s + n >= |r.bits| then 0 else s + n)
  }

  /** pmm_try_alloc_pages: the first region that can give n pages gives those at s. */
  ghost predicate Allocates(rs: seq<R>, n: nat, k: nat, s: nat, rs': seq<R>) {
    && k < |rs| && NextFit(rs[k].bits, n, From(rs[k]), s) && rs' == rs[k := Given(rs[k], s, n)]
    && forall j | 0 <= j < k :: !CanGive(rs[j], n)
  }

  /** Fewer free pages than asked for, and nothing fits. */
  lemma {:induction false} TooFew(bits: seq<bool>, n: nat, s: nat)
    requires Clear(bits) < n
    ensures !Fits(bits, n, 0, |bits|, s)
  {
    if Fits(bits, n, 0, |bits|, s) {
      ClearRun(bits, s, s + n);
    }
  }

  // ---------------------------------------------------------------- histories

  datatype Op = Alloc(n: nat, got: Option<nat>) | Free(f: nat, n: nat)

  /** What a call does to the regions; an allocation fails if and only if no region can give. */
  ghost predicate Step(rs: seq<R>, op: Op, rs': seq<R>) {
    match op
    case Alloc(n, None) => rs' == rs && forall k | 0 <= k < |rs| :: !CanGive(rs[k], n)
    case Alloc(n, Some(f)) => exists k: nat, s: nat :: Allocates(rs, n, k, s, rs') && f == First(rs[k]) + s
    case Free(f, n) => rs' == Freed(rs, f, n)
  }

  ghost predicate History(rss: seq<seq<R>>, ops: seq<Op>) {
    |rss| == |ops| + 1 && WellLaid(rss[0]) && forall i | 0 <= i < |ops| :: Step(rss[i], ops[i], rss[i + 1])
  }

  /** The call handed out frame x. */
  predicate Gives(op: Op, x: nat) { op.Alloc? && op.got.Some? && op.got.value <= x < op.got.value + op.n }

  /** The call was asked to free it. */
  predicate Frees(op: Op, x: nat) { op.Free? && op.f <= x < op.f + op.n }

  /** The regions are where they were. */
  predicate SameLayout(rs: seq<R>, rs': seq<R>) {
    |rs'| == |rs| && forall i | 0 <= i < |rs| ::
      rs'[i].base == rs[i].base && rs'[i].header == rs[i].header && |rs'[i].bits| == |rs[i].bits|
  }

  lemma StepLayout(rs: seq<R>, op: Op, rs': seq<R>)
    requires Step(rs, op, rs')
    ensures SameLayout(rs, rs')
  {
    hide Filled, NextFit, CanGive;
  }

  lemma SameLaid(rs: seq<R>, rs': seq<R>, x: nat)
    requires SameLayout(rs, rs')
    ensures WellLaid(rs) ==> WellLaid(rs')
    ensures Usable(rs, x) <==> Usable(rs', x)
  {
    forall i | 0 <= i < |rs| ensures Has(rs[i], x) <==> Has(rs'[i], x) {}
  }

  /** What is handed out was free and is in use after. */
  lemma GivenFrames(rs: seq<R>, op: Op, rs': seq<R>, x: nat)
    requires WellLaid(rs) && Step(rs, op, rs') && Gives(op, x)
    ensures Usable(rs, x) && !InUse(rs, x) && InUse(rs', x)
  {
    var k: nat, s: nat :| Allocates(rs, op.n, k, s, rs') && op.got.value == First(rs[k]) + s;
    NextFits(rs[k].bits, op.n, From(rs[k]), s);
    hide NextFit, CanGive, FirstFit;
    assert Has(rs[k], x) && !Marked(rs[k], x) && Marked(rs'[k], x);
    OneRegion(rs, x, k);
  }

  /** What is in use stays so until somebody frees it. */
  lemma KeptFrames(rs: seq<R>, op: Op, rs': seq<R>, x: nat)
    requires WellLaid(rs) && Step(rs, op, rs') && InUse(rs, x) && !Frees(op, x)
    ensures InUse(rs', x)
  {
    hide NextFit, CanGive, Freed, WellLaid, Marked, Given;
    var i :| 0 <= i < |rs| && Marked(rs[i], x);
    if op.Free? {
      FreeKeeps(rs, op.f, op.n, i, x);
    } else if op.got.Some? {
      var k: nat, s: nat :| Allocates(rs, op.n, k, s, rs') && op.got.value == First(rs[k]) + s;
      if k == i {
        GivenKeeps(rs[k], s, op.n, x);
      }
    }
    assert Marked(rs'[i], x);
  }

  lemma GivenKeeps(r: R, s: nat, n: nat, x: nat)
    requires Marked(r, x)
    ensures Marked(Given(r, s, n), x)
  {}

  lemma FreeKeeps(rs: seq<R>, f: nat, n: nat, i: nat, x: nat)
    requires i < |rs| && Marked(rs[i], x) && !(f <= x < f + n)
    ensures Marked(Freed(rs, f, n)[i], x)
  {
    hide Find;
  }

  lemma {:induction false} LaidOver(rss: seq<seq<R>>, ops: seq<Op>, n: nat)
    requires History(rss, ops) && n <= |ops|
    ensures WellLaid(rss[n]) && SameLayout(rss[0], rss[n])
  {
    if n > 0 {
      LaidOver(rss, ops, n - 1);
      assert Step(rss[n - 1], ops[n - 1], rss[n - 1 + 1]);
      StepLayout(rss[n - 1], ops[n - 1], rss[n]);
      SameLaid(rss[n - 1], rss[n], 0);
    }
    hide Step, WellLaid;
  }

  /** From the allocation of a frame until it is freed it is a usable page that is marked as used. */
  lemma {:induction false} StaysTaken(rss: seq<seq<R>>, ops: seq<Op>, i: nat, j: nat, x: nat)
    requires History(rss, ops) && i < j <= |ops| && Gives(ops[i], x)
    requires forall k | i < k < j :: !Frees(ops[k], x)
    ensures InUse(rss[j], x) && Usable(rss[0], x)
    decreases j
  {
    hide Step, WellLaid, InUse, Gives, Frees, Usable, SameLayout;
    LaidOver(rss, ops, i);
    LaidOver(rss, ops, j - 1);
    assert Step(rss[i], ops[i], rss[i + 1]) && Step(rss[j - 1], ops[j - 1], rss[j - 1 + 1]);
    if i + 1 == j {
      GivenFrames(rss[i], ops[i], rss[j], x);
      SameLaid(rss[0], rss[i], x);
    } else {
      StaysTaken(rss, ops, i, j - 1, x);
      KeptFrames(rss[j - 1], ops[j - 1], rss[j], x);
    }
  }

  /** Over every history of allocations and frees, careless ones included: a frame that is handed out twice was freed in
      between. So what is allocated and has not been freed is disjoint. */
  lemma NeverTwice(rss: seq<seq<R>>, ops: seq<Op>, i: nat, j: nat, x: nat)
    requires History(rss, ops) && i < j < |ops| && Gives(ops[i], x) && Gives(ops[j], x)
    ensures exists k :: i < k < j && Frees(ops[k], x)
  {
    hide Step, WellLaid, InUse;
    if forall k | i < k < j :: !Frees(ops[k], x) {
      StaysTaken(rss, ops, i, j, x);
      LaidOver(rss, ops, j);
      assert Step(rss[j], ops[j], rss[j + 1]);
      GivenFrames(rss[j], ops[j], rss[j + 1], x);
    }
  }

  // ---------------------------------------------------------------- the list of regions

  /** r stands for this region. */
  ghost predicate Is(r: Region, v: R)
    reads r, r.bitmap
  {
    r.Valid() && v == R(r.base, r.headerPages, r.B(), r.cursor)
  }

  predicate Separate(rs: seq<Region>) {
    forall i, j | 0 <= i < j < |rs| :: rs[i] != rs[j] && rs[i].bitmap != rs[j].bitmap
  }

  class Allocator {
    const regions: seq<Region>
    ghost var vals: seq<R>

    ghost predicate Valid()
      reads this, regions, set r | r in regions :: r.bitmap
    {
      && Separate(regions) && |vals| == |regions| && WellLaid(vals)
      && forall i | 0 <= i < |regions| :: Is(regions[i], vals[i])
    }

    constructor (rs: seq<Region>, ghost vs: seq<R>)
      requires Separate(rs) && |vs| == |rs| && WellLaid(vs) && forall i | 0 <= i < |rs| :: Is(rs[i], vs[i])
      ensures regions == rs && vals == vs && Valid()
    {
      regions, vals := rs, vs;
    }

    /** pmm_try_alloc_pages: the first of the frames, or none. */
    method AllocPages(n: nat) returns (got: Option<nat>)
      requires Valid()
      modifies this, regions, set r | r in regions :: r.bitmap
      ensures Valid() && Step(old(vals), Alloc(n, got), vals)
    {
      if n == 0 {
        return None;
      }
      hide CanGive, WellLaid, NextFit;
      var k := 0;
      while k < |regions|
        invariant k <= |regions| && Valid() && vals == old(vals)
        invariant forall j | 0 <= j < k :: !CanGive(vals[j], n)
      {
        var s := Try(k, n);
        if s >= 0 {
          assert Allocates(old(vals), n, k, s, vals);
          return Some(regions[k].base + (regions[k].headerPages + s));
        }
        k := k + 1;
      }
      return None;
    }

    /** One region's turn. */
    method Try(k: nat, n: nat) returns (s: int)
      requires Valid() && k < |regions| && n > 0
      modifies this`vals, regions[k], regions[k].bitmap
      ensures Valid()
      ensures s < 0 ==> vals == old(vals) && !CanGive(vals[k], n)
      ensures s >= 0 ==>
        NextFit(old(vals)[k].bits, n, From(old(vals)[k]), s)
        && vals == old(vals)[k := Given(old(vals)[k], s, n)]
    {
      hide Filled, WellLaid, FirstFit;
      ghost var v := vals[k];
      assert Is(regions[k], v);
      if regions[k].available < n {
        forall t: nat ensures !Fits(v.bits, n, 0, |v.bits|, t) { TooFew(v.bits, n, t); }
        return -1;
      }
      s := regions[k].FindFree(n);
      if s < 0 {
        return;
      }
      NextFits(v.bits, n, From(v), s);
      regions[k].MarkUnavailable(s, n);
      vals := vals[k := Given(v, s, n)];
      SameLaid(old(vals), vals, 0);
    }

    /** pmm_free_pages */
    method FreePages(f: nat, n: nat)
      requires Valid()
      modifies this, regions, set r | r in regions :: r.bitmap
      ensures Valid() && Step(old(vals), Free(f, n), vals)
    {
      hide WellLaid, Find, Filled, Cleared, Separate;
      var k := 0;
      while k < |regions| && !(regions[k].base + regions[k].headerPages <= f
                               < regions[k].base + regions[k].headerPages + regions[k].capacity)
        invariant k <= |regions| && Valid() && vals == old(vals) && forall i | 0 <= i < k :: !Has(vals[i], f)
      {
        assert Is(regions[k], vals[k]);
        k := k + 1;
      }
      FindIs(vals, f, k);
      if k < |regions| {
        FreeIn(k, f - regions[k].base - regions[k].headerPages, n);
      }
    }

    method FreeIn(k: nat, idx: nat, n: nat)
      requires Valid() && k < |regions| && idx < regions[k].capacity
      modifies this`vals, regions[k], regions[k].bitmap
      ensures Valid() && vals == old(vals)[k := Cleared(old(vals)[k], idx, n)]
    {
      hide Filled, WellLaid;
      ghost var v := vals[k];
      assert Is(regions[k], v);
      regions[k].FreeAt(idx, n);
      vals := vals[k := Cleared(v, idx, n)];
      SameLaid(old(vals), vals, 0);
    }
  }

  lemma FindIs(rs: seq<R>, f: nat, k: nat)
    requires k <= |rs| && (k < |rs| ==> Has(rs[k], f)) && forall i | 0 <= i < k :: !Has(rs[i], f)
    ensures Find(rs, f) == k
  {}

  // ---------------------------------------------------------------- pmm_init

  /** An entry of the boot loader's memory map. */
  datatype Entry = Entry(usable: bool, base: nat, length: nat)

  predicate Overlap(a: Entry, b: Entry) { a.base < b.base + b.length && b.base < a.base + a.length }

  /** The whole pages of an entry. */
  function FirstPage(e: Entry): nat { (e.base + PAGE_SIZE - 1) / PAGE_SIZE }

  function EndPage(e: Entry): nat { (e.base + e.length) / PAGE_SIZE }

  predicate LargeEnough(e: Entry) {
    && e.usable && FirstPage(e) < EndPage(e)
    && EndPage(e) - FirstPage(e) >= HeaderPages(EndPage(e) - FirstPage(e)) + PMM_MIN_REGION_PAGES
  }

  /** The entries that become regions. */
  function Chosen(es: seq<Entry>): seq<Entry> {
    if es == [] then []
    else Chosen(es[..|es| - 1]) + if LargeEnough(es[|es| - 1]) then [es[|es| - 1]] else []
  }

  /** A region that has just been made of an entry: its header first, and as many usable pages again withheld. */
  ghost predicate MadeOf(v: R, e: Entry) {
    && LargeEnough(e) && v.base == FirstPage(e) && v.header == HeaderPages(EndPage(e) - FirstPage(e))
      && End(v) == EndPage(e) && v.cursor == 0
    && v.header >= 1 && forall i: nat | i < |v.bits| :: v.bits[i] <==> i < v.header
  }

  predicate Disjoint(es: seq<Entry>) {
    forall i, j | 0 <= i < j < |es| && es[i].usable && es[j].usable :: !Overlap(es[i], es[j])
  }

  /** pmm_init over the memory map, whose usable entries do not overlap. */
  method PmmInit(es: seq<Entry>) returns (a: Allocator)
    requires Disjoint(es)
    ensures a.Valid() && fresh(a) && |a.vals| == |Chosen(es)| && forall i | 0 <= i < |a.vals| ::
      MadeOf(a.vals[i], Chosen(es)[i])
  {
    hide HeaderPages, FirstPage, EndPage, WellLaid, MadeOf;
    var rs: seq<Region> := [];
    ghost var vs: seq<R> := [];
    assert es[..0] == [];
    for n := 0 to |es|
      invariant |vs| == |rs| == |Chosen(es[..n])| && Separate(rs)
        && (forall i | 0 <= i < |rs| :: fresh(rs[i]) && fresh(rs[i].bitmap))
      invariant forall i | 0 <= i < |rs| :: Is(rs[i], vs[i]) && MadeOf(vs[i], Chosen(es[..n])[i])
    {
      assert es[..n + 1][..n] == es[..n];
      if LargeEnough(es[n]) {
        var r := Region.Init(FirstPage(es[n]), EndPage(es[n]) - FirstPage(es[n]));
        ghost var v := R(r.base, r.headerPages, r.B(), r.cursor);
        JustMade(r, es[n]);
        rs, vs := rs + [r], vs + [v];
      }
    }
    assert es[..|es|] == es;
    MadeLaid(es, vs);
    a := new Allocator(rs, vs);
  }

  lemma JustMade(r: Region, e: Entry)
    requires LargeEnough(e) && r.Valid() && r.base == FirstPage(e)
      && r.headerPages == HeaderPages(EndPage(e) - FirstPage(e))
    requires r.capacity + r.headerPages == EndPage(e) - FirstPage(e) && r.cursor == 0
    requires forall i: nat | i < r.capacity :: r.B()[i] <==> i < r.headerPages
    ensures MadeOf(R(r.base, r.headerPages, r.B(), r.cursor), e)
  {
    hide HeaderPages, FirstPage, EndPage;
  }

  /** Entries that do not overlap make regions that do not. */
  lemma MadeLaid(es: seq<Entry>, vs: seq<R>)
    requires Disjoint(es) && |vs| == |Chosen(es)| && forall i | 0 <= i < |vs| :: MadeOf(vs[i], Chosen(es)[i])
    ensures WellLaid(vs)
  {
    ChosenApart(es);
    hide Chosen, HeaderPages;
    forall i, j | 0 <= i < j < |vs| ensures End(vs[i]) <= vs[j].base || End(vs[j]) <= vs[i].base {
      PagesApart(Chosen(es)[i], Chosen(es)[j]);
      assert MadeOf(vs[i], Chosen(es)[i]) && MadeOf(vs[j], Chosen(es)[j]);
    }
    forall i | 0 <= i < |vs| ensures vs[i].header >= 1 { assert MadeOf(vs[i], Chosen(es)[i]); }
  }

  lemma PagesApart(d: Entry, e: Entry)
    requires !Overlap(d, e) && LargeEnough(d) && LargeEnough(e)
    ensures EndPage(d) <= FirstPage(e) || EndPage(e) <= FirstPage(d)
  {
    hide HeaderPages;
  }

  lemma {:induction false} ChosenApart(es: seq<Entry>)
    requires Disjoint(es)
    ensures forall i, j | 0 <= i < j < |Chosen(es)| :: !Overlap(Chosen(es)[i], Chosen(es)[j])
    ensures forall e | e in Chosen(es) :: e in es && LargeEnough(e)
  {
    hide LargeEnough, Overlap;
    if es != [] {
      var front, e := es[..|es| - 1], es[|es| - 1];
      ChosenApart(front);
      forall d | d in Chosen(front) && LargeEnough(e) ensures !Overlap(d, e) { LastApart(es, d); }
    }
  }

  lemma LastApart(es: seq<Entry>, d: Entry)
    requires Disjoint(es) && es != [] && d in es[..|es| - 1] && LargeEnough(d) && LargeEnough(es[|es| - 1])
    ensures !Overlap(d, es[|es| - 1])
  {
    hide HeaderPages;
    var i :| 0 <= i < |es| - 1 && es[..|es| - 1][i] == d;
    assert es[i] == d;
  }
}
