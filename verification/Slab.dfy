/** The kernel's small-object allocator (kernel/src/mm/kalloc.c): pages cut into equal slots, whose free ones are
    chained through their own first word. */
module Slab {
  import opened Collections

  const PAGE_SIZE: nat := 4096
  const HEADER: nat := 48
  const LARGE_HEADER: nat := 16
  const NUM_CLASSES: nat := 9
  const TWO64: nat := 0x1_0000_0000_0000_0000

  function Size(ci: nat): nat
    requires ci < NUM_CLASSES
  {
    [8, 16, 32, 64, 128, 256, 512, 1024, 2048][ci]
  }

  /** How many objects fit a page after the header. */
  function Total(ci: nat): (n: nat)
    requires ci < NUM_CLASSES
    ensures n >= 1 && HEADER + n * Size(ci) <= PAGE_SIZE
  {
    (PAGE_SIZE - HEADER) / Size(ci)
  }

  /** class_for: the smallest class that is large enough. */
  method ClassFor(bytes: nat) returns (ci: nat)
    ensures ci <= NUM_CLASSES
    ensures ci < NUM_CLASSES ==> bytes <= Size(ci) && forall j: nat | j < ci :: Size(j) < bytes
    ensures ci == NUM_CLASSES <==> bytes > 2048
  {
    var want := if bytes < 8 then 8 else bytes;
    ci := 0;
    while ci < NUM_CLASSES && Size(ci) < want
      invariant ci <= NUM_CLASSES && forall j: nat | j < ci :: Size(j) < want
    {
      ci := ci + 1;
    }
    assert Size(8) == 2048;
  }

  // ---------------------------------------------------------------- large blocks

  /** The pages kmalloc asks for, as the 64-bit sums compute them. */
  function LargePages(bytes: nat): nat { ((bytes + LARGE_HEADER) % TWO64 + PAGE_SIZE - 1) % TWO64 / PAGE_SIZE }

  /** A request for which no pages are asked for is refused; every other gets a block of at least its size, except in
      the fifteen sizes just below 2^64, whose sum with the header wraps around to a few bytes. */
  lemma LargeEnough(bytes: nat)
    requires 2048 < bytes < TWO64
    ensures (LargePages(bytes) == 0 || bytes + LARGE_HEADER <= LargePages(bytes) * PAGE_SIZE)
        <==> bytes <= TWO64 - LARGE_HEADER
  {
    var total := bytes + LARGE_HEADER;
    if total < TWO64 {
      assert total + PAGE_SIZE - 1 < TWO64 ==> LargePages(bytes) == (total + PAGE_SIZE - 1) / PAGE_SIZE;
      assert total + PAGE_SIZE - 1 >= TWO64 ==> LargePages(bytes) == 0;
    } else {
      assert total % TWO64 == total - TWO64;
    }
  }

  // ---------------------------------------------------------------- free lists

  type Words = map<(nat, nat), Option<nat>>        // the first word of slot s of page p

  /** From head on, the free list of page p runs through exactly the slots l. */
  predicate IsChain(mem: Words, p: nat, head: Option<nat>, l: seq<nat>)
    decreases |l|
  {
    if l == [] then head == None
    else head == Some(l[0]) && (p, l[0]) in mem && IsChain(mem, p, mem[(p, l[0])], l[1..])
  }

  lemma {:induction false} ChainKept(mem: Words, mem': Words, p: nat, head: Option<nat>, l: seq<nat>)
    requires IsChain(mem, p, head, l)
    requires forall s | s in l && (p, s) in mem :: (p, s) in mem' && mem'[(p, s)] == mem[(p, s)]
    ensures IsChain(mem', p, head, l)
    decreases |l|
  {
    if l != [] {
      assert l[0] in l;
      ChainKept(mem, mem', p, mem[(p, l[0])], l[1..]);
    }
  }

  /** What a live object's owner writes cannot hurt the chain; neither can what goes on in other pages. */
  lemma ChainElse(mem: Words, p: nat, head: Option<nat>, l: seq<nat>, q: nat, s: nat, v: Option<nat>)
    requires IsChain(mem, p, head, l) && (q != p || s !in l)
    ensures IsChain(mem[(q, s) := v], p, head, l)
  {
    ChainKept(mem, mem[(q, s) := v], p, head, l);
  }

  function UpTo(lo: nat, n: nat): (l: seq<nat>)
    requires lo <= n
    ensures |l| == n - lo && forall i | 0 <= i < n - lo :: l[i] == lo + i
  {
    seq(n - lo, i => lo + i)
  }

  /** The loop of slab_init_page: every slot points to the next. */
  method InitPage(mem: Words, p: nat, n: nat) returns (mem': Words)
    requires n >= 1
    ensures IsChain(mem', p, Some(0), UpTo(0, n))
    ensures forall q: nat, s: nat | q != p ::
      ((q, s) in mem' <==> (q, s) in mem)
      && ((q, s) in mem ==> mem'[(q, s)] == mem[(q, s)])
  {
    mem' := mem;
    for i := 0 to n
      invariant forall q: nat, s: nat | q != p ::
        ((q, s) in mem' <==> (q, s) in mem)
        && ((q, s) in mem ==> mem'[(q, s)] == mem[(q, s)])
      invariant forall s: nat | s < i :: (p, s) in mem' && mem'[(p, s)] == if s + 1 < n then Some(s + 1) else None
    {
      mem' := mem'[(p, i) := if i + 1 < n then Some(i + 1) else None];
    }
    ChainUp(mem', p, 0, n);
  }

  lemma {:induction false} ChainUp(mem: Words, p: nat, lo: nat, n: nat)
    requires lo <= n && forall s: nat | lo <= s < n ::
      (p, s) in mem
      && mem[(p, s)] == if s + 1 < n then Some(s + 1) else None
    ensures IsChain(mem, p, if lo < n then Some(lo) else None, UpTo(lo, n))
    decreases n - lo
  {
    if lo < n {
      ChainUp(mem, p, lo + 1, n);
      assert UpTo(lo, n)[1..] == UpTo(lo + 1, n);
    }
  }

  // ---------------------------------------------------------------- slabs

  datatype Header = Header(ci: nat, head: Option<nat>, free: nat)      // class_idx, freelist, free_count

  type Slabs = map<nat, Header>                                   // by page
  type Chains = map<nat, seq<nat>>                                // the free slots of each, in order

  ghost predicate SlabOk(slabs: Slabs, mem: Words, cs: Chains, p: nat) {
    && p in slabs && p in cs && slabs[p].ci < NUM_CLASSES
    && NoDup(cs[p]) && (forall s | s in cs[p] :: s < Total(slabs[p].ci))
    && |cs[p]| == slabs[p].free && IsChain(mem, p, slabs[p].head, cs[p])
  }

  /** A slab is on its class's partial list exactly if it has a free slot and is not the cached empty one. */
  predicate OnPartial(slabs: Slabs, empty: Option<nat>, ci: nat, p: nat) {
    p in slabs && slabs[p].ci == ci && slabs[p].free > 0 && empty != Some(p)
  }

  ghost predicate ClassOk(slabs: Slabs, partial: seq<nat>, empty: Option<nat>, ci: nat)
    requires ci < NUM_CLASSES
  {
    && NoDup(partial) && (forall p: nat :: p in partial <==> OnPartial(slabs, empty, ci, p))
    && (empty.Some? ==> empty.value in slabs && slabs[empty.value].ci == ci && slabs[empty.value].free == Total(ci))
  }

  /** Slot s of page p is handed out. */
  predicate Live(slabs: Slabs, cs: Chains, p: nat, s: nat) {
    p in slabs && p in cs && slabs[p].ci < NUM_CLASSES && s < Total(slabs[p].ci) && s !in cs[p]
  }

  /** Exactly the same slots are handed out, and the same but perhaps for slot s of page p. */
  ghost predicate SameLive(slabs: Slabs, cs: Chains, slabs': Slabs, cs': Chains) {
    forall q: nat, t: nat :: Live(slabs', cs', q, t) <==> Live(slabs, cs, q, t)
  }

  ghost predicate OtherLive(slabs: Slabs, cs: Chains, slabs': Slabs, cs': Chains, p: nat, s: nat) {
    forall q: nat, t: nat | (q, t) != (p, s) :: Live(slabs', cs', q, t) <==> Live(slabs, cs, q, t)
  }

  function Address(slabs: Slabs, p: nat, s: nat): nat
    requires p in slabs && slabs[p].ci < NUM_CLASSES
  {
    p * PAGE_SIZE + HEADER + s * Size(slabs[p].ci)
  }

  /** Different slots, of whatever pages and classes, are different bytes. */
  lemma Apart(slabs: Slabs, cs: Chains, p: nat, s: nat, q: nat, t: nat)
    requires Live(slabs, cs, p, s) && Live(slabs, cs, q, t) && (p, s) != (q, t)
    ensures var a, b := Address(slabs, p, s), Address(slabs, q, t);
      a + Size(slabs[p].ci) <= b || b + Size(slabs[q].ci) <= a
  {
    SlotInside(slabs[p].ci, s);
    SlotInside(slabs[q].ci, t);
    if p == q {
      SlotsApart(Size(slabs[p].ci), s, t);
    }
  }

  lemma SlotInside(ci: nat, s: nat)
    requires ci < NUM_CLASSES && s < Total(ci)
    ensures HEADER + s * Size(ci) + Size(ci) <= PAGE_SIZE
  {
    SlotsApart(Size(ci), s, Total(ci));
  }

  lemma SlotsApart(size: nat, s: nat, t: nat)
    requires s != t
    ensures s < t ==> s * size + size <= t * size
    ensures t < s ==> t * size + size <= s * size
  {
    if s < t {
      assert (t - s) * size >= size by { Grow(t - s, size); }
      assert t * size == s * size + (t - s) * size;
    } else {
      assert (s - t) * size >= size by { Grow(s - t, size); }
      assert s * size == t * size + (s - t) * size;
    }
  }

  lemma Grow(n: nat, size: nat)
    requires n >= 1
    ensures n * size >= size
  {
    assert n * size == size + (n - 1) * size && (n - 1) * size >= 0;
  }

  /** Taking the first free slot off page p. */
  lemma TakeSlab(slabs: Slabs, mem: Words, cs: Chains, p: nat, q: nat)
    requires SlabOk(slabs, mem, cs, p) && slabs[p].free > 0 && SlabOk(slabs, mem, cs, q)
    ensures slabs[p].head.Some? && (p, slabs[p].head.value) in mem && slabs[p].head.value == cs[p][0]
    ensures SlabOk(slabs[p := slabs[p].(head := mem[(p, slabs[p].head.value)], free := slabs[p].free - 1)], mem,
      cs[p := cs[p][1..]], q)
  {
    assert cs[p] == [cs[p][0]] + cs[p][1..];
    assert forall s | s in cs[p][1..] :: s in cs[p];
  }

  /** Putting slot s back in front. */
  lemma GiveSlab(slabs: Slabs, mem: Words, cs: Chains, p: nat, s: nat, q: nat)
    requires SlabOk(slabs, mem, cs, p) && Live(slabs, cs, p, s) && SlabOk(slabs, mem, cs, q)
    ensures SlabOk(slabs[p := slabs[p].(head := Some(s), free := slabs[p].free + 1)], mem[(p, s) := slabs[p].head],
      cs[p := [s] + cs[p]], q)
  {
    ChainElse(mem, q, slabs[q].head, cs[q], p, s, slabs[p].head);
    var l := [s] + cs[p];
    assert l[1..] == cs[p];
    ChainElse(mem, p, slabs[p].head, cs[p], p, s, slabs[p].head);
    NoDupAppend([s], cs[p]);
  }

  function Without(l: seq<nat>, x: nat): seq<nat> {
    if l == [] then [] else if l[0] == x then l[1..] else [l[0]] + Without(l[1..], x)
  }

  lemma {:induction false} WithoutIs(l: seq<nat>, x: nat, y: nat)
    requires NoDup(l)
    ensures y in Without(l, x) <==> y in l && y != x
  {
    if l != [] {
      assert l == [l[0]] + l[1..];
      assert l[0] !in l[1..];
      WithoutIs(l[1..], x, y);
    }
  }

  lemma {:induction false} WithoutNoDup(l: seq<nat>, x: nat)
    requires NoDup(l)
    ensures NoDup(Without(l, x))
  {
    if l != [] && l[0] != x {
      WithoutNoDup(l[1..], x);
      WithoutIs(l[1..], x, l[0]);
      assert l[0] !in l[1..];
      NoDupAppend([l[0]], Without(l[1..], x));
    }
  }

  /** The list of a class after slab p has changed: in front if it has come to have a free slot, out if it has none
      left or is cached. */
  lemma ListKept(slabs: Slabs, partial: seq<nat>, empty: Option<nat>, ci: nat, p: nat, h: Header, empty': Option<nat>)
    requires ci < NUM_CLASSES && ClassOk(slabs, partial, empty, ci) && (p in slabs ==> slabs[p].ci == h.ci)
    requires empty' == empty || (empty == Some(p) && empty' == None) || (empty == None && empty' == Some(p))
    requires empty' == Some(p) ==> h.ci == ci && h.free == Total(ci)
    ensures var now := OnPartial(slabs[p := h], empty', ci, p);
      ClassOk(slabs[p := h],
              if now && p !in partial then [p] + partial else if !now then Without(partial, p) else partial,
              empty', ci)
  {
    var slabs' := slabs[p := h];
    var now := OnPartial(slabs', empty', ci, p);
    var l := if now && p !in partial then [p] + partial else if !now then Without(partial, p) else partial;
    if now && p !in partial {
      NoDupAppend([p], partial);
    } else if !now {
      WithoutNoDup(partial, p);
    }
    forall q: nat ensures q in l <==> OnPartial(slabs', empty', ci, q) {
      WithoutIs(partial, p, q);
      assert q in partial <==> OnPartial(slabs, empty, ci, q);
    }
  }

  /** A slab whose page has gone back is on no list. */
  lemma ListDropped(slabs: Slabs, partial: seq<nat>, empty: Option<nat>, ci: nat, p: nat)
    requires ci < NUM_CLASSES && ClassOk(slabs, partial, empty, ci) && empty != Some(p)
    ensures ClassOk(slabs - {p}, Without(partial, p), empty, ci)
  {
    WithoutNoDup(partial, p);
    forall q: nat ensures q in Without(partial, p) <==> OnPartial(slabs - {p}, empty, ci, q) {
      WithoutIs(partial, p, q);
    }
  }

  lemma {:induction false} WithoutNone(l: seq<nat>, x: nat)
    requires x !in l
    ensures Without(l, x) == l
  {
    if l != [] {
      WithoutNone(l[1..], x);
    }
  }

  ghost predicate SlabsOk(slabs: Slabs, mem: Words, cs: Chains) {
    (forall p: nat | p in slabs :: SlabOk(slabs, mem, cs, p)) && (forall p | p in cs :: p in slabs)
  }

  ghost predicate ClassesOk(slabs: Slabs, partial: seq<seq<nat>>, empty: seq<Option<nat>>) {
    && |partial| == |empty| == NUM_CLASSES
    && forall ci: nat | ci < NUM_CLASSES :: ClassOk(slabs, partial[ci], empty[ci], ci)
  }

  /** Only slab p, of class ci, and that class's list and cache have changed. */
  lemma OneClass(slabs: Slabs, partial: seq<seq<nat>>, empty: seq<Option<nat>>, ci: nat, p: nat, h: Header,
                 l: seq<nat>, e: Option<nat>)
    requires ClassesOk(slabs, partial, empty) && ci == h.ci < NUM_CLASSES && (p in slabs ==> slabs[p].ci == ci)
    requires ClassOk(slabs[p := h], l, e, ci)
    ensures ClassesOk(slabs[p := h], partial[ci := l], empty[ci := e])
  {
    var partial', empty' := partial[ci := l], empty[ci := e];
    forall c: nat | c < NUM_CLASSES ensures ClassOk(slabs[p := h], partial'[c], empty'[c], c) {
      if c != ci {
        OtherClass(slabs, partial[c], empty[c], c, p, h);
        assert ClassOk(slabs, partial[c], empty[c], c);
      }
    }
    hide ClassOk;
  }

  lemma OtherClass(slabs: Slabs, partial: seq<nat>, empty: Option<nat>, c: nat, p: nat, h: Header)
    requires c < NUM_CLASSES && h.ci != c && (p in slabs ==> slabs[p].ci == h.ci)
    ensures ClassOk(slabs, partial, empty, c) ==> ClassOk(slabs[p := h], partial, empty, c)
  {
    if ClassOk(slabs, partial, empty, c) {
      forall q: nat ensures OnPartial(slabs[p := h], empty, c, q) <==> OnPartial(slabs, empty, c, q) {}
    }
  }

  lemma UncacheKept(slabs: Slabs, partial: seq<seq<nat>>, empty: seq<Option<nat>>, ci: nat)
    requires ClassesOk(slabs, partial, empty) && ci < NUM_CLASSES && empty[ci].Some?
    ensures var p := empty[ci].value; p in slabs && slabs[p].ci == ci && !NoneFree(slabs, ci)
    ensures ClassesOk(slabs, partial[ci := [empty[ci].value] + partial[ci]], empty[ci := None])
  {
    var p := empty[ci].value;
    assert ClassOk(slabs, partial[ci], empty[ci], ci);
    assert p !in partial[ci];
    ListKept(slabs, partial[ci], empty[ci], ci, p, slabs[p], None);
    assert slabs[p := slabs[p]] == slabs;
    OneClass(slabs, partial, empty, ci, p, slabs[p], [p] + partial[ci], None);
    hide ClassOk;
  }

  lemma NewClass(slabs: Slabs, partial: seq<seq<nat>>, empty: seq<Option<nat>>, p: nat, ci: nat)
    requires ClassesOk(slabs, partial, empty) && ci < NUM_CLASSES && p !in slabs
    ensures ClassesOk(slabs[p := Header(ci, Some(0), Total(ci))], partial[ci := [p] + partial[ci]], empty)
  {
    var h := Header(ci, Some(0), Total(ci));
    assert ClassOk(slabs, partial[ci], empty[ci], ci);
    assert p !in partial[ci] && empty[ci] != Some(p);
    ListKept(slabs, partial[ci], empty[ci], ci, p, h, empty[ci]);
    OneClass(slabs, partial, empty, ci, p, h, [p] + partial[ci], empty[ci]);
    assert empty[ci := empty[ci]] == empty;
    hide ClassOk;
  }

  lemma NewSlab(slabs: Slabs, mem: Words, mem': Words, cs: Chains, p: nat, ci: nat)
    requires SlabsOk(slabs, mem, cs) && ci < NUM_CLASSES && p !in slabs && IsChain(mem', p, Some(0), UpTo(0, Total(ci)))
    requires forall q: nat, s: nat | q != p ::
      ((q, s) in mem' <==> (q, s) in mem)
      && ((q, s) in mem ==> mem'[(q, s)] == mem[(q, s)])
    ensures SlabsOk(slabs[p := Header(ci, Some(0), Total(ci))], mem', cs[p := UpTo(0, Total(ci))])
  {
    var slabs', cs' := slabs[p := Header(ci, Some(0), Total(ci))], cs[p := UpTo(0, Total(ci))];
    forall q: nat | q in slabs' ensures SlabOk(slabs', mem', cs', q) {
      if q != p {
        assert SlabOk(slabs, mem, cs, q);
        ChainKept(mem, mem', q, slabs[q].head, cs[q]);
      }
    }
  }

  lemma NewLive(slabs: Slabs, cs: Chains, p: nat, ci: nat, q: nat, s: nat)
    requires ci < NUM_CLASSES && p !in slabs
    ensures Live(slabs[p := Header(ci, Some(0), Total(ci))], cs[p := UpTo(0, Total(ci))], q, s)
      <==> Live(slabs, cs, q, s)
  {
    if q == p && s < Total(ci) {
      assert UpTo(0, Total(ci))[s] == s;
    }
  }

  /** The slab's header after its first free slot is taken, and after one is put back. */
  function Taken(h: Header, next: Option<nat>): Header
    requires h.free > 0
  {
    h.(head := next, free := h.free - 1)
  }

  function Given(h: Header, s: nat): Header { h.(head := Some(s), free := h.free + 1) }

  lemma TakeKept(slabs: Slabs, mem: Words, cs: Chains, partial: seq<seq<nat>>, empty: seq<Option<nat>>, p: nat)
    requires SlabsOk(slabs, mem, cs) && ClassesOk(slabs, partial, empty) && p in slabs && slabs[p].ci < NUM_CLASSES
      && p in partial[slabs[p].ci]
    ensures slabs[p].free > 0 && slabs[p].head.Some? && (p, slabs[p].head.value) in mem && p in cs && |cs[p]| > 0
      && slabs[p].head.value == cs[p][0]
    ensures var h := Taken(slabs[p], mem[(p, slabs[p].head.value)]);
      && SlabsOk(slabs[p := h], mem, cs[p := cs[p][1..]])
      && ClassesOk(slabs[p := h], partial[h.ci := if h.free == 0 then Without(partial[h.ci], p) else partial[h.ci]],
        empty)
  {
    var ci := slabs[p].ci;
    assert ClassOk(slabs, partial[ci], empty[ci], ci);
    assert OnPartial(slabs, empty[ci], ci, p) && SlabOk(slabs, mem, cs, p);
    TakeSlab(slabs, mem, cs, p, p);
    var h := Taken(slabs[p], mem[(p, slabs[p].head.value)]);
    var slabs', cs' := slabs[p := h], cs[p := cs[p][1..]];
    forall q: nat | q in slabs' ensures SlabOk(slabs', mem, cs', q) { TakeSlab(slabs, mem, cs, p, q); }
    ListKept(slabs, partial[ci], empty[ci], ci, p, h, empty[ci]);
    OneClass(slabs, partial, empty, ci, p, h, if h.free == 0 then Without(partial[ci], p) else partial[ci], empty[ci]);
    assert empty[ci := empty[ci]] == empty;
    hide ClassOk, IsChain, Without;
  }

  /** A slab with a slot handed out is not the cached one, and has fewer free slots than slots. */
  lemma NotCached(slabs: Slabs, mem: Words, cs: Chains, partial: seq<seq<nat>>, empty: seq<Option<nat>>, p: nat, s: nat)
    requires SlabsOk(slabs, mem, cs) && ClassesOk(slabs, partial, empty) && Live(slabs, cs, p, s)
    ensures slabs[p].free < Total(slabs[p].ci) && empty[slabs[p].ci] != Some(p)
    ensures p in partial[slabs[p].ci] <==> slabs[p].free > 0
  {
    var ci := slabs[p].ci;
    assert SlabOk(slabs, mem, cs, p) && ClassOk(slabs, partial[ci], empty[ci], ci);
    Fewer(cs[p], Total(ci), s);
    assert p in partial[ci] <==> OnPartial(slabs, empty[ci], ci, p);
  }

  lemma Fewer(l: seq<nat>, n: nat, s: nat)
    requires NoDup(l) && (forall x | x in l :: x < n) && s < n && s !in l
    ensures |l| < n
  {
    var all := SetOf([s] + l);
    NoDupAppend([s], l);
    SetSize([s] + l);
    Inside(all, n);
  }

  ghost function SetOf(l: seq<nat>): set<nat> { set x | x in l }

  lemma {:induction false} SetSize(l: seq<nat>)
    requires NoDup(l)
    ensures |SetOf(l)| == |l|
  {
    if l != [] {
      SetSize(l[1..]);
      assert l == [l[0]] + l[1..];
      assert SetOf(l) == SetOf(l[1..]) + {l[0]};
      assert l[0] !in l[1..];
    }
  }

  lemma {:induction false} Inside(a: set<nat>, n: nat)
    requires forall x | x in a :: x < n
    ensures |a| <= n
  {
    if n > 0 {
      var b := a - {n - 1};
      Inside(b, n - 1);
      assert a == if n - 1 in a then b + {n - 1} else b;
    } else {
      assert a == {};
    }
  }

  lemma GiveSlabs(slabs: Slabs, mem: Words, cs: Chains, p: nat, s: nat)
    requires SlabsOk(slabs, mem, cs) && Live(slabs, cs, p, s)
    ensures SlabsOk(slabs[p := Given(slabs[p], s)], mem[(p, s) := slabs[p].head], cs[p := [s] + cs[p]])
  {
    var slabs', mem', cs' := slabs[p := Given(slabs[p], s)], mem[(p, s) := slabs[p].head], cs[p := [s] + cs[p]];
    assert SlabOk(slabs, mem, cs, p);
    forall q: nat | q in slabs' ensures SlabOk(slabs', mem', cs', q) { GiveSlab(slabs, mem, cs, p, s, q); }
    hide IsChain;
  }

  /** The three ways kfree leaves the lists when it keeps the page. */
  lemma GiveClass(slabs: Slabs, partial: seq<seq<nat>>, empty: seq<Option<nat>>, p: nat, s: nat)
    requires ClassesOk(slabs, partial, empty) && p in slabs && slabs[p].ci < NUM_CLASSES
      && slabs[p].free < Total(slabs[p].ci)
    requires empty[slabs[p].ci] != Some(p) && (p in partial[slabs[p].ci] <==> slabs[p].free > 0)
    ensures var h, ci := Given(slabs[p], s), slabs[p].ci;
      && (h.free == 1 ==> ClassesOk(slabs[p := h], partial[ci := [p] + partial[ci]], empty))
      && (h.free > 1 ==> ClassesOk(slabs[p := h], partial, empty))
      && (h.free == Total(ci) > 1 && empty[ci] == None ==>
            ClassesOk(slabs[p := h], partial[ci := Without(partial[ci], p)], empty[ci := Some(p)]))
  {
    var h, ci := Given(slabs[p], s), slabs[p].ci;
    assert ClassOk(slabs, partial[ci], empty[ci], ci);
    ListKept(slabs, partial[ci], empty[ci], ci, p, h, empty[ci]);
    OneClass(slabs, partial, empty, ci, p, h, if h.free == 1 then [p] + partial[ci] else partial[ci], empty[ci]);
    assert empty[ci := empty[ci]] == empty && partial[ci := partial[ci]] == partial;
    if h.free == Total(ci) > 1 && empty[ci] == None {
      ListKept(slabs, partial[ci], None, ci, p, h, Some(p));
      OneClass(slabs, partial, empty, ci, p, h, Without(partial[ci], p), Some(p));
    }
    hide ClassOk, Without;
  }

  /** And when the page goes back. */
  lemma DropClass(slabs: Slabs, partial: seq<seq<nat>>, empty: seq<Option<nat>>, p: nat)
    requires ClassesOk(slabs, partial, empty) && p in slabs && slabs[p].ci < NUM_CLASSES
      && empty[slabs[p].ci] != Some(p)
    ensures ClassesOk(slabs - {p}, partial[slabs[p].ci := Without(partial[slabs[p].ci], p)], empty)
  {
    var ci := slabs[p].ci;
    var partial' := partial[ci := Without(partial[ci], p)];
    forall c: nat | c < NUM_CLASSES ensures ClassOk(slabs - {p}, partial'[c], empty[c], c) {
      assert ClassOk(slabs, partial[c], empty[c], c);
      ListDropped(slabs, partial[c], empty[c], c, p);
      if c != ci {
        assert p !in partial[c];
        WithoutNone(partial[c], p);
      }
    }
    hide Without;
  }

  lemma DropSlab(slabs: Slabs, mem: Words, cs: Chains, p: nat)
    requires SlabsOk(slabs, mem, cs)
    ensures SlabsOk(slabs - {p}, mem, cs - {p})
  {
    forall q: nat | q in slabs - {p} ensures SlabOk(slabs - {p}, mem, cs - {p}, q) { assert SlabOk(slabs, mem, cs, q); }
    hide IsChain;
  }

  // ---------------------------------------------------------------- wholly free slabs

  predicate WhollyFree(slabs: Slabs, p: nat) {
    p in slabs && slabs[p].ci < NUM_CLASSES && Total(slabs[p].ci) > 1 && slabs[p].free == Total(slabs[p].ci)
  }

  /** No slab of several objects lies about with nothing in it, except the one its class has cached, and perhaps p. */
  ghost predicate OneSpare(slabs: Slabs, empty: seq<Option<nat>>, p: Option<nat>) {
    && |empty| == NUM_CLASSES
    && forall q: nat | WhollyFree(slabs, q) && p != Some(q) :: empty[slabs[q].ci] == Some(q)
  }

  /** So none is on a partial list, and no class has two. */
  lemma SpareIs(slabs: Slabs, partial: seq<seq<nat>>, empty: seq<Option<nat>>, p: nat, q: nat)
    requires ClassesOk(slabs, partial, empty) && OneSpare(slabs, empty, None) && WhollyFree(slabs, p)
    ensures p !in partial[slabs[p].ci]
    ensures WhollyFree(slabs, q) && slabs[q].ci == slabs[p].ci ==> q == p
  {
    assert ClassOk(slabs, partial[slabs[p].ci], empty[slabs[p].ci], slabs[p].ci);
  }

  /** No slot of page p is handed out. */
  ghost predicate NoneLive(slabs: Slabs, cs: Chains, p: nat) { forall t: nat :: !Live(slabs, cs, p, t) }

  lemma {:induction false} Smaller(a: set<nat>, b: set<nat>)
    requires a <= b
    ensures |a| <= |b|
  {
    if a != {} {
      var x :| x in a;
      Smaller(a - {x}, b - {x});
    }
  }

  lemma NoneLiveIs(slabs: Slabs, mem: Words, cs: Chains, p: nat)
    requires SlabsOk(slabs, mem, cs) && p in slabs && slabs[p].ci < NUM_CLASSES
    ensures NoneLive(slabs, cs, p) <==> slabs[p].free == Total(slabs[p].ci)
  {
    var n, l := Total(slabs[p].ci), cs[p];
    assert SlabOk(slabs, mem, cs, p);
    hide IsChain, Total;
    SetSize(l);
    SetSize(UpTo(0, n));
    if NoneLive(slabs, cs, p) {
      forall t: nat | t < n ensures t in l { assert !Live(slabs, cs, p, t); }
      Smaller(SetOf(UpTo(0, n)), SetOf(l));
      Inside(SetOf(l), n);
    } else {
      var t: nat :| Live(slabs, cs, p, t);
      Fewer(l, n, t);
    }
  }

  /** The slot is the last one handed out of a slab of several, and another slab of its class has none handed out. */
  ghost predicate LastOfMany(slabs: Slabs, cs: Chains, p: nat, s: nat) {
    && p in slabs && slabs[p].ci < NUM_CLASSES && Total(slabs[p].ci) > 1
    && (forall t: nat :: Live(slabs, cs, p, t) ==> t == s)
    && exists q: nat :: q in slabs && q != p && slabs[q].ci == slabs[p].ci && NoneLive(slabs, cs, q)
  }

  /** In the terms of kfree: the count has come to the total, and there is a cached slab. */
  lemma LastOfManyIs(slabs: Slabs, mem: Words, cs: Chains, partial: seq<seq<nat>>, empty: seq<Option<nat>>, p: nat,
                     s: nat)
    requires SlabsOk(slabs, mem, cs) && ClassesOk(slabs, partial, empty) && OneSpare(slabs, empty, None)
      && Live(slabs, cs, p, s)
    ensures slabs[p].ci < NUM_CLASSES == |empty| == |partial|
    ensures LastOfMany(slabs, cs, p, s) <==>
      slabs[p].free + 1 == Total(slabs[p].ci) > 1 && empty[slabs[p].ci].Some?
  {
    hide Total;
    var ci := slabs[p].ci;
    NotCached(slabs, mem, cs, partial, empty, p, s);
    LastIs(slabs, mem, cs, p, s);
    assert ClassOk(slabs, partial[ci], empty[ci], ci);
    if empty[ci].Some? {
      NoneLiveIs(slabs, mem, cs, empty[ci].value);
    }
    hide SlabsOk, ClassesOk;
    if LastOfMany(slabs, cs, p, s) {
      var q: nat :| q in slabs && q != p && slabs[q].ci == slabs[p].ci && NoneLive(slabs, cs, q);
      NoneLiveIs(slabs, mem, cs, q);
      assert WhollyFree(slabs, q);
    }
  }

  lemma LastIs(slabs: Slabs, mem: Words, cs: Chains, p: nat, s: nat)
    requires SlabsOk(slabs, mem, cs) && Live(slabs, cs, p, s)
    ensures (forall t: nat :: Live(slabs, cs, p, t) ==> t == s) <==> slabs[p].free + 1 == Total(slabs[p].ci)
  {
    hide SlabsOk, Total;
    var slabs', cs' := slabs[p := Given(slabs[p], s)], cs[p := [s] + cs[p]];
    GiveSlabs(slabs, mem, cs, p, s);
    NoneLiveIs(slabs', mem[(p, s) := slabs[p].head], cs', p);
    LiveAfter(slabs, cs, p, s, Given(slabs[p], s));
    hide Live;
  }

  // ---------------------------------------------------------------- blocks by address

  type Larges = map<nat, nat>                                     // the pages of each large block, by its first

  predicate Covers(large: Larges, p: nat, q: nat) { p in large && p <= q < p + large[p] }

  /** No page belongs to two large blocks, or to one and to a slab. */
  ghost predicate LargesOk(slabs: Slabs, large: Larges) {
    && (forall p: nat | p in large :: large[p] >= 1)
    && (forall p: nat, q: nat | Covers(large, p, q) :: q !in slabs)
    && (forall p: nat, q: nat, r: nat | Covers(large, p, r) && Covers(large, q, r) :: p == q)
  }

  /** Pages the page allocator may still give. */
  ghost predicate Unused(slabs: Slabs, large: Larges, first: nat, n: nat) {
    forall q: nat | first <= q < first + n :: q !in slabs && forall p: nat :: !Covers(large, p, q)
  }

  function SlotOf(slabs: Slabs, a: nat): nat
    requires a / PAGE_SIZE in slabs && slabs[a / PAGE_SIZE].ci < NUM_CLASSES && a % PAGE_SIZE >= HEADER
  {
    (a % PAGE_SIZE - HEADER) / Size(slabs[a / PAGE_SIZE].ci)
  }

  predicate IsSmall(slabs: Slabs, cs: Chains, a: nat) {
    var p := a / PAGE_SIZE;
    && p in slabs && slabs[p].ci < NUM_CLASSES && a % PAGE_SIZE >= HEADER
    && Live(slabs, cs, p, SlotOf(slabs, a)) && a == Address(slabs, p, SlotOf(slabs, a))
  }

  predicate IsLarge(large: Larges, a: nat) { a % PAGE_SIZE == LARGE_HEADER && a / PAGE_SIZE in large }

  /** The block at a is the last one handed out of a slab of several, and another slab of its class has none. */
  ghost predicate LastBlock(slabs: Slabs, cs: Chains, large: Larges, a: nat) {
    a / PAGE_SIZE !in large && IsSmall(slabs, cs, a) && LastOfMany(slabs, cs, a / PAGE_SIZE, SlotOf(slabs, a))
  }

  /** Address a is that of a block handed out, and how long it is. */
  predicate Handed(slabs: Slabs, cs: Chains, large: Larges, a: nat) { IsSmall(slabs, cs, a) || IsLarge(large, a) }

  function Length(slabs: Slabs, large: Larges, a: nat): int {
    var p := a / PAGE_SIZE;
    if p in large then large[p] * PAGE_SIZE - LARGE_HEADER
    else if p in slabs && slabs[p].ci < NUM_CLASSES then Size(slabs[p].ci)
    else 0
  }

  predicate StaysAs(slabs: Slabs, cs: Chains, large: Larges, slabs': Slabs, cs': Chains, large': Larges, a: nat) {
    && (Handed(slabs', cs', large', a) <==> Handed(slabs, cs, large, a))
    && (Handed(slabs, cs, large, a) ==> Length(slabs', large', a) == Length(slabs, large, a))
  }

  predicate Within(slabs: Slabs, slabs': Slabs) {
    forall p: nat | p in slabs :: p in slabs' && slabs[p].ci == slabs'[p].ci
  }

  predicate Same(slabs: Slabs, slabs': Slabs) { Within(slabs, slabs') && Within(slabs', slabs) }

  predicate NoneFree(slabs: Slabs, ci: nat) { forall p: nat | p in slabs && slabs[p].ci == ci :: slabs[p].free == 0 }

  function Wanted(bytes: nat): nat { if bytes > 2048 then LargePages(bytes) else 1 }

  /** The smallest class that is large enough has no free slot, or the size has no pages, and none can be had. */
  predicate NoMemory(slabs: Slabs, bytes: nat, run: Option<nat>) {
    if bytes > 2048 then LargePages(bytes) == 0 || run == None
    else run == None && forall ci: nat | ci < NUM_CLASSES && SmallestFor(ci, bytes) :: NoneFree(slabs, ci)
  }

  /** A new slab is wanted: the smallest class that is large enough has no free slot. */
  predicate NeedsPage(slabs: Slabs, bytes: nat) {
    0 < bytes <= 2048 && forall ci: nat | ci < NUM_CLASSES && SmallestFor(ci, bytes) :: NoneFree(slabs, ci)
  }

  /** Slab q has both a slot handed out and a free one. */
  predicate HalfUsed(slabs: Slabs, ci: nat, q: nat)
    requires ci < NUM_CLASSES
  {
    q in slabs && slabs[q].ci == ci && 0 < slabs[q].free < Total(ci)
  }

  /** If any slab of the class is half used, then p was. */
  predicate FillsUp(slabs: Slabs, ci: nat, p: nat)
    requires ci < NUM_CLASSES
  {
    forall q: nat | q in slabs :: HalfUsed(slabs, ci, q) ==> HalfUsed(slabs, ci, p)
  }

  predicate SmallestFor(ci: nat, bytes: nat)
    requires ci < NUM_CLASSES
  {
    bytes <= Size(ci) && forall j: nat | j < ci :: Size(j) < bytes
  }

  lemma ClassIs(ci: nat, bytes: nat)
    requires ci < NUM_CLASSES && SmallestFor(ci, bytes)
    ensures forall c: nat | c < NUM_CLASSES :: SmallestFor(c, bytes) <==> c == ci
  {
    forall c: nat | c < NUM_CLASSES && c != ci ensures !SmallestFor(c, bytes) {
      if c < ci {
        assert Size(c) < bytes;
      }
    }
  }

  lemma TooLarge(bytes: nat)
    requires bytes > 2048
    ensures forall c: nat | c < NUM_CLASSES :: !SmallestFor(c, bytes)
  {}

  lemma SlotArithmetic(p: nat, s: nat, size: nat)
    requires size > 0 && HEADER + s * size + size <= PAGE_SIZE
    ensures var a := p * PAGE_SIZE + HEADER + s * size;
      a / PAGE_SIZE == p && a % PAGE_SIZE == HEADER + s * size && (a % PAGE_SIZE - HEADER) / size == s
  {
    var a := p * PAGE_SIZE + HEADER + s * size;
    assert 0 <= HEADER + s * size < PAGE_SIZE;
    Quotient(s, size);
  }

  lemma Quotient(s: nat, size: nat)
    requires size > 0
    ensures s * size / size == s
  {
    var q := s * size / size;
    assert 0 <= s * size - q * size < size;
    if s > q {
      SlotsApart(size, q, s);
    } else if s < q {
      SlotsApart(size, s, q);
    }
  }

  lemma AtSlot(slabs: Slabs, cs: Chains, p: nat, s: nat)
    requires Live(slabs, cs, p, s)
    ensures var a := Address(slabs, p, s);
      a / PAGE_SIZE == p && a % PAGE_SIZE >= HEADER && SlotOf(slabs, a) == s && IsSmall(slabs, cs, a)
  {
    SlotInside(slabs[p].ci, s);
    SlotArithmetic(p, s, Size(slabs[p].ci));
  }

  /** Two blocks handed out share no byte, whatever their kinds and sizes. */
  lemma BlocksApart(slabs: Slabs, cs: Chains, large: Larges, a: nat, b: nat)
    requires LargesOk(slabs, large) && Handed(slabs, cs, large, a) && Handed(slabs, cs, large, b) && a < b
    ensures a + Length(slabs, large, a) <= b
  {
    var p, q := a / PAGE_SIZE, b / PAGE_SIZE;
    if IsLarge(large, a) {
      assert Covers(large, p, p);
      if IsLarge(large, b) {
        assert Covers(large, q, q);
      }
      assert !(p < q < p + large[p]) by {
        if Covers(large, p, q) {}
      }
    } else {
      SlotInside(slabs[p].ci, SlotOf(slabs, a));
      assert p !in large by { if Covers(large, p, p) {} }
      if p == q {
        Apart(slabs, cs, p, SlotOf(slabs, a), q, SlotOf(slabs, b));
      }
    }
  }

  lemma LargerKept(slabs: Slabs, large: Larges, first: nat, n: nat)
    requires LargesOk(slabs, large) && Unused(slabs, large, first, n) && n > 0
    ensures LargesOk(slabs, large[first := n])
  {
    var large' := large[first := n];
    assert first !in large by { assert Covers(large, first, first) ==> false; }
    forall p: nat, q: nat | Covers(large', p, q) ensures q !in slabs {
      if p != first { assert Covers(large, p, q); }
    }
    forall p: nat, q: nat, r: nat | Covers(large', p, r) && Covers(large', q, r) ensures p == q {
      assert p != first ==> Covers(large, p, r);
      assert q != first ==> Covers(large, q, r);
    }
  }

  lemma LargerIs(slabs: Slabs, cs: Chains, large: Larges, first: nat, n: nat)
    requires LargesOk(slabs, large) && Unused(slabs, large, first, n) && n > 0
    ensures var large', a := large[first := n], first * PAGE_SIZE + LARGE_HEADER;
      && Handed(slabs, cs, large', a) && !Handed(slabs, cs, large, a)
      && Length(slabs, large', a) == n * PAGE_SIZE - LARGE_HEADER
      && forall b: nat | b != a :: StaysAs(slabs, cs, large, slabs, cs, large', b)
  {
    assert first !in large by { assert Covers(large, first, first) ==> false; }
  }

  /** Only slot s of page p may have changed hands. */
  ghost predicate OnlySlot(slabs: Slabs, cs: Chains, slabs': Slabs, cs': Chains, p: nat, s: nat) {
    && OtherLive(slabs, cs, slabs', cs', p, s)
    && (forall q: nat | q in slabs && q in slabs' :: slabs[q].ci == slabs'[q].ci)
  }

  lemma SmallStays(slabs: Slabs, cs: Chains, slabs': Slabs, cs': Chains, p: nat, s: nat, b: nat)
    requires OnlySlot(slabs, cs, slabs', cs', p, s)
    requires IsSmall(slabs, cs, b) && (b / PAGE_SIZE, SlotOf(slabs, b)) != (p, s)
    ensures IsSmall(slabs', cs', b) && slabs'[b / PAGE_SIZE].ci == slabs[b / PAGE_SIZE].ci
  {
    hide Size, Total;
    assert Live(slabs', cs', b / PAGE_SIZE, SlotOf(slabs, b));
  }

  /** So every block but that slot's stays as it was. */
  lemma OthersStay(slabs: Slabs, cs: Chains, slabs': Slabs, cs': Chains, large: Larges, p: nat, s: nat, a: nat, b: nat)
    requires OnlySlot(slabs, cs, slabs', cs', p, s) && a != b
    requires forall at: Slabs | at == slabs || at == slabs' ::
      p in at && at[p].ci < NUM_CLASSES ==> a == Address(at, p, s)
    ensures StaysAs(slabs, cs, large, slabs', cs', large, b)
  {
    hide Live, Size, Total;
    if IsSmall(slabs, cs, b) { SmallStays(slabs, cs, slabs', cs', p, s, b); }
    if IsSmall(slabs', cs', b) { SmallStays(slabs', cs', slabs, cs, p, s, b); }
  }

  lemma SmallerKept(slabs: Slabs, slabs': Slabs, large: Larges, run: Option<nat>)
    requires LargesOk(slabs, large) && (run.Some? ==> Unused(slabs, large, run.value, 1))
    requires Within(if run.Some? then slabs' - {run.value} else slabs', slabs)
    ensures LargesOk(slabs', large)
  {
    forall p: nat, q: nat | Covers(large, p, q) ensures q !in slabs' {
      if run == Some(q) {
        assert false;
      }
    }
  }

  lemma RunApart(slabs: Slabs, large: Larges, run: Option<nat>)
    requires run.Some? ==> Unused(slabs, large, run.value, 1)
    ensures run.Some? ==> run.value !in slabs
  {}

  lemma NoneFills(slabs: Slabs, ci: nat, p: nat)
    requires ci < NUM_CLASSES && NoneFree(slabs, ci)
    ensures FillsUp(slabs, ci, p)
  {}

  lemma SameStays(slabs: Slabs, cs: Chains, large: Larges)
    ensures forall b: nat :: StaysAs(slabs, cs, large, slabs, cs, large, b)
  {}

  /** A slot taken, seen as a block. */
  lemma SmallHanded(slabs: Slabs, cs: Chains, slabs': Slabs, cs': Chains, large: Larges, run: Option<nat>, p: nat,
                    s: nat)
    requires Live(slabs', cs', p, s) && !Live(slabs, cs, p, s) && OtherLive(slabs, cs, slabs', cs', p, s)
    requires run.Some? ==> run.value !in slabs
    requires Same(slabs, if run.Some? then slabs' - {run.value} else slabs') && LargesOk(slabs', large)
    ensures p in slabs' && slabs'[p].ci < NUM_CLASSES
    ensures var a := Address(slabs', p, s);
      && a != 0 && a / PAGE_SIZE == p && Length(slabs', large, a) == Size(slabs'[p].ci)
      && Handed(slabs', cs', large, a) && !Handed(slabs, cs, large, a)
      && forall b: nat | b != a :: StaysAs(slabs, cs, large, slabs', cs', large, b)
  {
    hide Total, Size;
    AtSlot(slabs', cs', p, s);
    var a := Address(slabs', p, s);
    assert p !in large by { if Covers(large, p, p) {} }
    forall b: nat | b != a ensures StaysAs(slabs, cs, large, slabs', cs', large, b) {
      OthersStay(slabs, cs, slabs', cs', large, p, s, a, b);
    }
  }

  /** A large block taken back. */
  lemma LargeGone(slabs: Slabs, cs: Chains, large: Larges, a: nat)
    requires LargesOk(slabs, large) && Handed(slabs, cs, large, a) && a / PAGE_SIZE in large
    ensures var large' := large - {a / PAGE_SIZE};
      && LargesOk(slabs, large') && !Handed(slabs, cs, large', a)
      && forall b: nat | b != a :: StaysAs(slabs, cs, large, slabs, cs, large', b)
  {
    var p, large' := a / PAGE_SIZE, large - {a / PAGE_SIZE};
    assert Covers(large, p, p);
    forall r: nat, q: nat ensures Covers(large', r, q) <==> Covers(large, r, q) && r != p {}
    forall b: nat | b != a ensures StaysAs(slabs, cs, large, slabs, cs, large', b) {
      assert b / PAGE_SIZE == p ==> !IsSmall(slabs, cs, b) && !IsLarge(large, b);
    }
  }

  class Heap {
    var slabs: Slabs
    var mem: Words
    var partial: seq<seq<nat>>
    var empty: seq<Option<nat>>
    var large: Larges
    ghost var cs: Chains

    ghost predicate SlabsValid()
      reads `slabs, `mem, `partial, `empty, `cs
    {
      SlabsOk(slabs, mem, cs) && ClassesOk(slabs, partial, empty)
    }

    ghost predicate Valid()
      reads this
    {
      SlabsValid() && LargesOk(slabs, large) && OneSpare(slabs, empty, None)
    }

    /** kalloc_init */
    constructor ()
      ensures Valid() && forall a: nat :: !Handed(slabs, cs, large, a)
    {
      slabs, mem, cs, large := map[], map[], map[], map[];
      partial := seq(NUM_CLASSES, _ => []);
      empty := seq(NUM_CLASSES, _ => None);
    }

    method AddPage(p: nat, ci: nat)
      requires SlabsValid() && ci < NUM_CLASSES && p !in slabs
      modifies `slabs, `mem, `partial, `empty, `cs
      ensures SlabsValid() && p in partial[ci] && p in slabs && slabs[p].ci == ci && Same(old(slabs), slabs - {p})
      ensures SameLive(old(slabs), old(cs), slabs, cs)
      ensures slabs.Keys == old(slabs.Keys) + {p} && (forall q | q in old(slabs) :: slabs[q] == old(slabs)[q])
      ensures empty == old(empty)
    {
      hide SlabsOk, ClassesOk, IsChain;
      NewClass(slabs, partial, empty, p, ci);
      var mem' := InitPage(mem, p, Total(ci));
      NewSlab(slabs, mem, mem', cs, p, ci);
      SizeOfLists(slabs, partial, empty);
      forall q: nat, s: nat
        ensures Live(slabs[p := Header(ci, Some(0), Total(ci))], cs[p := UpTo(0, Total(ci))], q, s)
          <==> Live(slabs, cs, q, s)
      {
        NewLive(slabs, cs, p, ci, q, s);
      }
      slabs, mem, cs := slabs[p := Header(ci, Some(0), Total(ci))], mem', cs[p := UpTo(0, Total(ci))];
      partial := partial[ci := [p] + partial[ci]];
    }

    /** The part of kmalloc that finds a slab with a free slot: the first partial one, the cached empty one, or a new
        page if the page allocator has one. */
    method FindSlab(ci: nat, page: Option<nat>) returns (ok: bool, p: nat)
      requires SlabsValid() && ci < NUM_CLASSES && (page.Some? ==> page.value !in slabs) && OneSpare(slabs, empty, None)
      modifies `slabs, `mem, `partial, `empty, `cs
      ensures SlabsValid() && |partial| == NUM_CLASSES && (!ok ==> slabs == old(slabs) && cs == old(cs))
      ensures OneSpare(slabs, empty, if ok then Some(p) else None)
      ensures FillsUp(old(slabs), ci, p)
      ensures slabs.Keys == if ok && NoneFree(old(slabs), ci) then old(slabs.Keys) + {p} else old(slabs.Keys)
      ensures NoneFree(old(slabs), ci) && ok ==> page == Some(p)
      ensures ok <==> page.Some? || !NoneFree(old(slabs), ci)
      ensures ok ==> p in partial[ci] && p in slabs && slabs[p].ci == ci
      ensures Same(old(slabs), if page.Some? then slabs - {page.value} else slabs)
      ensures SameLive(old(slabs), old(cs), slabs, cs)
    {
      p := 0;
      SizeOfLists(slabs, partial, empty);
      FreeAtMost(slabs, mem, cs, ci);
      HalfUsedIs(slabs, partial, empty, ci);
      hide SlabsOk, ClassesOk, FillsUp, HalfUsed, OneSpare, NoneFree, Live, Total;
      if partial[ci] != [] {
        p := partial[ci][0];
        FirstPartial(slabs, partial, empty, ci);
        return true, p;
      }
      if empty[ci].Some? {
        p := empty[ci].value;
        UncacheKept(slabs, partial, empty, ci);
        SpareUncached(slabs, empty, ci);
        empty := empty[ci := None];
        partial := partial[ci := [p] + partial[ci]];
        return true, p;
      }
      NoSlot(slabs, partial, empty, ci);
      if page.None? {
        return false, p;
      }
      p := page.value;
      AddPage(p, ci);
      SpareNew(old(slabs), slabs, empty, p);
      SizeOfLists(slabs, partial, empty);
      return true, p;
    }

    /** The part of kmalloc for the size classes. */
    method AllocSlot(ci: nat, page: Option<nat>) returns (ok: bool, p: nat, s: nat)
      requires SlabsValid() && ci < NUM_CLASSES && (page.Some? ==> page.value !in slabs) && OneSpare(slabs, empty, None)
      modifies `slabs, `mem, `partial, `empty, `cs
      ensures OneSpare(slabs, empty, None)
      ensures FillsUp(old(slabs), ci, p)
      ensures slabs.Keys == if ok && NoneFree(old(slabs), ci) then old(slabs.Keys) + {p} else old(slabs.Keys)
      ensures NoneFree(old(slabs), ci) && ok ==> page == Some(p)
      ensures SlabsValid() && (ok <==> page.Some? || !NoneFree(old(slabs), ci))
        && (!ok ==> slabs == old(slabs) && cs == old(cs))
      ensures Same(old(slabs), if page.Some? then slabs - {page.value} else slabs)
      ensures ok ==> Live(slabs, cs, p, s) && !old(Live(slabs, cs, p, s)) && slabs[p].ci == ci
      ensures if ok then OtherLive(old(slabs), old(cs), slabs, cs, p, s) else SameLive(old(slabs), old(cs), slabs, cs)
    {
      hide SlabsOk, ClassesOk, Total, Size, FillsUp, NoneFree, OneSpare;
      ok, p := FindSlab(ci, page);
      s := 0;
      if ok {
        s := TakeFirst(p);
      }
    }

    /** The part of kmalloc that takes the first free slot of a partial slab. */
    method TakeFirst(p: nat) returns (obj: nat)
      requires SlabsValid() && |partial| == NUM_CLASSES && p in slabs && slabs[p].ci < NUM_CLASSES
        && p in partial[slabs[p].ci] && OneSpare(slabs, empty, Some(p))
      modifies `slabs, `mem, `partial, `empty, `cs
      ensures SlabsValid() && Same(old(slabs), slabs)
      ensures OneSpare(slabs, empty, None) && slabs.Keys == old(slabs.Keys)
      ensures Live(slabs, cs, p, obj) && !old(Live(slabs, cs, p, obj))
      ensures OtherLive(old(slabs), old(cs), slabs, cs, p, obj)
    {
      hide SlabsOk, ClassesOk, Without, Live, OtherLive, OneSpare, Total;
      TakeKept(slabs, mem, cs, partial, empty, p);
      SlotOfChain(slabs, mem, cs, p);
      LiveTaken(slabs, cs, p, Taken(slabs[p], mem[(p, slabs[p].head.value)]));
      SizeOfLists(slabs, partial, empty);
      obj := slabs[p].head.value;
      var h := Taken(slabs[p], mem[(p, obj)]);
      SpareTaken(slabs, slabs[p := h], empty, p);
      slabs := slabs[p := h];
      cs := cs[p := cs[p][1..]];
      if h.free == 0 {
        partial := partial[h.ci := Without(partial[h.ci], p)];
      } else {
        assert partial[h.ci := partial[h.ci]] == partial;
      }
    }

    /** The part of kfree that puts slot s back on its page's list; the page goes back to the page allocator only if
        nothing in it is handed out any more. */
    method FreeSlot(p: nat, s: nat)
      requires SlabsValid() && Live(slabs, cs, p, s) && OneSpare(slabs, empty, None)
      modifies `slabs, `mem, `partial, `empty, `cs
      ensures SlabsValid() && !Live(slabs, cs, p, s) && Within(slabs, old(slabs))
      ensures OneSpare(slabs, empty, None)
      ensures slabs.Keys == old(slabs.Keys) - (if old(LastOfMany(slabs, cs, p, s)) then {p} else {})
      ensures OtherLive(old(slabs), old(cs), slabs, cs, p, s)
    {
      hide SlabsOk, ClassesOk, Without, Total, OtherLive, SameLive, Live, LastOfMany, OneSpare;
      LastOfManyIs(slabs, mem, cs, partial, empty, p, s);
      GiveKept(slabs, mem, cs, partial, empty, p, s);
      SpareGiven(slabs, empty, p, s);
      var ci := slabs[p].ci;
      var h := Given(slabs[p], s);
      mem := mem[(p, s) := slabs[p].head];
      slabs := slabs[p := h];
      cs := cs[p := [s] + cs[p]];
      if h.free == 1 {
        partial := partial[ci := [p] + partial[ci]];
      } else if h.free == Total(ci) {
        if empty[ci] == None {
          partial := partial[ci := Without(partial[ci], p)];
          empty := empty[ci := Some(p)];
        } else {
          ghost var mid, midCs := slabs, cs;
          Return(p);
          LiveThen(old(slabs), old(cs), mid, midCs, slabs, cs, p, s);
        }
      }
    }

    /** A wholly free slab's page goes back to the page allocator. */
    method Return(p: nat)
      requires SlabsValid() && |partial| == |empty| == NUM_CLASSES && p in slabs && slabs[p].ci < NUM_CLASSES
      requires slabs[p].free == Total(slabs[p].ci) && empty[slabs[p].ci] != Some(p)
      modifies `slabs, `mem, `partial, `empty, `cs
      ensures SlabsValid() && Within(slabs, old(slabs))
      ensures SameLive(old(slabs), old(cs), slabs, cs)
      ensures slabs == old(slabs) - {p} && empty == old(empty)
    {
      NothingLive(slabs, mem, cs, p);
      DropClass(slabs, partial, empty, p);
      DropSlab(slabs, mem, cs, p);
      hide SlabsOk, ClassesOk, Without, Total;
      partial := partial[slabs[p].ci := Without(partial[slabs[p].ci], p)];
      slabs := slabs - {p};
      cs := cs - {p};
    }

    /** kmalloc, with the pages the page allocator would give: NULL exactly if nothing was asked for or no memory could
        be had; otherwise a block of at least the size asked for (but see LargeEnough) that was not handed out, and
        now is. Every other block stays as it was. */
    method Kmalloc(bytes: nat, run: Option<nat>) returns (a: nat)
      requires Valid() && bytes < TWO64 && (run.Some? ==> Unused(slabs, large, run.value, Wanted(bytes)))
      modifies this
      ensures Valid() && (a == 0 <==> bytes == 0 || NoMemory(old(slabs), bytes, run))
      ensures slabs.Keys ==
        if run.Some? && NeedsPage(old(slabs), bytes) then old(slabs.Keys) + {run.value} else old(slabs.Keys)
      ensures forall ci: nat | ci < NUM_CLASSES && bytes > 0 && SmallestFor(ci, bytes) ::
        FillsUp(old(slabs), ci, a / PAGE_SIZE)
      ensures a != 0 ==> Handed(slabs, cs, large, a) && !old(Handed(slabs, cs, large, a))
      ensures a != 0 && bytes <= TWO64 - LARGE_HEADER ==> bytes <= Length(slabs, large, a)
      ensures forall b: nat | b != a :: StaysAs(old(slabs), old(cs), old(large), slabs, cs, large, b)
    {
      if bytes == 0 {
        return 0;
      }
      var ci := ClassFor(bytes);
      if ci == NUM_CLASSES {
        TooLarge(bytes);
        hide Valid, StaysAs, Handed, LargePages, Unused, SmallestFor, NoneFree, Size;
        a := AllocLarge(bytes, run);
      } else {
        assert SmallestFor(ci, bytes);
        ClassIs(ci, bytes);
        hide Valid, StaysAs, Handed, LargePages, Unused, SmallestFor, FillsUp, NoneFree;
        a := AllocSmall(ci, bytes, run);
      }
    }

    method AllocLarge(bytes: nat, run: Option<nat>) returns (a: nat)
      requires Valid() && 2048 < bytes < TWO64 && (run.Some? ==> Unused(slabs, large, run.value, LargePages(bytes)))
      modifies `large
      ensures Valid() && (a == 0 <==> LargePages(bytes) == 0 || run == None)
      ensures a != 0 ==> Handed(slabs, cs, large, a) && !old(Handed(slabs, cs, large, a))
      ensures a != 0 && bytes <= TWO64 - LARGE_HEADER ==> bytes <= Length(slabs, large, a)
      ensures forall b: nat | b != a :: StaysAs(slabs, cs, old(large), slabs, cs, large, b)
    {
      hide SlabsOk, ClassesOk;
      var pages := LargePages(bytes);
      if pages == 0 || run == None {
        return 0;
      }
      LargeEnough(bytes);
      hide LargePages;
      LargerKept(slabs, large, run.value, pages);
      LargerIs(slabs, cs, large, run.value, pages);
      large := large[run.value := pages];
      a := run.value * PAGE_SIZE + LARGE_HEADER;
    }

    method AllocSmall(ci: nat, bytes: nat, run: Option<nat>) returns (a: nat)
      requires Valid() && ci < NUM_CLASSES && 0 < bytes <= Size(ci)
        && (run.Some? ==> Unused(slabs, large, run.value, 1))
      modifies this
      ensures Valid() && (a == 0 <==> run == None && NoneFree(old(slabs), ci))
      ensures a != 0 && NoneFree(old(slabs), ci) ==> run.Some? && slabs.Keys == old(slabs.Keys) + {run.value}
      ensures a == 0 || !NoneFree(old(slabs), ci) ==> slabs.Keys == old(slabs.Keys)
      ensures FillsUp(old(slabs), ci, a / PAGE_SIZE)
      ensures a != 0 ==>
        Handed(slabs, cs, large, a) && !old(Handed(slabs, cs, large, a))
        && bytes <= Length(slabs, large, a)
      ensures forall b: nat | b != a :: StaysAs(old(slabs), old(cs), old(large), slabs, cs, large, b)
    {
      hide SlabsOk, ClassesOk, Total, Size, NoneFree, FillsUp, OneSpare, Live, OtherLive, SameLive, LargesOk, Unused;
      hide StaysAs, Handed, Address;
      RunApart(slabs, large, run);
      var ok, p, s := AllocSlot(ci, run);
      SmallerKept(old(slabs), slabs, large, run);
      if !ok {
        SameStays(slabs, cs, large);
        NoneFills(slabs, ci, 0);
        return 0;
      }
      SmallHanded(old(slabs), old(cs), slabs, cs, large, run, p, s);
      a := Address(slabs, p, s);
    }

    /** kfree of a block that is handed out, told what it is by the header of its page: it no longer is, and every
        other block stays as it was. */
    method Kfree(a: nat)
      requires Valid() && (a == 0 || Handed(slabs, cs, large, a))
      modifies this
      ensures Valid() && !Handed(slabs, cs, large, a)
      ensures slabs.Keys ==
        if old(LastBlock(slabs, cs, large, a)) then old(slabs.Keys) - {a / PAGE_SIZE} else old(slabs.Keys)
      ensures forall b: nat | b != a :: StaysAs(old(slabs), old(cs), old(large), slabs, cs, large, b)
    {
      hide SlabsOk, ClassesOk, Total, Size;
      var p := a / PAGE_SIZE;
      if a == 0 {
        return;
      } else if p in large {
        LargeGone(slabs, cs, large, a);
        large := large - {p};
      } else {
        var s := SlotOf(slabs, a);
        FreeSlot(p, s);
        SmallerKept(old(slabs), slabs, large, None);
        forall b: nat | b != a ensures StaysAs(old(slabs), old(cs), large, slabs, cs, large, b) {
          OthersStay(old(slabs), old(cs), slabs, cs, large, p, s, a, b);
        }
      }
    }
  }

  /** The three ways kfree leaves the slabs, where OneSpare is concerned. */
  lemma SpareGiven(slabs: Slabs, empty: seq<Option<nat>>, p: nat, s: nat)
    requires OneSpare(slabs, empty, None) && p in slabs && slabs[p].ci < NUM_CLASSES
    ensures var slabs', ci := slabs[p := Given(slabs[p], s)], slabs[p].ci;
      && |empty| == NUM_CLASSES
      && (slabs'[p].free != Total(ci) || Total(ci) == 1 ==> OneSpare(slabs', empty, None))
      && (empty[ci] == None ==> OneSpare(slabs', empty[ci := Some(p)], None))
      && OneSpare(slabs' - {p}, empty, None)
  {
    var slabs', ci := slabs[p := Given(slabs[p], s)], slabs[p].ci;
    forall q: nat | q != p && WhollyFree(slabs', q) ensures empty[slabs'[q].ci] == Some(q) {
      assert WhollyFree(slabs, q);
    }
    forall q: nat | WhollyFree(slabs' - {p}, q) ensures WhollyFree(slabs', q) && q != p {}
  }

  /** The slabs on the partial list are the ones in use that have a free slot, in every class of several objects. */
  lemma HalfUsedIs(slabs: Slabs, partial: seq<seq<nat>>, empty: seq<Option<nat>>, ci: nat)
    requires ClassesOk(slabs, partial, empty) && OneSpare(slabs, empty, None) && ci < NUM_CLASSES
    requires forall p: nat | p in slabs && slabs[p].ci == ci :: slabs[p].free <= Total(ci)
    ensures forall p: nat :: HalfUsed(slabs, ci, p) ==> p in partial[ci]
    ensures Total(ci) > 1 ==> forall p: nat :: p in partial[ci] ==> HalfUsed(slabs, ci, p)
    ensures if partial[ci] != [] then FillsUp(slabs, ci, partial[ci][0]) else forall p: nat :: FillsUp(slabs, ci, p)
  {
    assert ClassOk(slabs, partial[ci], empty[ci], ci);
    forall p: nat | p in partial[ci] && Total(ci) > 1 ensures HalfUsed(slabs, ci, p) {
      assert OnPartial(slabs, empty[ci], ci, p);
      assert !WhollyFree(slabs, p);
    }
  }

  lemma FreeAtMost(slabs: Slabs, mem: Words, cs: Chains, ci: nat)
    requires SlabsOk(slabs, mem, cs) && ci < NUM_CLASSES
    ensures forall p: nat | p in slabs && slabs[p].ci == ci :: slabs[p].free <= Total(ci)
  {
    forall p: nat | p in slabs && slabs[p].ci == ci ensures slabs[p].free <= Total(ci) {
      assert SlabOk(slabs, mem, cs, p);
      SetSize(cs[p]);
      Inside(SetOf(cs[p]), Total(ci));
    }
  }

  lemma SpareTaken(slabs: Slabs, slabs': Slabs, empty: seq<Option<nat>>, p: nat)
    requires OneSpare(slabs, empty, Some(p)) && p in slabs && slabs'.Keys == slabs.Keys && slabs[p].ci == slabs'[p].ci
    requires slabs[p].ci < NUM_CLASSES && slabs'[p].free < Total(slabs[p].ci)
    requires forall q | q in slabs && q != p :: slabs'[q] == slabs[q]
    ensures OneSpare(slabs', empty, None)
  {
    forall q: nat | WhollyFree(slabs', q) ensures q != p && WhollyFree(slabs, q) {}
  }

  lemma SpareUncached(slabs: Slabs, empty: seq<Option<nat>>, ci: nat)
    requires OneSpare(slabs, empty, None) && ci < NUM_CLASSES && empty[ci].Some?
    ensures OneSpare(slabs, empty[ci := None], empty[ci])
  {}

  lemma SpareNew(slabs: Slabs, slabs': Slabs, empty: seq<Option<nat>>, p: nat)
    requires OneSpare(slabs, empty, None) && p !in slabs && slabs'.Keys == slabs.Keys + {p}
    requires forall q | q in slabs :: slabs'[q] == slabs[q]
    ensures OneSpare(slabs', empty, Some(p))
  {
    forall q: nat | WhollyFree(slabs', q) && q != p ensures WhollyFree(slabs, q) {}
  }

  lemma SizeOfLists(slabs: Slabs, partial: seq<seq<nat>>, empty: seq<Option<nat>>)
    requires ClassesOk(slabs, partial, empty)
    ensures |partial| == |empty| == NUM_CLASSES
  {}

  lemma FirstPartial(slabs: Slabs, partial: seq<seq<nat>>, empty: seq<Option<nat>>, ci: nat)
    requires ClassesOk(slabs, partial, empty) && ci < NUM_CLASSES && partial[ci] != []
    ensures partial[ci][0] in slabs && slabs[partial[ci][0]].ci == ci && !NoneFree(slabs, ci)
  {
    assert ClassOk(slabs, partial[ci], empty[ci], ci);
    assert partial[ci][0] in partial[ci];
  }

  lemma NoSlot(slabs: Slabs, partial: seq<seq<nat>>, empty: seq<Option<nat>>, ci: nat)
    requires ClassesOk(slabs, partial, empty) && ci < NUM_CLASSES && partial[ci] == [] && empty[ci] == None
    ensures NoneFree(slabs, ci)
  {
    assert ClassOk(slabs, partial[ci], empty[ci], ci);
    forall p: nat | p in slabs && slabs[p].ci == ci ensures slabs[p].free == 0 {
      assert p !in partial[ci];
    }
  }

  lemma SlotOfChain(slabs: Slabs, mem: Words, cs: Chains, p: nat)
    requires SlabsOk(slabs, mem, cs) && p in slabs && p in cs && |cs[p]| > 0
    ensures cs[p][0] < Total(slabs[p].ci) && cs[p][0] !in cs[p][1..] && forall s | s in cs[p] ::
      s == cs[p][0]
      || s in cs[p][1..]
    ensures slabs[p].free <= Total(slabs[p].ci)
  {
    assert SlabOk(slabs, mem, cs, p);
    SetSize(cs[p]);
    Inside(SetOf(cs[p]), Total(slabs[p].ci));
    assert cs[p][0] in cs[p];
    assert cs[p] == [cs[p][0]] + cs[p][1..];
  }

  lemma LiveTaken(slabs: Slabs, cs: Chains, p: nat, h: Header)
    requires p in slabs && p in cs && |cs[p]| > 0 && h.ci == slabs[p].ci < NUM_CLASSES
    requires cs[p][0] < Total(slabs[p].ci) && cs[p][0] !in cs[p][1..]
    requires forall s | s in cs[p] :: s == cs[p][0] || s in cs[p][1..]
    ensures var slabs', cs' := slabs[p := h], cs[p := cs[p][1..]];
      && Live(slabs', cs', p, cs[p][0]) && !Live(slabs, cs, p, cs[p][0])
      && OtherLive(slabs, cs, slabs', cs', p, cs[p][0])
  {
    hide Total;
  }

  lemma LiveAfter(slabs: Slabs, cs: Chains, p: nat, s: nat, h: Header)
    requires Live(slabs, cs, p, s) && h.ci == slabs[p].ci
    ensures var slabs', cs' := slabs[p := h], cs[p := [s] + cs[p]];
      !Live(slabs', cs', p, s) && OtherLive(slabs, cs, slabs', cs', p, s)
  {}

  /** Everything there is to say about a slot put back on its page's list. */
  lemma GiveKept(slabs: Slabs, mem: Words, cs: Chains, partial: seq<seq<nat>>, empty: seq<Option<nat>>, p: nat, s: nat)
    requires SlabsOk(slabs, mem, cs) && ClassesOk(slabs, partial, empty) && Live(slabs, cs, p, s)
    ensures p in slabs && p in cs && slabs[p].ci < NUM_CLASSES == |partial| == |empty| && empty[slabs[p].ci] != Some(p)
    ensures var h, ci := Given(slabs[p], s), slabs[p].ci; var slabs', cs' := slabs[p := h], cs[p := [s] + cs[p]];
      && SlabsOk(slabs', mem[(p, s) := slabs[p].head], cs')
      && (h.free == 1 ==> ClassesOk(slabs', partial[ci := [p] + partial[ci]], empty))
      && (h.free > 1 ==> ClassesOk(slabs', partial, empty))
      && (h.free == Total(ci) > 1 && empty[ci] == None ==>
            ClassesOk(slabs', partial[ci := Without(partial[ci], p)], empty[ci := Some(p)]))
      && !Live(slabs', cs', p, s) && OtherLive(slabs, cs, slabs', cs', p, s)
  {
    NotCached(slabs, mem, cs, partial, empty, p, s);
    GiveSlabs(slabs, mem, cs, p, s);
    SizeOfLists(slabs, partial, empty);
    LiveAfter(slabs, cs, p, s, Given(slabs[p], s));
    hide SlabsOk, ClassesOk, Without, Total, OtherLive;
    GiveClass(slabs, partial, empty, p, s);
  }

  lemma LiveThen(slabs: Slabs, cs: Chains, mid: Slabs, midCs: Chains, slabs': Slabs, cs': Chains, p: nat, s: nat)
    requires OtherLive(slabs, cs, mid, midCs, p, s) && SameLive(mid, midCs, slabs', cs')
    ensures OtherLive(slabs, cs, slabs', cs', p, s) && (Live(slabs', cs', p, s) <==> Live(mid, midCs, p, s))
  {
    hide Live;
  }

  lemma NothingLive(slabs: Slabs, mem: Words, cs: Chains, p: nat)
    requires SlabsOk(slabs, mem, cs) && p in slabs && slabs[p].ci < NUM_CLASSES && slabs[p].free == Total(slabs[p].ci)
    ensures forall t: nat :: !Live(slabs, cs, p, t)
  {
    assert SlabOk(slabs, mem, cs, p);
    forall t: nat ensures !Live(slabs, cs, p, t) {
      if Live(slabs, cs, p, t) {
        Fewer(cs[p], Total(slabs[p].ci), t);
      }
    }
  }
}
