/** The memory operations as the kernel performs them: loops over pages that change page table entries, reference
    counts and the set of allocated frames in place, with failures half way. */
module CowMemory {
  import opened CowSpec
  import opened CowRuns

  const PAGE_SIZE: nat := 4096

  function Zero(): Bytes { seq(PAGE_SIZE, i => 0) }

  /** Pages [0, n) of the parent copied to the child at once. */
  ghost function Forked(a: map<Slot, View>, parent: nat, child: nat, n: nat): map<Slot, View> {
    if n == 0 then a
    else
      var b := Forked(a, parent, child, n - 1);
      if InSpace(parent, n - 1) in a then b[InSpace(child, n - 1) := a[InSpace(parent, n - 1)]] else b
  }

  /** Which is: the child reads what the parent reads, and nobody else sees a difference. */
  lemma {:induction false} ForkedAt(a: map<Slot, View>, parent: nat, child: nat, n: nat, s: Slot)
    requires parent != child && forall p: nat :: InSpace(child, p) !in a
    ensures var b := Forked(a, parent, child, n);
      if s.InSpace? && s.space == child then
        (s in b <==> s.page < n && InSpace(parent, s.page) in a) && (s in b ==> b[s] == a[InSpace(parent, s.page)])
      else (s in b <==> s in a) && (s in b ==> b[s] == a[s])
  {
    if n > 0 {
      ForkedAt(a, parent, child, n - 1, s);
    }
  }

  /** A run of slots: the pages of a space, of a message or of a shared memory object. */
  datatype Area = Space(space: nat) | Message(msg: nat) | Object(id: nat)

  function At(area: Area, i: nat): Slot {
    match area
    case Space(n) => InSpace(n, i)
    case Message(n) => InMessage(n, i)
    case Object(n) => InObject(n, i)
  }

  predicate Within(area: Area, lo: nat, hi: nat, s: Slot) {
    match s
    case InSpace(n, i) => area == Space(n) && lo <= i < hi
    case InMessage(n, i) => area == Message(n) && lo <= i < hi
    case InObject(n, i) => area == Object(n) && lo <= i < hi
    case Lost(_) => false
  }

  /** Without the slots [lo, hi) of an area. */
  ghost function Cleared(a: map<Slot, View>, area: Area, lo: nat, hi: nat): map<Slot, View>
    requires lo <= hi
    decreases hi - lo
  {
    if lo == hi then a else Cleared(a, area, lo, hi - 1) - {At(area, hi - 1)}
  }

  lemma {:induction false} ClearedAt(a: map<Slot, View>, area: Area, lo: nat, hi: nat, s: Slot)
    requires lo <= hi
    ensures s in Cleared(a, area, lo, hi) <==> s in a && !Within(area, lo, hi, s)
    ensures s in Cleared(a, area, lo, hi) ==> Cleared(a, area, lo, hi)[s] == a[s]
    decreases hi - lo
  {
    if lo < hi {
      ClearedAt(a, area, lo, hi - 1, s);
    }
  }

  /** The slots [lo, hi) of an area dropped one by one. */
  ghost function DropRange(w: World, area: Area, lo: nat, hi: nat): World
    requires lo <= hi
    decreases hi - lo
  {
    if lo == hi then w
    else
      var before := DropRange(w, area, lo, hi - 1);
      var s := At(area, hi - 1);
      if s in before.slots && (before.slots[s].kind != Device ==> before.slots[s].frame < |before.refs|)
      then Drop(before, s) else before
  }

  lemma DropRangeStep(w: World, area: Area, lo: nat, i: nat)
    requires lo <= i && Inv(DropRange(w, area, lo, i)) && At(area, i) in DropRange(w, area, lo, i).slots
    ensures DropRange(w, area, lo, i + 1) == Drop(DropRange(w, area, lo, i), At(area, i))
  {}

  lemma {:induction false} DropRangeKept(w: World, area: Area, lo: nat, hi: nat)
    requires Inv(w)
    requires lo <= hi
    ensures Inv(DropRange(w, area, lo, hi)) && |DropRange(w, area, lo, hi).refs| == |w.refs|
    ensures Views(DropRange(w, area, lo, hi)) == Cleared(Views(w), area, lo, hi)
    decreases hi - lo
  {
    hide FrameInv;
    if lo < hi {
      DropRangeKept(w, area, lo, hi - 1);
      var before := DropRange(w, area, lo, hi - 1);
      if At(area, hi - 1) in before.slots {
        DropKept(before, At(area, hi - 1));
      }
    }
  }

  /** The frames [start, start + n). */
  ghost function Run(start: Frame, n: nat): set<Frame> {
    if n == 0 then {} else Run(start, n - 1) + {start + n - 1}
  }

  class Memory {
    var slots: map<Slot, Entry>
    var ready: bool
    const refs: array<nat>
    var live: set<Frame>
    var mem: seq<Bytes>
    var device: map<Frame, Bytes>

    ghost function W(): World
      reads this, refs
    {
      World(slots, ready, refs[..], live, mem, device)
    }

    ghost predicate Valid()
      reads this, refs
    {
      Inv(W())
    }

    /** cow_init, with memory for the table or without. */
    method CowInit(memory: bool)
      requires Zeroed(W())
      modifies this`ready
      ensures W() == old(W()).(ready := old(ready) || memory)
    {
      if !ready && memory {
        ready := true;
      }
    }

    /** cow_ref_page: nothing, if there is no table and no memory for one. */
    method RefPage(f: Frame, memory: bool)
      requires Zeroed(W())
      modifies this`ready, refs
      ensures W().(refs := refs[..]) == old(W()).(ready := old(ready) || memory, refs := refs[..])
      ensures refs[..] == if ready && f < refs.Length then old(refs[..])[f := old(refs[..])[f] + 1] else old(refs[..])
    {
      CowInit(memory);
      if ready && f < refs.Length {
        refs[f] := refs[f] + 1;
      }
    }

    /** cow_get_refcount */
    method RefCount(f: Frame) returns (n: nat)
      ensures n == if ready && f < refs.Length then refs[f] else 0
    {
      n := if ready && f < refs.Length then refs[f] else 0;
    }

    /** cow_unref_page: the count that is left. */
    method UnrefPage(f: Frame) returns (left: nat)
      requires Zeroed(W())
      modifies refs
      ensures f < refs.Length ==>
        W() == old(W()).(refs := Unref(old(refs[..]), f))
        && left == Unref(old(refs[..]), f)[f]
      ensures f >= refs.Length ==> W() == old(W()) && left == 0
    {
      left := 0;
      if ready && f < refs.Length && refs[f] > 0 {
        refs[f] := refs[f] - 1;
        left := refs[f];
      }
    }

    /** pmm_alloc_pages(1) */
    method AllocPage() returns (ok: bool, f: Frame)
      modifies this`live
      ensures ok ==> old(Free(W(), f)) && live == old(live) + {f}
      ensures !ok ==> live == old(live) && forall g: nat | g < refs.Length :: g in live
    {
      f := 0;
      while f < refs.Length && f in live
        invariant f <= refs.Length && forall g: nat | g < f :: g in live
        invariant live == old(live)
      {
        f := f + 1;
      }
      ok := f < refs.Length;
      if ok {
        live := live + {f};
      }
    }

    /** pmm_free_pages */
    method FreePages(start: Frame, n: nat)
      modifies this`live
      ensures live == old(live) - Run(start, n)
    {
      for i := 0 to n
        invariant live == old(live) - Run(start, i)
      {
        live := live - {start + i};
      }
    }

    /** One present page of paging_clone_walk; table says whether the child's table could be had, memory whether
        the table of reference counts could be, should it be missing. */
    method CloneOne(s: Slot, t: Slot, table: bool, memory: bool) returns (ok: bool, ghost spare: Frame)
      requires Shape(W()) && Zeroed(W()) && s in slots && s.InSpace? && t !in slots && t.InSpace?
      modifies this, refs
      ensures ok ==> Enabled(Asked(old(W()), s, memory), CowRuns.Clone(s, t, spare))
      ensures ok ==> Shape(Asked(old(W()), s, memory)) && W() == ClonePage(Asked(old(W()), s, memory), s, t, spare)
      ensures !ok ==> W() == old(W())
      ensures !ok <==>
        !table
        || (old(slots[s].kind) == Private(false) && forall f: nat | f < refs.Length :: f in old(live))
    {
      spare := 0;
      if !table {
        return false, 0;
      }
      var e := slots[s];
      if e.kind == Device {
        slots := slots[t := e];
      } else if e.kind == Shared || e.kind == Cow {
        JoinOne(s, t, memory);
      } else if e.kind != Private(false) {
        DemoteOne(s, memory);
        JoinOne(s, t, memory);
      } else {
        ok, spare := CopyOne(s, t);
        return ok, spare;
      }
      return true, spare;
    }

    /** A page that nobody writes gets a copy. */
    method CopyOne(s: Slot, t: Slot) returns (ok: bool, ghost spare: Frame)
      requires Shape(W()) && s in slots && slots[s].kind == Private(false) && t !in slots
      modifies this`slots, this`live, this`mem
      ensures ok ==> Free(old(W()), spare)
      ensures ok ==> W() == NewSole(old(W()), t, spare, Private(false), old(mem)[old(slots)[s].frame])
      ensures !ok ==> W() == old(W())
      ensures !ok <==> forall f: nat | f < refs.Length :: f in old(live)
    {
      var got, f := AllocPage();
      if got {
        mem := mem[f := mem[slots[s].frame]];
        slots := slots[t := Entry(f, Private(false))];
      }
      return got, f;
    }

    /** One more counted holder of the frame in slot s, with an entry of the same kind. */
    method JoinOne(s: Slot, t: Slot, memory: bool)
      requires Shape(W()) && Zeroed(W()) && s in slots && slots[s].kind != Device
      modifies this, refs
      ensures W() == Join(old(W()).(ready := old(ready) || memory), t, s, old(slots[s].kind))
    {
      RefPage(slots[s].frame, memory);
      slots := slots[t := slots[s]];
    }

    /** Write access is taken away from a page, and its owner is counted. */
    method DemoteOne(s: Slot, memory: bool)
      requires Shape(W()) && Zeroed(W()) && s in slots && slots[s].kind != Device
      modifies this, refs
      ensures W() == Demote(old(W()).(ready := old(ready) || memory), s) && Zeroed(W())
    {
      var f := slots[s].frame;
      slots := slots[s := Entry(f, Cow)];
      RefPage(f, memory);
      assert W() == Demote(old(W()).(ready := old(ready) || memory), s);
    }

    /** paging_clone_walk over the first n pages of an address space. A clone that fails has copied some of the
        pages, and neither the parent nor anyone else reads anything new. That is so if there is a table of reference
        counts or memory for one; otherwise exactly if no page was to be shared. */
    method Clone(parent: nat, child: nat, n: nat, tables: set<nat>, memory: bool) returns (ok: bool, ghost done: nat)
      requires Valid() && parent != child && forall p: nat :: InSpace(child, p) !in slots
      modifies this, refs
      ensures done <= n && Shape(W())
      ensures Valid() <==> old(ready) || memory || NoneWritable(old(slots), parent, done)
      ensures Valid() ==> Views(W()) == Forked(old(Views(W())), parent, child, done)
      ensures if ok then done == n else done < n && InSpace(parent, done) in old(slots)
      ensures !ok && done in tables ==>
        old(slots)[InSpace(parent, done)].kind == Private(false) && forall f: nat | f < refs.Length :: f in live
    {
      ghost var a, first, counts := Views(W()), slots, ready || memory;
      StartsWell(W());
      assert WalkInv(W(), first, a, parent, child, 0, counts);
      assert a.Keys == first.Keys && forall q: nat :: InSpace(child, q) !in a;
      hide Views, Inv, Shape, ClonePage, Enabled, WalkInv, NoneWritable, Forked;
      for p := 0 to n
        invariant WalkInv(W(), first, a, parent, child, p, counts) && (counts <==> ready || memory)
      {
        WalkAt(W(), first, a, parent, child, p, counts);
        if InSpace(parent, p) in slots {
          ghost var w := W();
          var copied, spare := CloneOne(InSpace(parent, p), InSpace(child, p), p in tables, memory);
          if !copied {
            WalkEnds(W(), first, a, parent, child, p, counts);
            return false, p;
          }
          OneCloned(w, first, a, parent, child, p, counts, memory, spare);
          ReadyAfter(Asked(w, InSpace(parent, p), memory), InSpace(parent, p), InSpace(child, p), spare);
        } else {
          NoneThere(W(), first, a, parent, child, p, counts);
        }
      }
      WalkEnds(W(), first, a, parent, child, n, counts);
      return true, n;
    }

    /** paging_handle_cow_fault on a user's write to a page that is there: it never changes what anyone reads, and
        afterwards the page is the writer's own. */
    method CowFault(s: Slot) returns (handled: bool)
      requires Valid() && s.InSpace?
      modifies this, refs
      ensures Valid() && Views(W()) == old(Views(W()))
      ensures handled ==> s in slots && slots[s].kind == Private(true) && slots == old(slots)[s := slots[s]]
      ensures !handled ==> W() == old(W())
      ensures handled <==> old(s in slots && slots[s].kind == Cow
                               && (refs[slots[s].frame] > 1 ==> exists f: nat :: Free(W(), f)))
    {
      ghost var w := W();
      hide FrameInv, Views;
      if s !in slots || slots[s].kind != Cow {
        return false;
      }
      var shared := slots[s].frame;
      var own := shared;
      if refs[shared] > 1 {
        var got, f := AllocPage();
        if !got {
          assert forall f: nat :: !Free(w, f);
          return false;
        }
        assert Free(w, f);
        own := f;
        mem := mem[f := mem[shared]];
      }
      slots := slots[s := Entry(own, Private(true))];
      var _ := UnrefPage(shared);
      FaultKept(w, s, own);
      assert W() == CowRuns.CowFault(w, s, own);
      return true;
    }

    /** A user's store to a page: the hardware refuses what is not writable, and a copy-on-write page faults first.
        What is read afterwards is what it would be had every fork copied. */
    method Store(s: Slot, off: nat, v: bv8) returns (ok: bool)
      requires Valid() && s.InSpace?
      modifies this, refs
      ensures Valid()
      ensures ok ==> s in old(Views(W())) && Views(W()) == PokeView(old(Views(W())), s, off, v)
      ensures !ok ==> Views(W()) == old(Views(W()))
      ensures ok <==> old(s in slots && slots[s].kind != Private(false)
                          && (slots[s].kind == Cow && refs[slots[s].frame] > 1 ==> exists f: nat :: Free(W(), f)))
    {
      ghost var a := Views(W());
      hide FrameInv, PokeView;
      if s !in slots {
        return false;
      }
      if slots[s].kind == Cow {
        var handled := CowFault(s);
        if !handled {
          return false;
        }
      } else if slots[s].kind == Private(false) {
        return false;
      }
      ghost var w := W();
      var f := slots[s].frame;
      if slots[s].kind == Device {
        device := device[f := Poked(if f in device then device[f] else [], off, v)];
      } else {
        mem := mem[f := Poked(mem[f], off, v)];
      }
      PokeKept(w, s, off, v);
      assert W() == Poke(w, s, off, v);
      return true;
    }

    /** One present page of the walk below; d is the world once the frames gathered so far are freed. */
    method Detach(s: Slot, ghost d: World) returns (goes: bool, f: Frame)
      requires s in slots && s.InSpace? && Inv(d) && W() == d.(live := live)
      modifies this`slots, refs
      ensures Inv(Drop(d, s)) && W() == Drop(d, s).(live := live)
      ensures goes ==> f in d.live
      ensures Drop(d, s).live == if goes then d.live - {f} else d.live
    {
      hide FrameInv, Views;
      var e := slots[s];
      DropKept(d, s);
      if e.kind != Device { HolderLive(d, s); }
      f := e.frame;
      slots := slots - {s};
      if e.kind == Device {
        goes := false;
      } else if e.kind == Cow || e.kind == Shared {
        var left := UnrefPage(f);
        goes := left == 0;
      } else {
        goes := true;
      }
    }

    /** One more frame to go back: it extends the run of neighbours gathered so far, or that run goes first. */
    method Gather(start: Frame, pages: nat, f: Frame, ghost rest: set<Frame>) returns (start': Frame, pages': nat)
      requires live == rest + {f} + Run(start, pages) && f !in rest && rest !! Run(start, pages)
      requires f !in Run(start, pages)
      modifies this`live
      ensures live == rest + Run(start', pages') && rest !! Run(start', pages')
    {
      if pages > 0 && f == start + pages {
        GrowRun(start, pages);
        return start, pages + 1;
      }
      FreePages(start, pages);
      OneRun(f);
      return f, 1;
    }

    /** The walk of paging_release_user_space and vmm_unmap_free_pages: frames that go back are gathered into runs
        of neighbours. The effect is that of dropping page after page, so every frame whose last holder was here,
        and no other, is freed. */
    method FreeRange(space: nat, lo: nat, hi: nat)
      requires Valid() && lo <= hi
      modifies this, refs
      ensures Valid() && W() == DropRange(old(W()), Space(space), lo, hi)
      ensures Views(W()) == Cleared(old(Views(W())), Space(space), lo, hi)
    {
      ghost var w := W();
      ghost var d := w;
      var start: Frame, pages: nat := 0, 0;
      assert Run(start, 0) == {} by { EmptyRun(start); }
      hide FrameInv, Views, Run, Fits, Zeroed;
      for p := lo to hi
        invariant d == DropRange(w, Space(space), lo, p) && Inv(d)
        invariant W() == d.(live := live) && live == d.live + Run(start, pages) && d.live !! Run(start, pages)
      {
        if InSpace(space, p) in d.slots {
          DropRangeStep(w, Space(space), lo, p);
        }
        start, pages, d := FreeOne(InSpace(space, p), start, pages, d);
      }
      FreePages(start, pages);
      DropRangeKept(w, Space(space), lo, hi);
    }

    /** One page of the walk; the frames of the run gathered so far are not given back yet. */
    method FreeOne(s: Slot, start: Frame, pages: nat, ghost d: World)
      returns (start': Frame, pages': nat, ghost d': World)
      requires Inv(d) && s.InSpace?
      requires W() == d.(live := live) && live == d.live + Run(start, pages) && d.live !! Run(start, pages)
      modifies this, refs
      ensures Inv(d') && d' == if s in d.slots then Drop(d, s) else d
      ensures W() == d'.(live := live) && live == d'.live + Run(start', pages') && d'.live !! Run(start', pages')
    {
      hide FrameInv, Run, Drop, Fits, Zeroed;
      start', pages', d' := start, pages, d;
      if s in slots {
        var goes, f := Detach(s, d);
        d' := Drop(d, s);
        if goes {
          start', pages' := Gather(start, pages, f, d'.live);
        }
      }
    }

    /** paging_handle_stack_fault, and any other way to back a page that is not there with zeroes; the frame goes back
        if there is no table to enter it in. */
    method NewPage(s: Slot, table: bool) returns (ok: bool)
      requires Valid() && s.InSpace?
      modifies this
      ensures Valid()
      ensures Views(W()) == if ok then old(Views(W()))[s := Own(Zero(), true)] else old(Views(W()))
      ensures ok <==> s !in old(slots) && table && exists f: nat :: Free(old(W()), f)
      ensures !ok ==> slots == old(slots) && live == old(live) && refs[..] == old(refs[..])
    {
      hide FrameInv, Views;
      ghost var w := W();
      if s in slots {
        return false;
      }
      var got, f := AllocPage();
      if !got {
        assert forall f: nat :: !Free(w, f);
        return false;
      }
      assert Free(w, f);
      mem := mem[f := Zero()];
      if !table {
        OneRun(f);
        FreePages(f, 1);
        FreeWritten(w, f, Zero());
        assert W() == w.(mem := w.mem[f := Zero()]);
        return false;
      }
      slots := slots[s := Entry(f, Private(true))];
      NewSoleKept(w, s, f, Private(true), Zero());
      assert W() == NewSole(w, s, f, Private(true), Zero());
      return true;
    }
  }

  /** What a free frame holds is nothing to anyone. */
  lemma FreeWritten(w: World, f: Frame, b: Bytes)
    requires Inv(w) && Free(w, f)
    ensures var w' := w.(mem := w.mem[f := b]); Inv(w') && Views(w') == Views(w)
  {
    var w' := w.(mem := w.mem[f := b]);
    SameHolders(w, w');
    Unheld(w, f);
    forall t | t in w.slots ensures ViewOf(w', t) == ViewOf(w, t) {}
    hide FrameInv, ViewOf;
  }

  // ---------------------------------------------------------------- the walk of a clone

  /** Whoever is to be counted asks for the table first. */
  function Asked(w: World, s: Slot, memory: bool): World
    requires s in w.slots
  {
    var k := w.slots[s].kind;
    if k == Device || k == Private(false) then w else w.(ready := w.ready || memory)
  }

  /** None of the first n pages of a space is writable and private. */
  predicate NoneWritable(slots: map<Slot, Entry>, space: nat, n: nat) {
    forall p: nat | p < n && InSpace(space, p) in slots :: slots[InSpace(space, p)].kind != Private(true)
  }

  /** The walk has come to page p: what lies ahead is as it was. */
  ghost predicate Walked(first: map<Slot, Entry>, slots: map<Slot, Entry>, parent: nat, child: nat, p: nat) {
    && (forall q: nat :: InSpace(parent, q) in slots <==> InSpace(parent, q) in first)
    && (forall q: nat | q >= p && InSpace(parent, q) in first :: slots[InSpace(parent, q)] == first[InSpace(parent, q)])
    && (forall q: nat | q >= p :: InSpace(child, q) !in slots)
  }

  /** A page of the space is to be copied on write, and nobody is counted. */
  ghost predicate Broken(w: World, space: nat) {
    && !w.ready && Zeroed(w)
    && exists q: nat :: InSpace(space, q) in w.slots && w.slots[InSpace(space, q)].kind == Cow
  }

  lemma BrokenIs(w: World, space: nat)
    requires Broken(w, space) && Shape(w)
    ensures !Inv(w)
  {
    var q: nat :| InSpace(space, q) in w.slots && w.slots[InSpace(space, q)].kind == Cow;
    if Inv(w) {
      OnlyCounted(w, InSpace(space, q));
    }
  }

  lemma StartsWell(w: World)
    requires Inv(w)
    ensures Shape(w) && Zeroed(w)
  {}

  lemma StaysBroken(w: World, parent: nat, s: Slot, t: Slot, spare: Frame)
    requires Broken(w, parent) && Shape(w) && Enabled(w, CowRuns.Clone(s, t, spare))
    ensures Broken(ClonePage(w, s, t, spare), parent) && Shape(ClonePage(w, s, t, spare))
  {
    DoShape(w, CowRuns.Clone(s, t, spare));
    var q: nat :| InSpace(parent, q) in w.slots && w.slots[InSpace(parent, q)].kind == Cow;
    var w' := ClonePage(w, s, t, spare);
    assert InSpace(parent, q) in w'.slots && w'.slots[InSpace(parent, q)].kind == Cow;
  }

  /** What the walk keeps up to page p, with a table from the start or memory for one, or with neither. */
  ghost predicate WalkInv(w: World, first: map<Slot, Entry>, a: map<Slot, View>, parent: nat, child: nat, p: nat,
                          counts: bool) {
    && Shape(w) && Zeroed(w) && Walked(first, w.slots, parent, child, p) && (w.ready ==> counts)
    && if counts || NoneWritable(first, parent, p) then Inv(w) && Views(w) == Forked(a, parent, child, p)
       else Broken(w, parent)
  }

  lemma WalkedOn(first: map<Slot, Entry>, w: World, parent: nat, child: nat, p: nat, spare: Frame)
    requires Shape(w) && Walked(first, w.slots, parent, child, p) && parent != child
    requires Enabled(w, CowRuns.Clone(InSpace(parent, p), InSpace(child, p), spare))
    ensures Walked(first, ClonePage(w, InSpace(parent, p), InSpace(child, p), spare).slots, parent, child, p + 1)
  {
    hide Shape;
  }

  /** A page is cloned with whoever was there counted, or it is one that nobody needs to count. */
  lemma ClonedWell(w: World, a: map<Slot, View>, first: map<Slot, Entry>, parent: nat, child: nat, p: nat, spare: Frame)
    requires parent != child && Walked(first, w.slots, parent, child, p) && forall q: nat :: InSpace(child, q) !in a
    requires a.Keys == first.Keys && Inv(w) && Views(w) == Forked(a, parent, child, p)
    requires Enabled(w, CowRuns.Clone(InSpace(parent, p), InSpace(child, p), spare))
    requires InTime(w, CowRuns.Clone(InSpace(parent, p), InSpace(child, p), spare))
    ensures var w' := ClonePage(w, InSpace(parent, p), InSpace(child, p), spare);
      Inv(w') && Views(w') == Forked(a, parent, child, p + 1)
  {
    hide FrameInv, Views;
    CloneKept(w, InSpace(parent, p), InSpace(child, p), spare);
    ForkedAt(a, parent, child, p, InSpace(parent, p));
  }

  /** A page is shared, and nobody is counted. */
  lemma ClonedBadly(w: World, s: Slot, t: Slot, spare: Frame)
    requires Inv(w) && !w.ready && Enabled(w, CowRuns.Clone(s, t, spare)) && w.slots[s].kind == Private(true)
    ensures var w' := ClonePage(w, s, t, spare); Broken(w', s.space) && Shape(w') && Zeroed(w')
  {
    DoShape(w, CowRuns.Clone(s, t, spare));
    var w' := ClonePage(w, s, t, spare);
    assert s == InSpace(s.space, s.page) && s in w'.slots && w'.slots[s].kind == Cow;
    hide FrameInv;
  }

  lemma AskedWell(w: World, s: Slot, memory: bool)
    requires Inv(w) && s in w.slots
    ensures Inv(Asked(w, s, memory)) && Views(Asked(w, s, memory)) == Views(w)
  {
    SameHolders(w, Asked(w, s, memory));
    if Asked(w, s, memory) != w { SameViews(w); }
    hide FrameInv;
  }

  lemma NoneNext(first: map<Slot, Entry>, parent: nat, p: nat)
    ensures NoneWritable(first, parent, p + 1) <==>
      NoneWritable(first, parent, p)
        && (InSpace(parent, p) in first ==> first[InSpace(parent, p)].kind != Private(true))
  {}

  lemma OneCloned(w: World, first: map<Slot, Entry>, a: map<Slot, View>, parent: nat, child: nat, p: nat, counts: bool,
                  memory: bool, spare: Frame)
    requires parent != child && a.Keys == first.Keys && forall q: nat :: InSpace(child, q) !in a
    requires WalkInv(w, first, a, parent, child, p, counts) && InSpace(parent, p) in w.slots
      && (counts <==> w.ready || memory)
    requires Shape(Asked(w, InSpace(parent, p), memory))
    requires Enabled(Asked(w, InSpace(parent, p), memory), CowRuns.Clone(InSpace(parent, p), InSpace(child, p), spare))
    ensures WalkInv(ClonePage(Asked(w, InSpace(parent, p), memory), InSpace(parent, p), InSpace(child, p), spare),
                    first, a, parent, child, p + 1, counts)
  {
    var s, t := InSpace(parent, p), InSpace(child, p);
    var b := Asked(w, s, memory);
    var w' := ClonePage(b, s, t, spare);
    hide Inv, Views, Shape, Forked, ClonePage, Enabled, Zeroed;
    WalkedOn(first, b, parent, child, p, spare);
    NoneNext(first, parent, p);
    DoShape(b, CowRuns.Clone(s, t, spare));
    ReadyAfter(b, s, t, spare);
    if counts || NoneWritable(first, parent, p) {
      AskedWell(w, s, memory);
      if counts || NoneWritable(first, parent, p + 1) {
        ClonedWell(b, a, first, parent, child, p, spare);
        StartsWell(w');
      } else {
        ClonedBadly(b, s, t, spare);
      }
    } else {
      StaysBroken(w, parent, s, t, spare);
    }
    hide Walked, NoneWritable;
  }

  lemma ReadyAfter(w: World, s: Slot, t: Slot, spare: Frame)
    requires Shape(w) && Enabled(w, CowRuns.Clone(s, t, spare))
    ensures ClonePage(w, s, t, spare).ready == w.ready
  {}

  lemma WalkAt(w: World, first: map<Slot, Entry>, a: map<Slot, View>, parent: nat, child: nat, p: nat, counts: bool)
    requires WalkInv(w, first, a, parent, child, p, counts)
    ensures Shape(w) && Zeroed(w) && InSpace(child, p) !in w.slots
    ensures InSpace(parent, p) in w.slots <==> InSpace(parent, p) in first
    ensures InSpace(parent, p) in first ==> w.slots[InSpace(parent, p)] == first[InSpace(parent, p)]
  {
    hide Inv, Views, Shape;
  }

  lemma WalkEnds(w: World, first: map<Slot, Entry>, a: map<Slot, View>, parent: nat, child: nat, p: nat, counts: bool)
    requires WalkInv(w, first, a, parent, child, p, counts)
    ensures Shape(w) && (Inv(w) <==> counts || NoneWritable(first, parent, p))
    ensures Inv(w) ==> Views(w) == Forked(a, parent, child, p)
  {
    hide Views, Shape, Forked, Inv;
    if !(counts || NoneWritable(first, parent, p)) {
      BrokenIs(w, parent);
    }
  }

  lemma NoneThere(w: World, first: map<Slot, Entry>, a: map<Slot, View>, parent: nat, child: nat, p: nat, counts: bool)
    requires a.Keys == first.Keys && WalkInv(w, first, a, parent, child, p, counts) && InSpace(parent, p) !in w.slots
    ensures WalkInv(w, first, a, parent, child, p + 1, counts)
  {
    hide Inv, Views, Shape;
    NoneNext(first, parent, p);
  }

  lemma EmptyRun(start: Frame)
    ensures Run(start, 0) == {}
  {}

  lemma OneRun(start: Frame)
    ensures Run(start, 1) == {start}
  {}

  lemma GrowRun(start: Frame, n: nat)
    ensures Run(start, n + 1) == Run(start, n) + {start + n}
  {}

  lemma HolderLive(w: World, s: Slot)
    requires Inv(w) && s in w.slots && w.slots[s].kind != Device
    ensures w.slots[s].frame in w.live && (Counted(w.slots[s].kind) ==> w.refs[w.slots[s].frame] > 0)
  {
    if Sole(w.slots[s].kind) { OnlySole(w, s); } else { OnlyCounted(w, s); }
  }
}
