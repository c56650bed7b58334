/** Shared memory objects and page passing over the frames of CowMemory (kernel/src/ipc/shm.c,
    kernel/src/ipc/zero_copy.c). Address ranges come from the mmap layer, which is trusted to hand out free ones. A page
    whose page table cannot be had is not mapped, and nobody is told: the reference is lost. */
module CowIpc {
  import opened CowSpec
  import opened CowRuns
  import opened CowMemory
  import opened Collections

  const SHM_MAX_PAGES: nat := 65536

  datatype Errno = OK | EINVAL | ENOMEM | EFAULT | ENOENT | EEXIST | EAGAIN

  predicate Vacant(slots: map<Slot, Entry>, area: Area, lo: nat, hi: nat) {
    forall s | s in slots :: !Within(area, lo, hi, s)
  }

  // ---------------------------------------------------------------- shared memory

  predicate ZeroPage(v: View) { v.Common? && v.bytes == Zero() }

  /** n fresh zeroed frames of object id, and nothing else new. */
  ghost predicate Created(a: map<Slot, View>, b: map<Slot, View>, id: nat, n: nat) {
    && (forall s :: s in b <==> s in a || Within(Object(id), 0, n, s))
    && (forall s | s in a && s in b :: b[s] == a[s])
    && (forall i: nat | i < n && InObject(id, i) in b :: ZeroPage(b[InObject(id, i)]))
  }

  lemma CreatedGrows(a: map<Slot, View>, b: map<Slot, View>, id: nat, n: nat, v: View)
    requires Created(a, b, id, n) && InObject(id, n) !in a && ZeroPage(v)
    ensures Created(a, b[InObject(id, n) := v], id, n + 1)
  {}

  /** shm_create, with id the object's number, kmalloc what becomes of its own two allocations and memory whether there
      is room for the table of reference counts, should it be missing. */
  method ShmCreate(m: Memory, id: nat, pages: nat, kmalloc: bool, memory: bool) returns (r: Errno)
    requires m.Valid() && Vacant(m.slots, Object(id), 0, pages)
    modifies m, m.refs
    ensures m.Valid()
    ensures r == OK ==> Created(old(Views(m.W())), Views(m.W()), id, pages)
    ensures r != OK ==> Views(m.W()) == old(Views(m.W()))
    ensures r == EINVAL <==> pages == 0 || pages > SHM_MAX_PAGES
    ensures r == OK || r == EINVAL || r == ENOMEM
    ensures r == OK ==> kmalloc && (old(m.ready) || memory)
    ensures r == ENOMEM && kmalloc && (old(m.ready) || memory) ==> m.refs.Length < |old(m.live)| + pages
  {
    hide FrameInv, Views, Created, Vacant;
    if pages == 0 || pages > SHM_MAX_PAGES {
      return EINVAL;
    }
    if !kmalloc {
      return ENOMEM;
    }
    r := HoldAll(m, id, pages, memory);
  }

  /** The loop of shm_create. */
  method HoldAll(m: Memory, id: nat, pages: nat, memory: bool) returns (r: Errno)
    requires m.Valid() && Vacant(m.slots, Object(id), 0, pages) && pages > 0
    modifies m, m.refs
    ensures m.Valid() && (r == OK || r == ENOMEM)
    ensures r == OK ==> Created(old(Views(m.W())), Views(m.W()), id, pages) && (old(m.ready) || memory)
    ensures r != OK ==> Views(m.W()) == old(Views(m.W()))
    ensures r != OK && (old(m.ready) || memory) ==> m.refs.Length < |old(m.live)| + pages
  {
    hide FrameInv, Views, Created, Vacant, NoneOf, Fits, Zeroed;
    ghost var a := Views(m.W());
    HoldReady(m.W(), id, pages);
    for i := 0 to pages
      invariant m.Valid() && Created(a, Views(m.W()), id, i) && |m.live| == |old(m.live)| + i
      invariant (m.ready || memory <==> old(m.ready) || memory) && (i > 0 ==> m.ready)
    {
      NoneOfThese(a, id, pages, i);
      var got := HoldNext(m, id, i, memory, a);
      if !got {
        GiveUp(m, id, i, a);
        return ENOMEM;
      }
    }
    return OK;
  }

  /** The object has none of its first n frames yet. */
  ghost predicate NoneOf(a: map<Slot, View>, id: nat, n: nat) { forall s | s in a :: !Within(Object(id), 0, n, s) }

  lemma NoneOfThese(a: map<Slot, View>, id: nat, n: nat, i: nat)
    requires NoneOf(a, id, n) && i < n
    ensures InObject(id, i) !in a && NoneOf(a, id, i)
  {}

  lemma HoldReady(w: World, id: nat, n: nat)
    requires Inv(w) && Vacant(w.slots, Object(id), 0, n)
    ensures Created(Views(w), Views(w), id, 0) && NoneOf(Views(w), id, n)
  {
    VacantView(w, Object(id), 0, n);
    hide FrameInv;
  }

  /** One turn of the loop of shm_create. */
  method HoldNext(m: Memory, id: nat, i: nat, memory: bool, ghost a: map<Slot, View>) returns (got: bool)
    requires m.Valid() && Created(a, Views(m.W()), id, i) && InObject(id, i) !in a
    modifies m, m.refs
    ensures m.Valid() && Created(a, Views(m.W()), id, if got then i + 1 else i)
    ensures |m.live| == |old(m.live)| + if got then 1 else 0
    ensures (m.ready || memory <==> old(m.ready) || memory) && (got ==> m.ready)
    ensures !got ==> !(old(m.ready) || memory) || m.refs.Length <= |m.live|
  {
    ghost var b := Views(m.W());
    CreatedSoFar(a, b, id, i);
    SlotSeen(m.W(), InObject(id, i));
    hide Views, Created, Inv;
    var f;
    got, f := HoldNew(m, InObject(id, i), memory);
    if got {
      CreatedGrows(a, b, id, i, Common(f, Zero()));
    }
  }

  /** shm_create out of memory: the frames it has so far are let go. */
  method GiveUp(m: Memory, id: nat, i: nat, ghost a: map<Slot, View>)
    requires m.Valid() && Created(a, Views(m.W()), id, i) && NoneOf(a, id, i)
    modifies m, m.refs
    ensures m.Valid() && Views(m.W()) == a
  {
    ghost var b := Views(m.W());
    CreatedSoFar(a, b, id, i);
    hide Views, Created, Inv;
    forall j: nat | j < i ensures InObject(id, j) in m.slots { SlotSeen(m.W(), InObject(id, j)); }
    ShmDrop(m, id, i);
    Undone(a, b, id, i);
  }

  lemma SlotSeen(w: World, s: Slot)
    requires Inv(w)
    ensures s in Views(w) <==> s in w.slots
  {}

  lemma VacantView(w: World, area: Area, lo: nat, hi: nat)
    requires Inv(w) && Vacant(w.slots, area, lo, hi)
    ensures forall s | s in Views(w) :: !Within(area, lo, hi, s)
  {}

  lemma CreatedSoFar(a: map<Slot, View>, b: map<Slot, View>, id: nat, n: nat)
    requires Created(a, b, id, n)
    ensures InObject(id, n) in b <==> InObject(id, n) in a
    ensures forall j: nat | j < n :: InObject(id, j) in b
  {}

  /** One zeroed frame with one reference, held by an object; given back if it could not be counted. */
  method HoldNew(m: Memory, s: Slot, memory: bool) returns (got: bool, f: Frame)
    requires m.Valid() && s.InObject? && s !in m.slots
    modifies m, m.refs
    ensures m.Valid()
    ensures Views(m.W()) == if got then old(Views(m.W()))[s := Common(f, Zero())] else old(Views(m.W()))
    ensures |m.live| == |old(m.live)| + if got then 1 else 0
    ensures (m.ready || memory <==> old(m.ready) || memory) && (got ==> m.ready)
    ensures !got ==> !(old(m.ready) || memory) || m.refs.Length <= |m.live|
  {
    hide Inv, Views;
    ghost var w := m.W();
    got, f := m.AllocPage();
    if !got {
      SubsetSize<int>(Below(m.refs.Length), m.live);
      return;
    }
    StartsWell(w);
    m.mem := m.mem[f := Zero()];
    got := HoldFrame(m, s, f, memory, w);
  }

  /** The frame is counted and entered, or given back. */
  method HoldFrame(m: Memory, s: Slot, f: Frame, memory: bool, ghost w: World) returns (got: bool)
    requires Inv(w) && Free(w, f) && s.InObject? && s !in w.slots
    requires m.W() == w.(live := w.live + {f}, mem := w.mem[f := Zero()])
    modifies m, m.refs
    ensures m.Valid() && Views(m.W()) == if got then Views(w)[s := Common(f, Zero())] else Views(w)
    ensures m.live == if got then w.live + {f} else w.live
    ensures (got <==> w.ready || memory) && m.ready == (w.ready || memory)
  {
    Unheld(w, f);
    TableAsked(w, w.ready || memory);
    hide FrameInv, Views;
    m.RefPage(f, memory);
    var count := m.RefCount(f);
    if count == 0 {
      OneRun(f);
      m.FreePages(f, 1);
      FreeWritten(w, f, Zero());
      assert m.W() == w.(mem := w.mem[f := Zero()]);
      return false;
    }
    m.slots := m.slots[s := Entry(f, Held)];
    NewHeldKept(w.(ready := true), s, f, Zero());
    assert m.W() == NewHeld(w.(ready := true), s, f, Zero());
    return true;
  }

  lemma TableAsked(w: World, ready: bool)
    requires Inv(w) && (w.ready ==> ready)
    ensures Inv(w.(ready := ready)) && Views(w.(ready := ready)) == Views(w)
  {
    SameHolders(w, w.(ready := ready));
    if ready && !w.ready { SameViews(w); }
    hide FrameInv;
  }

  lemma Undone(a: map<Slot, View>, b: map<Slot, View>, id: nat, n: nat)
    requires Created(a, b, id, n) && forall s | s in a :: !Within(Object(id), 0, n, s)
    ensures Cleared(b, Object(id), 0, n) == a
  {
    forall s
      ensures s in Cleared(b, Object(id), 0, n) <==> s in a
      ensures s in a ==> Cleared(b, Object(id), 0, n)[s] == a[s]
    {
      ClearedAt(b, Object(id), 0, n, s);
    }
  }

  /** shm_drop_frames: the object lets go of its frames; those still mapped stay. */
  method ShmDrop(m: Memory, id: nat, count: nat)
    requires m.Valid() && forall i: nat | i < count :: InObject(id, i) in m.slots
    modifies m, m.refs
    ensures m.Valid() && m.W() == DropRange(old(m.W()), Object(id), 0, count)
    ensures Views(m.W()) == Cleared(old(Views(m.W())), Object(id), 0, count)
  {
    ghost var w := m.W();
    hide FrameInv, Views, Drop, Fits, Zeroed;
    for i := 0 to count
      invariant m.Valid() && m.W() == DropRange(w, Object(id), 0, i)
      invariant forall j: nat | i <= j < count :: InObject(id, j) in m.slots
    {
      DropRangeStep(w, Object(id), 0, i);
      DropHeld(m, InObject(id, i));
    }
    DropRangeKept(w, Object(id), 0, count);
  }

  /** One frame of an object: the last holder gives it back. */
  method DropHeld(m: Memory, s: Slot)
    requires m.Valid() && s in m.slots && s.InObject?
    modifies m, m.refs
    ensures m.Valid() && m.W() == Drop(old(m.W()), s) && m.slots == old(m.slots) - {s}
  {
    ghost var d := m.W();
    hide FrameInv, Views;
    HeldThere(d, s);
    var f := m.slots[s].frame;
    m.slots := m.slots - {s};
    var left := m.UnrefPage(f);
    if left == 0 {
      OneRun(f);
      m.FreePages(f, 1);
    }
    DropKept(d, s);
    assert m.W() == Drop(d, s);
  }

  lemma HeldThere(w: World, s: Slot)
    requires Inv(w) && s in w.slots && s.InObject?
    ensures w.slots[s].kind == Held && w.slots[s].frame < |w.refs|
  {}

  // ---------------------------------------------------------------- what is lost

  /** Without what nobody can see. */
  ghost function Seen(a: map<Slot, View>): map<Slot, View> { map s | s in a && !s.Lost? :: a[s] }

  /** The page tables for pages [base, base + n) can be had. */
  predicate Tabled(tables: set<nat>, base: nat, n: nat) { forall p: nat | base <= p < base + n :: p in tables }

  lemma LeaksSeen(w: World, w': World)
    requires Inv(w) && Inv(w')
    requires forall s: Slot | s.Lost? :: s in Views(w') <==> s in Views(w)
    ensures Leaks(w') == Leaks(w)
  {
    forall s: Slot | s.Lost? ensures s in w'.slots <==> s in w.slots { SlotSeen(w, s); SlotSeen(w', s); }
  }

  /** A place for one more lost reference. */
  method Nowhere(m: Memory) returns (s: Slot)
    ensures s.Lost? && s !in m.slots
  {
    var n := 0;
    while Lost(n) in m.slots
      invariant forall i: nat | i < n :: Lost(i) in m.slots
      decreases |m.slots| - n
    {
      n := n + 1;
      SubsetSize(LostBelow(n), m.slots.Keys);
    }
    return Lost(n);
  }

  ghost function LostBelow(n: nat): (r: set<Slot>)
    ensures |r| == n && forall s :: s in r <==> s.Lost? && s.leak < n
  {
    if n == 0 then {} else LostBelow(n - 1) + {Lost(n - 1)}
  }

  // ---------------------------------------------------------------- mapping shared memory

  /** Pages [first, first + n) of an object seen at a space's pages from base on, where there is a table for them. */
  ghost function Attached(a: map<Slot, View>, space: nat, base: nat, id: nat, first: nat, n: nat,
                          tables: set<nat>): map<Slot, View> {
    if n == 0 then a
    else
      var b := Attached(a, space, base, id, first, n - 1, tables);
      var from := InObject(id, first + n - 1);
      if from in a && base + n - 1 in tables then b[InSpace(space, base + n - 1) := a[from]] else b
  }

  lemma {:induction false} AttachedAt(a: map<Slot, View>, space: nat, base: nat, id: nat, first: nat, n: nat,
                                      tables: set<nat>, s: Slot)
    requires forall t | t in a :: !Within(Space(space), base, base + n, t)
    requires forall j: nat | first <= j < first + n :: InObject(id, j) in a
    ensures var b := Attached(a, space, base, id, first, n, tables);
      if Within(Space(space), base, base + n, s)
      then (s in b <==> s.page in tables) && (s in b ==> b[s] == a[InObject(id, first + (s.page - base))])
      else (s in b <==> s in a) && (s in b ==> b[s] == a[s])
  {
    if n > 0 {
      AttachedAt(a, space, base, id, first, n - 1, tables, s);
    }
  }

  /** One more reference to a frame of an object: a mapping, or nothing. */
  method JoinOne(m: Memory, to: Slot, from: Slot)
    requires m.Valid() && from.InObject? && from in m.slots && (to.InSpace? || to.Lost?) && to !in m.slots
    modifies m, m.refs
    ensures m.Valid() && from in old(Views(m.W())) && Views(m.W()) == old(Views(m.W()))[to := old(Views(m.W()))[from]]
  {
    ghost var w := m.W();
    HeldThere(w, from);
    OnlyCounted(w, from);
    ViewAt(w, from);
    hide FrameInv, Views;
    var f := m.slots[from].frame;
    m.RefPage(f, false);
    m.slots := m.slots[to := Entry(f, Shared)];
    JoinKept(w, to, from, Shared);
    assert m.W() == Join(w, to, from, Shared);
  }

  /** One turn of the loops of shm_map and shm_map_at. */
  method MapOne(m: Memory, space: nat, page: nat, from: Slot, table: bool)
    requires m.Valid() && from.InObject? && from in m.slots && InSpace(space, page) !in m.slots
    modifies m, m.refs
    ensures m.Valid() && from in old(Seen(Views(m.W())))
    ensures Seen(Views(m.W())) ==
      if table then old(Seen(Views(m.W())))[InSpace(space, page) := old(Seen(Views(m.W())))[from]]
        else old(Seen(Views(m.W())))
    ensures old(Leaks(m.W())) <= Leaks(m.W()) && (Leaks(m.W()) == old(Leaks(m.W())) <==> table)
  {
    ghost var w := m.W();
    var to := InSpace(space, page);
    if !table {
      to := Nowhere(m);
    }
    JoinOne(m, to, from);
    LeaksMore(w, m.W(), to);
    hide Inv, Leaks;
  }

  lemma LeaksMore(w: World, w': World, t: Slot)
    requires Inv(w) && Inv(w') && t !in w.slots &&
      forall s :: s in Views(w') && s.Lost? <==> (s in Views(w) || s == t) && s.Lost?
    ensures Leaks(w) <= Leaks(w') && (Leaks(w') == Leaks(w) <==> !t.Lost?)
  {
    forall s: Slot | s.Lost? ensures s in w'.slots <==> s in w.slots || s == t { SlotSeen(w, s); SlotSeen(w', s); }
    if t.Lost? { assert t in Leaks(w') && t !in Leaks(w); }
    hide Inv;
  }

  /** shm_map_at on an object of the given size, if there is one; reserved says whether the mmap layer had the range.
      (shm_map is the case of a whole object at a range of the mmap layer's choice.) */
  method ShmMap(m: Memory, space: nat, base: nat, id: nat, found: bool, size: nat, first: nat, n: nat, reserved: bool,
                tables: set<nat>)
    returns (r: Errno)
    requires m.Valid() && (reserved ==> Vacant(m.slots, Space(space), base, base + n))
    requires found ==> forall j: nat | j < size :: InObject(id, j) in m.slots
    modifies m, m.refs
    ensures m.Valid()
    ensures r != OK ==> m.W() == old(m.W())
    ensures r == OK ==> Seen(Views(m.W())) == Attached(Seen(old(Views(m.W()))), space, base, id, first, n, tables)
    ensures r == OK <==> found && 0 < n && first + n <= size && reserved
    ensures r == EINVAL <==> n == 0 || (found && first + n > size)
    ensures Leaks(m.W()) == old(Leaks(m.W())) <==> r != OK || Tabled(tables, base, n)
  {
    if n == 0 {
      return EINVAL;
    }
    if !found || first > size || n > size - first {
      return if found then EINVAL else ENOENT;
    }
    if !reserved {
      return EEXIST;
    }
    MapPages(m, space, base, id, first, n, tables);
    return OK;
  }

  method MapPages(m: Memory, space: nat, base: nat, id: nat, first: nat, n: nat, tables: set<nat>)
    requires m.Valid() && Vacant(m.slots, Space(space), base, base + n)
    requires forall j: nat | first <= j < first + n :: InObject(id, j) in m.slots
    modifies m, m.refs
    ensures m.Valid() && Seen(Views(m.W())) == Attached(Seen(old(Views(m.W()))), space, base, id, first, n, tables)
    ensures Leaks(m.W()) == old(Leaks(m.W())) <==> Tabled(tables, base, n)
  {
    hide Views, FrameInv, Attached, Seen, Leaks, Within, Vacant, Tabled, Fits, Zeroed;
    ghost var a, lost := Seen(Views(m.W())), Leaks(m.W());
    MapReady(m.W(), space, base, id, first, n, tables);
    for i := 0 to n
      invariant m.Valid() && Seen(Views(m.W())) == Attached(a, space, base, id, first, i, tables)
      invariant lost <= Leaks(m.W()) && (Leaks(m.W()) == lost <==> Tabled(tables, base, i))
    {
      var from := InObject(id, first + i);
      AttachedStep(a, space, base, id, first, i, n, tables);
      RealSeen(m.W(), from);
      RealSeen(m.W(), InSpace(space, base + i));
      MapOne(m, space, base + i, from, base + i in tables);
      TabledNext(tables, base, i);
    }
  }

  lemma MapReady(w: World, space: nat, base: nat, id: nat, first: nat, n: nat, tables: set<nat>)
    requires Inv(w) && Vacant(w.slots, Space(space), base, base + n)
    requires forall j: nat | first <= j < first + n :: InObject(id, j) in w.slots
    ensures Attached(Seen(Views(w)), space, base, id, first, 0, tables) == Seen(Views(w)) && Tabled(tables, base, 0)
    ensures forall t | t in Seen(Views(w)) :: !Within(Space(space), base, base + n, t)
    ensures forall j: nat | first <= j < first + n :: InObject(id, j) in Seen(Views(w))
  {
    VacantView(w, Space(space), base, base + n);
    forall j: nat | first <= j < first + n ensures InObject(id, j) in Seen(Views(w)) { RealSeen(w, InObject(id, j)); }
    hide Inv;
  }

  lemma TabledNext(tables: set<nat>, base: nat, i: nat)
    ensures Tabled(tables, base, i + 1) <==> Tabled(tables, base, i) && base + i in tables
  {}

  lemma RealSeen(w: World, s: Slot)
    requires Inv(w) && !s.Lost?
    ensures s in Seen(Views(w)) <==> s in w.slots
  {}

  lemma AttachedStep(a: map<Slot, View>, space: nat, base: nat, id: nat, first: nat, i: nat, n: nat, tables: set<nat>)
    requires i < n && forall t | t in a :: !Within(Space(space), base, base + n, t)
    requires forall j: nat | first <= j < first + n :: InObject(id, j) in a
    ensures var b := Attached(a, space, base, id, first, i, tables);
      && InObject(id, first + i) in b && InSpace(space, base + i) !in b
      && Attached(a, space, base, id, first, i + 1, tables) ==
           if base + i in tables then b[InSpace(space, base + i) := b[InObject(id, first + i)]] else b
  {
    AttachedAt(a, space, base, id, first, i, tables, InObject(id, first + i));
    AttachedAt(a, space, base, id, first, i, tables, InSpace(space, base + i));
  }

  // ---------------------------------------------------------------- passing pages

  function Arrived(t: Slot, b: Bytes): View { if t.InMessage? then Sent(b) else Own(b, true) }

  /** n slots of one area, from lo on, carried over to another, from base on. */
  ghost function Carried(a: map<Slot, View>, from: Area, lo: nat, to: Area, base: nat, n: nat): map<Slot, View> {
    if n == 0 then a
    else
      var b := Carried(a, from, lo, to, base, n - 1);
      var s, t := At(from, lo + n - 1), At(to, base + n - 1);
      if s in a then (b - {s})[t := Arrived(t, a[s].bytes)] else b
  }

  /** Whoever gets them reads what was sent, nobody has them in the old place, and nothing else changes. */
  lemma {:induction false} CarriedAt(a: map<Slot, View>, from: Area, lo: nat, to: Area, base: nat, n: nat, s: Slot)
    requires from != to && forall t | t in a :: !Within(to, base, base + n, t)
    requires forall j: nat | lo <= j < lo + n :: At(from, j) in a
    ensures var b := Carried(a, from, lo, to, base, n);
      if Within(to, base, base + n, s) then s in b && b[s] == Arrived(s, a[At(from, lo + (IndexOf(s) - base))].bytes)
      else (s in b <==> s in a && !Within(from, lo, lo + n, s)) && (s in b ==> b[s] == a[s])
  {
    hide Carried, At, Within, Arrived;
    if n > 0 {
      forall t | t in a ensures !Within(to, base, base + (n - 1), t) { WithinMore(to, base, n - 1, t); }
      CarriedAt(a, from, lo, to, base, n - 1, s);
      assert At(from, lo + (n - 1)) in a;
      CarriedMore(a, from, lo, to, base, n - 1);
      WithinMore(to, base, n - 1, s);
      WithinMore(from, lo, n - 1, s);
      WithinOf(to, base, base + n, from, lo + (n - 1));
      AtIndex(to, base + (n - 1));
    } else {
      CarriedNone(a, from, lo, to, base);
      WithinNone(to, base, s);
      WithinNone(from, lo, s);
    }
  }

  lemma CarriedNone(a: map<Slot, View>, from: Area, lo: nat, to: Area, base: nat)
    ensures Carried(a, from, lo, to, base, 0) == a
  {}

  lemma CarriedMore(a: map<Slot, View>, from: Area, lo: nat, to: Area, base: nat, n: nat)
    requires At(from, lo + n) in a
    ensures var s, t := At(from, lo + n), At(to, base + n);
      Carried(a, from, lo, to, base, n + 1) == (Carried(a, from, lo, to, base, n) - {s})[t := Arrived(t, a[s].bytes)]
  {}

  lemma WithinNone(x: Area, lo: nat, s: Slot)
    ensures !Within(x, lo, lo, s)
  {}

  lemma WithinMore(x: Area, lo: nat, n: nat, s: Slot)
    ensures Within(x, lo, lo + n + 1, s) <==> Within(x, lo, lo + n, s) || s == At(x, lo + n)
    ensures Within(x, lo, lo + n, s) ==> s != At(x, lo + n)
  {}

  lemma WithinOf(x: Area, lo: nat, hi: nat, y: Area, i: nat)
    ensures Within(x, lo, hi, At(y, i)) <==> x == y && lo <= i < hi
  {}

  lemma AtIndex(x: Area, i: nat)
    ensures IndexOf(At(x, i)) == i
  {}

  function IndexOf(s: Slot): nat {
    match s
    case InSpace(_, i) => i
    case InMessage(_, i) => i
    case InObject(_, i) => i
    case Lost(i) => i
  }

  /** A page can be given away if it is the sender's own. */
  ghost predicate Givable(a: map<Slot, View>, s: Slot) { s in a && a[s].Own? }

  /** ipc_validate_send_range past the checks of the address range: copy-on-write pages are made private first. */
  method Validate(m: Memory, space: nat, first: nat, n: nat) returns (r: Errno)
    requires m.Valid()
    modifies m, m.refs
    ensures m.Valid() && Views(m.W()) == old(Views(m.W()))
    ensures r == OK ==> forall j: nat | first <= j < first + n ::
      InSpace(space, j) in m.slots
      && m.slots[InSpace(space, j)].kind.Private?
    ensures r == OK ==> forall j: nat | first <= j < first + n :: Givable(old(Views(m.W())), InSpace(space, j))
    ensures r == OK || r == EFAULT || r == EINVAL || (r == ENOMEM && forall f: nat :: !Free(m.W(), f))
    ensures r == EFAULT || r == EINVAL ==> exists j: nat ::
      first <= j < first + n
      && !Givable(old(Views(m.W())), InSpace(space, j))
  {
    ghost var a := Views(m.W());
    for i := 0 to n
      invariant m.Valid() && Views(m.W()) == a
      invariant forall j: nat | first <= j < first + i ::
        InSpace(space, j) in m.slots
        && m.slots[InSpace(space, j)].kind.Private?
      invariant forall j: nat | first <= j < first + i :: Givable(a, InSpace(space, j))
    {
      var s := InSpace(space, first + i);
      ghost var w := m.W();
      SlotSeen(w, s);
      if s !in m.slots {
        assert !Givable(a, s);
        return EFAULT;
      }
      ViewAt(w, s);
      if m.slots[s].kind == Device || m.slots[s].kind == Shared {
        assert !Givable(a, s);
        return EINVAL;
      }
      InSpaceKind(w, s);
      if m.slots[s].kind == Cow {
        var handled := m.CowFault(s);
        if !handled {
          return ENOMEM;
        }
        hide Views, Inv;
      }
      hide Views, Inv;
    }
    return OK;
  }

  lemma InSpaceKind(w: World, s: Slot)
    requires Inv(w) && s in w.slots && s.InSpace?
    ensures w.slots[s].kind.Private? || w.slots[s].kind == Cow || w.slots[s].kind == Shared || w.slots[s].kind == Device
  {}

  /** One page changes hands: the map of a table, or phys_pages. */
  method PassOne(m: Memory, s: Slot, t: Slot)
    requires m.Valid() && s in m.slots && Sole(m.slots[s].kind) && t !in m.slots
    requires (s.InSpace? && t.InMessage?) || (s.InMessage? && (t.InSpace? || t.Lost?))
    modifies m
    ensures m.Valid() && s in old(Views(m.W()))
    ensures Views(m.W()) == (old(Views(m.W())) - {s})[t := Arrived(t, old(Views(m.W()))[s].bytes)]
    ensures m.slots == (old(m.slots) - {s})[t := Entry(old(m.slots)[s].frame, Passed(t))]
  {
    ghost var w := m.W();
    ViewAt(w, s);
    hide FrameInv, Views;
    var f := m.slots[s].frame;
    m.slots := m.slots - {s};
    m.slots := m.slots[t := Entry(f, if t.InMessage? then InFlight else Private(true))];
    MoveKept(w, s, t, Passed(t));
    assert m.W() == Move(w, s, t, Passed(t));
  }

  method PassAll(m: Memory, from: Area, lo: nat, to: Area, base: nat, n: nat)
    requires m.Valid() && ((from.Space? && to.Message?) || (from.Message? && to.Space?))
    requires Vacant(m.slots, to, base, base + n) && Passable(m.slots, from, lo, lo + n)
    modifies m
    ensures m.Valid() && Views(m.W()) == Carried(old(Views(m.W())), from, lo, to, base, n)
  {
    hide FrameInv, Views, Carried;
    ghost var a := Views(m.W());
    PassReady(m.W(), from, lo, to, base, n);
    hide Inv, Passable, Within, Vacant;
    for i := 0 to n
      invariant m.Valid() && Views(m.W()) == Carried(a, from, lo, to, base, i)
        && Passable(m.slots, from, lo + i, lo + n)
    {
      PassNext(m, a, from, lo, to, base, i, n);
    }
  }

  method PassNext(m: Memory, ghost a: map<Slot, View>, from: Area, lo: nat, to: Area, base: nat, i: nat, ghost n: nat)
    requires m.Valid() && ((from.Space? && to.Message?) || (from.Message? && to.Space?)) && i < n
    requires Views(m.W()) == Carried(a, from, lo, to, base, i) && Passable(m.slots, from, lo + i, lo + n)
    requires forall t | t in a :: !Within(to, base, base + n, t)
    requires forall j: nat | lo <= j < lo + n :: At(from, j) in a
    modifies m
    ensures m.Valid() && Views(m.W()) == Carried(a, from, lo, to, base, i + 1)
      && Passable(m.slots, from, lo + i + 1, lo + n)
  {
    var s, t := At(from, lo + i), At(to, base + i);
    CarriedStep(a, from, lo, to, base, i);
    SlotSeen(m.W(), t);
    ghost var before := m.slots;
    assert s in m.slots && Sole(m.slots[s].kind);
    hide Views, Inv, Carried, Passable, Within;
    PassOne(m, s, t);
    PassableNext(before, from, lo + i, lo + n, t, m.slots);
  }

  predicate Passable(slots: map<Slot, Entry>, from: Area, lo: nat, hi: nat) {
    forall j: nat | lo <= j < hi :: At(from, j) in slots && Sole(slots[At(from, j)].kind)
  }

  lemma PassableNext(slots: map<Slot, Entry>, from: Area, lo: nat, hi: nat, t: Slot, slots': map<Slot, Entry>)
    requires Passable(slots, from, lo, hi) && t !in slots && t in slots'
      && slots' == (slots - {At(from, lo)})[t := slots'[t]]
    ensures Passable(slots', from, lo + 1, hi)
  {}

  lemma PassReady(w: World, from: Area, lo: nat, to: Area, base: nat, n: nat)
    requires Inv(w) && Vacant(w.slots, to, base, base + n) && Passable(w.slots, from, lo, lo + n)
    ensures Carried(Views(w), from, lo, to, base, 0) == Views(w)
    ensures forall t | t in Views(w) :: !Within(to, base, base + n, t)
    ensures forall j: nat | lo <= j < lo + n :: At(from, j) in Views(w)
  {
    VacantView(w, to, base, base + n);
    forall j: nat | lo <= j < lo + n ensures At(from, j) in Views(w) { SlotSeen(w, At(from, j)); }
  }

  lemma CarriedStep(a: map<Slot, View>, from: Area, lo: nat, to: Area, base: nat, i: nat)
    requires from != to && forall t | t in a :: !Within(to, base, base + i + 1, t)
    requires forall j: nat | lo <= j < lo + i + 1 :: At(from, j) in a
    ensures var b := Carried(a, from, lo, to, base, i);
      var s, t := At(from, lo + i), At(to, base + i);
      && s in b && t !in b && Carried(a, from, lo, to, base, i + 1) == (b - {s})[t := Arrived(t, b[s].bytes)]
  {
    CarriedAt(a, from, lo, to, base, i, At(from, lo + i));
    CarriedAt(a, from, lo, to, base, i, At(to, base + i));
  }

  /** ipc_send_pages: all the pages go into the message, or nothing that anyone reads changes; detach is what became of
      cutting the range out of the sender's list. */
  method Send(m: Memory, space: nat, first: nat, n: nat, inRange: bool, kmalloc: bool, detach: Errno, msg: nat)
    returns (r: Errno)
    requires m.Valid() && Vacant(m.slots, Message(msg), 0, n)
    modifies m, m.refs
    ensures m.Valid()
    ensures r == OK ==> Views(m.W()) == Carried(old(Views(m.W())), Space(space), first, Message(msg), 0, n)
    ensures r != OK ==> Views(m.W()) == old(Views(m.W()))
    ensures r == OK ==> inRange && n > 0 && forall j: nat | first <= j < first + n ::
      Givable(old(Views(m.W())), InSpace(space, j))
    ensures r == OK ==> kmalloc && detach == OK
    ensures r != OK ==>
      || n == 0 || !inRange || !kmalloc || detach != OK
        || (exists j: nat :: first <= j < first + n && !Givable(old(Views(m.W())), InSpace(space, j)))
      || forall f: nat :: !Free(m.W(), f)
  {
    if n == 0 || !inRange {
      return EINVAL;
    }
    ghost var w := m.W();
    VacantView(w, Message(msg), 0, n);
    r := Validate(m, space, first, n);
    if r != OK {
      return r;
    }
    if !kmalloc {
      return ENOMEM;
    }
    if detach != OK {
      return detach;
    }
    hide Views, Carried;
    forall s | s in m.slots ensures !Within(Message(msg), 0, n, s) { SlotSeen(m.W(), s); }
    PassAll(m, Space(space), first, Message(msg), 0, n);
  }

  // ---------------------------------------------------------------- receiving

  /** The n pages of a message, taken in at a space's pages from base on where there is a table for them. */
  ghost function Landed(a: map<Slot, View>, msg: nat, space: nat, base: nat, n: nat,
                        tables: set<nat>): map<Slot, View> {
    if n == 0 then a
    else
      var b, s := Landed(a, msg, space, base, n - 1, tables), InMessage(msg, n - 1);
      if s in a && base + n - 1 in tables then (b - {s})[InSpace(space, base + n - 1) := Own(a[s].bytes, true)]
        else b - {s}
  }

  /** The pages with a table are read as they were sent, the message is empty, and nothing else changes. */
  lemma {:induction false} LandedAt(a: map<Slot, View>, msg: nat, space: nat, base: nat, n: nat, tables: set<nat>,
                                    s: Slot)
    requires forall t | t in a :: !Within(Space(space), base, base + n, t)
    requires forall j: nat | j < n :: InMessage(msg, j) in a
    ensures var b := Landed(a, msg, space, base, n, tables);
      if Within(Space(space), base, base + n, s)
      then (s in b <==> s.page in tables) && (s in b ==> b[s] == Own(a[InMessage(msg, s.page - base)].bytes, true))
      else (s in b <==> s in a && !Within(Message(msg), 0, n, s)) && (s in b ==> b[s] == a[s])
  {
    if n > 0 {
      LandedAt(a, msg, space, base, n - 1, tables, s);
      assert InMessage(msg, n - 1) in a;
    }
  }

  /** With all the tables the receiver gets exactly what was carried over. */
  lemma LandedAll(a: map<Slot, View>, msg: nat, space: nat, base: nat, n: nat, tables: set<nat>)
    requires forall t | t in a :: !Within(Space(space), base, base + n, t)
    requires forall j: nat | 0 <= j < 0 + n :: At(Message(msg), j) in a
    requires Tabled(tables, base, n)
    ensures Landed(a, msg, space, base, n, tables) == Carried(a, Message(msg), 0, Space(space), base, n)
  {
    var b, c := Landed(a, msg, space, base, n, tables), Carried(a, Message(msg), 0, Space(space), base, n);
    forall j: nat | j < n ensures InMessage(msg, j) in a { assert At(Message(msg), j) in a; }
    forall s
      ensures s in b <==> s in c
      ensures s in b && s in c ==> b[s] == c[s]
    {
      LandedAt(a, msg, space, base, n, tables, s);
      CarriedAt(a, Message(msg), 0, Space(space), base, n, s);
    }
  }

  /** One turn of the loop of ipc_recv. */
  method LandOne(m: Memory, msg: nat, i: nat, space: nat, page: nat, table: bool)
    requires m.Valid() && InMessage(msg, i) in m.slots && InSpace(space, page) !in m.slots
    modifies m
    ensures m.Valid() && InMessage(msg, i) in old(Seen(Views(m.W())))
    ensures var was := old(Seen(Views(m.W()))); var s := InMessage(msg, i);
      Seen(Views(m.W())) == if table then (was - {s})[InSpace(space, page) := Own(was[s].bytes, true)] else was - {s}
    ensures old(Leaks(m.W())) <= Leaks(m.W()) && (Leaks(m.W()) == old(Leaks(m.W())) <==> table)
  {
    ghost var w := m.W();
    var s, to := InMessage(msg, i), InSpace(space, page);
    assert Fits(s, m.slots[s].kind);
    hide FrameInv, Views, Leaks, Seen;
    if !table {
      to := Nowhere(m);
    }
    PassOne(m, s, to);
    LandedOne(w, m.W(), s, to);
  }

  /** What moving a page of a message to a place, or to nowhere, does to what anyone reads and to what is lost. */
  lemma LandedOne(w: World, w': World, s: Slot, t: Slot)
    requires Inv(w) && Inv(w') && s in w.slots && s.InMessage? && t !in w.slots && (t.InSpace? || t.Lost?)
    requires s in Views(w) && Views(w') == (Views(w) - {s})[t := Arrived(t, Views(w)[s].bytes)]
    ensures s in Seen(Views(w)) && Seen(Views(w))[s] == Views(w)[s]
    ensures Seen(Views(w')) ==
      if t.Lost? then Seen(Views(w)) - {s} else (Seen(Views(w)) - {s})[t := Own(Views(w)[s].bytes, true)]
    ensures Leaks(w) <= Leaks(w') && (Leaks(w') == Leaks(w) <==> !t.Lost?)
  {
    hide FrameInv, Views, Leaks;
    LeaksMore(w, w', t);
  }

  method LandAll(m: Memory, msg: nat, n: nat, space: nat, base: nat, tables: set<nat>)
    requires m.Valid() && Vacant(m.slots, Space(space), base, base + n)
    requires forall j: nat | j < n :: InMessage(msg, j) in m.slots
    modifies m
    ensures m.Valid() && Seen(Views(m.W())) == Landed(old(Seen(Views(m.W()))), msg, space, base, n, tables)
    ensures Leaks(m.W()) == old(Leaks(m.W())) <==> Tabled(tables, base, n)
  {
    hide Views, FrameInv, Landed, Seen, Leaks, Within, Vacant, Tabled, Fits, Zeroed;
    ghost var a, lost := Seen(Views(m.W())), Leaks(m.W());
    LandReady(m.W(), msg, n, space, base, tables);
    for i := 0 to n
      invariant m.Valid() && Seen(Views(m.W())) == Landed(a, msg, space, base, i, tables)
      invariant lost <= Leaks(m.W()) && (Leaks(m.W()) == lost <==> Tabled(tables, base, i))
    {
      LandedStep(a, msg, space, base, i, n, tables);
      RealSeen(m.W(), InMessage(msg, i));
      RealSeen(m.W(), InSpace(space, base + i));
      LandOne(m, msg, i, space, base + i, base + i in tables);
      TabledNext(tables, base, i);
    }
  }

  lemma LandReady(w: World, msg: nat, n: nat, space: nat, base: nat, tables: set<nat>)
    requires Inv(w) && Vacant(w.slots, Space(space), base, base + n)
    requires forall j: nat | j < n :: InMessage(msg, j) in w.slots
    ensures Landed(Seen(Views(w)), msg, space, base, 0, tables) == Seen(Views(w)) && Tabled(tables, base, 0)
    ensures forall t | t in Seen(Views(w)) :: !Within(Space(space), base, base + n, t)
    ensures forall j: nat | j < n :: InMessage(msg, j) in Seen(Views(w))
  {
    VacantView(w, Space(space), base, base + n);
    forall j: nat | j < n ensures InMessage(msg, j) in Seen(Views(w)) { RealSeen(w, InMessage(msg, j)); }
    hide Inv;
  }

  lemma LandedStep(a: map<Slot, View>, msg: nat, space: nat, base: nat, i: nat, n: nat, tables: set<nat>)
    requires i < n && forall t | t in a :: !Within(Space(space), base, base + n, t)
    requires forall j: nat | j < n :: InMessage(msg, j) in a
    ensures var b := Landed(a, msg, space, base, i, tables);
      var s, t := InMessage(msg, i), InSpace(space, base + i);
      && s in b && t !in b
      && Landed(a, msg, space, base, i + 1, tables) ==
        if base + i in tables then (b - {s})[t := Own(b[s].bytes, true)] else b - {s}
  {
    LandedAt(a, msg, space, base, i, tables, InMessage(msg, i));
    LandedAt(a, msg, space, base, i, tables, InSpace(space, base + i));
  }

  /** ipc_recv of a message of n pages, if there is one. Without an address range the frames are freed; if the
      answer cannot be written back they are mapped and unmapped again. A page without a table is lost either way, and
      ipc_recv says nothing of it. */
  method Recv(m: Memory, msg: nat, n: nat, queued: bool, space: nat, base: nat, reserved: bool, tables: set<nat>,
              copied: bool)
    returns (r: Errno)
    requires m.Valid() && (queued && reserved ==> Vacant(m.slots, Space(space), base, base + n))
    requires queued ==> forall j: nat | j < n :: InMessage(msg, j) in m.slots
    modifies m, m.refs
    ensures m.Valid()
    ensures r == OK ==> Seen(Views(m.W())) == Landed(old(Seen(Views(m.W()))), msg, space, base, n, tables)
    ensures r == EAGAIN ==> m.W() == old(m.W())
    ensures r == ENOMEM || r == EFAULT ==> Seen(Views(m.W())) == Cleared(old(Seen(Views(m.W()))), Message(msg), 0, n)
    ensures r == if !queued then EAGAIN else if !reserved then ENOMEM else if !copied then EFAULT else OK
    ensures Leaks(m.W()) == old(Leaks(m.W())) <==> !queued || !reserved || Tabled(tables, base, n)
  {
    hide Views, FrameInv, Landed, Leaks, Cleared, DropRange, Seen, Within, Vacant, Tabled, Fits, Zeroed;
    if !queued {
      return EAGAIN;
    }
    if !reserved {
      ghost var w := m.W();
      DropMessage(m, msg, n);
      SeenCleared(Views(w), Message(msg), 0, n);
      ClearedLeaks(w, m.W(), Message(msg), 0, n);
      return ENOMEM;
    }
    LandReady(m.W(), msg, n, space, base, tables);
    ghost var a := Seen(Views(m.W()));
    LandAll(m, msg, n, space, base, tables);
    if !copied {
      TakeBackAll(m, space, base, n);
      SentBack(a, msg, space, base, n, tables);
      return EFAULT;
    }
    return OK;
  }

  /** task_munmap of what was mapped. */
  method TakeBackAll(m: Memory, space: nat, base: nat, n: nat)
    requires m.Valid()
    modifies m, m.refs
    ensures m.Valid() && Seen(Views(m.W())) == Cleared(old(Seen(Views(m.W()))), Space(space), base, base + n)
    ensures Leaks(m.W()) == old(Leaks(m.W()))
  {
    hide Views, FrameInv, Leaks, Cleared, DropRange, Seen, Fits, Zeroed;
    ghost var w := m.W();
    m.FreeRange(space, base, base + n);
    SeenCleared(Views(w), Space(space), base, base + n);
    ClearedLeaks(w, m.W(), Space(space), base, base + n);
  }

  lemma SeenCleared(a: map<Slot, View>, area: Area, lo: nat, hi: nat)
    requires lo <= hi
    ensures Seen(Cleared(a, area, lo, hi)) == Cleared(Seen(a), area, lo, hi)
  {
    var b, c := Seen(Cleared(a, area, lo, hi)), Cleared(Seen(a), area, lo, hi);
    forall s
      ensures s in b <==> s in c
      ensures s in b && s in c ==> b[s] == c[s]
    {
      ClearedAt(a, area, lo, hi, s);
      ClearedAt(Seen(a), area, lo, hi, s);
    }
  }

  lemma ClearedLeaks(w: World, w': World, area: Area, lo: nat, hi: nat)
    requires Inv(w) && Inv(w') && lo <= hi && Views(w') == Cleared(Views(w), area, lo, hi)
    ensures Leaks(w') == Leaks(w)
  {
    forall s: Slot | s.Lost? ensures s in Views(w') <==> s in Views(w) { ClearedAt(Views(w), area, lo, hi, s); }
    hide Cleared, Views, Inv;
    LeaksSeen(w, w');
  }

  lemma SentBack(a: map<Slot, View>, msg: nat, space: nat, base: nat, n: nat, tables: set<nat>)
    requires forall t | t in a :: !Within(Space(space), base, base + n, t)
    requires forall j: nat | j < n :: InMessage(msg, j) in a
    ensures Cleared(Landed(a, msg, space, base, n, tables), Space(space), base, base + n) ==
      Cleared(a, Message(msg), 0, n)
  {
    var b := Landed(a, msg, space, base, n, tables);
    var c, d := Cleared(b, Space(space), base, base + n), Cleared(a, Message(msg), 0, n);
    forall s
      ensures s in c <==> s in d
      ensures s in c && s in d ==> c[s] == d[s]
    {
      ClearedAt(b, Space(space), base, base + n, s);
      ClearedAt(a, Message(msg), 0, n, s);
      LandedAt(a, msg, space, base, n, tables, s);
    }
  }

  /** ipc_task_cleanup, for one message: its frames are nobody's. */
  method DropMessage(m: Memory, msg: nat, n: nat)
    requires m.Valid() && forall i: nat | i < n :: InMessage(msg, i) in m.slots
    modifies m
    ensures m.Valid() && m.W() == DropRange(old(m.W()), Message(msg), 0, n)
    ensures Views(m.W()) == Cleared(old(Views(m.W())), Message(msg), 0, n)
  {
    ghost var w := m.W();
    hide FrameInv, Views;
    for i := 0 to n
      invariant m.Valid() && m.W() == DropRange(w, Message(msg), 0, i)
      invariant forall j: nat | i <= j < n :: InMessage(msg, j) in m.slots
    {
      ghost var d := m.W();
      var s := InMessage(msg, i);
      assert Fits(s, d.slots[s].kind);
      var f := m.slots[s].frame;
      m.slots := m.slots - {s};
      OneRun(f);
      m.FreePages(f, 1);
      DropKept(d, s);
      assert m.W() == Drop(d, s);
    }
    DropRangeKept(w, Message(msg), 0, n);
  }

  /** Sent and received: the receiver reads, page for page, what the sender had, and the sender has it no more. */
  lemma HandedOver(a: map<Slot, View>, sender: nat, first: nat, msg: nat, receiver: nat, base: nat, n: nat, i: nat)
    requires forall t | t in a :: !Within(Message(msg), 0, n, t) && !Within(Space(receiver), base, base + n, t)
    requires forall j: nat | first <= j < first + n :: InSpace(sender, j) in a
    requires i < n
    ensures var sent := Carried(a, Space(sender), first, Message(msg), 0, n);
      var b := Carried(sent, Message(msg), 0, Space(receiver), base, n);
      && InSpace(receiver, base + i) in b
        && b[InSpace(receiver, base + i)] == Own(a[InSpace(sender, first + i)].bytes, true)
      && InSpace(sender, first + i) !in b && InMessage(msg, i) !in b
  {
    var mid := Carried(a, Space(sender), first, Message(msg), 0, n);
    assert forall j: nat | first <= j < first + n :: At(Space(sender), j) in a;
    forall t ensures t in mid ==> !Within(Space(receiver), base, base + n, t) {
      CarriedAt(a, Space(sender), first, Message(msg), 0, n, t);
    }
    forall j: nat | 0 <= j < 0 + n ensures At(Message(msg), j) in mid {
      CarriedAt(a, Space(sender), first, Message(msg), 0, n, InMessage(msg, j));
    }
    CarriedAt(a, Space(sender), first, Message(msg), 0, n, InMessage(msg, i));
    CarriedAt(a, Space(sender), first, Message(msg), 0, n, InSpace(sender, first + i));
    CarriedAt(mid, Message(msg), 0, Space(receiver), base, n, InSpace(receiver, base + i));
    CarriedAt(mid, Message(msg), 0, Space(receiver), base, n, InSpace(sender, first + i));
    CarriedAt(mid, Message(msg), 0, Space(receiver), base, n, InMessage(msg, i));
  }
}
