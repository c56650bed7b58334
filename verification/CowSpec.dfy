/** Who holds which frame, and what each address space reads (kernel/src/mm/paging.c, kernel/src/mm/cow.c,
    kernel/src/ipc/shm.c, kernel/src/ipc/zero_copy.c). Page tables are maps from page numbers to entries. */
module CowSpec {
  import opened Collections

  type Frame = nat
  type Bytes = seq<bv8>

  /** Everything that can hold a frame. */
  datatype Slot =
    | InSpace(space: nat, page: nat)      // a page table entry
    | InMessage(msg: nat, index: nat)     // phys_pages of a queued message
    | InObject(id: nat, index: nat)       // frames of a shared memory object
    | Lost(leak: nat)                     // nothing at all: a reference that nobody can give back any more

  datatype Kind =
    | Private(writable: bool)             // neither PTE_COW nor PTE_SHARED nor PTE_NOFREE
    | Cow                                 // PTE_COW, and so never writable
    | Shared                              // PTE_SHARED
    | Device                              // PTE_NOFREE: not memory at all
    | InFlight                            // in a message
    | Held                                // in a shared memory object

  datatype Entry = Entry(frame: Frame, kind: Kind)

  datatype World = World(
    slots: map<Slot, Entry>,
    ready: bool,                          // whether there is a table of reference counts
    refs: seq<nat>,                       // the reference counts, by frame; all zero without one
    live: set<Frame>,                     // allocated user frames
    mem: seq<Bytes>,                      // contents, by frame
    device: map<Frame, Bytes>)

  predicate Counted(k: Kind) { k == Cow || k == Shared || k == Held }

  predicate Sole(k: Kind) { k.Private? || k == InFlight }

  /** Which kinds of holder there may be in which place. */
  predicate Fits(s: Slot, k: Kind) {
    match s
    case InSpace(_, _) => k != InFlight && k != Held
    case InMessage(_, _) => k == InFlight
    case InObject(_, _) => k == Held
    case Lost(_) => k == Private(true) || k == Shared
  }

  ghost function CountedBy(w: World, f: Frame): set<Slot> {
    set s | s in w.slots && w.slots[s].frame == f && Counted(w.slots[s].kind)
  }

  ghost function SoleBy(w: World, f: Frame): set<Slot> {
    set s | s in w.slots && w.slots[s].frame == f && Sole(w.slots[s].kind)
  }

  ghost predicate AllCow(w: World, f: Frame) {
    forall s | s in CountedBy(w, f) :: w.slots[s].kind == Cow
  }

  ghost predicate NoneCow(w: World, f: Frame) {
    forall s | s in CountedBy(w, f) :: w.slots[s].kind != Cow
  }

  /** A live frame has exactly one private holder and no counted one, or only counted ones, all copy-on-write or
      all sharing; its count is their number. A free frame has no holder. */
  ghost predicate FrameInv(w: World, f: Frame)
    requires f < |w.refs|
  {
    && w.refs[f] == |CountedBy(w, f)|
    && (f in w.live ==> if CountedBy(w, f) == {} then |SoleBy(w, f)| == 1 else SoleBy(w, f) == {})
    && (f !in w.live ==> CountedBy(w, f) == {} && SoleBy(w, f) == {})
    && (AllCow(w, f) || NoneCow(w, f))
  }

  /** Without a table nothing is counted. */
  predicate Zeroed(w: World) { !w.ready ==> forall f: nat | f < |w.refs| :: w.refs[f] == 0 }

  ghost predicate Inv(w: World) {
    && |w.mem| == |w.refs| && Zeroed(w)
    && (forall f | f in w.live :: f < |w.refs|)
    && (forall s | s in w.slots ::
      Fits(s, w.slots[s].kind)
      && (w.slots[s].kind != Device ==> w.slots[s].frame < |w.refs|))
    && (forall f: nat | f < |w.refs| :: FrameInv(w, f))
  }

  // ---------------------------------------------------------------- what is read

  datatype View =
    | Own(bytes: Bytes, writable: bool)         // a page of one's own
    | Sent(bytes: Bytes)
    | Common(frame: Frame, bytes: Bytes)        // shared memory
    | Io(frame: Frame, bytes: Bytes)            // a device

  ghost predicate Bounded(w: World) {
    forall s | s in w.slots && w.slots[s].kind != Device :: w.slots[s].frame < |w.mem|
  }

  function DeviceBytes(w: World, f: Frame): Bytes {
    if f in w.device then w.device[f] else []
  }

  ghost function ViewOf(w: World, s: Slot): View
    requires s in w.slots && Bounded(w)
  {
    var e := w.slots[s];
    match e.kind
    case Private(wr) => Own(w.mem[e.frame], wr)
    case Cow => Own(w.mem[e.frame], true)
    case InFlight => Sent(w.mem[e.frame])
    case Shared => Common(e.frame, w.mem[e.frame])
    case Held => Common(e.frame, w.mem[e.frame])
    case Device => Io(e.frame, DeviceBytes(w, e.frame))
  }

  /** What everyone reads: the world as it would be if every copy had been made at once. */
  ghost function Views(w: World): map<Slot, View>
    requires Bounded(w)
  {
    map s | s in w.slots :: ViewOf(w, s)
  }

  // ---------------------------------------------------------------- counting holders

  /** The two worlds differ in no slot but s. */
  ghost predicate Elsewhere(w: World, w': World, s: Slot) {
    && w'.slots.Keys - {s} == w.slots.Keys - {s}
    && forall t | t in w.slots && t in w'.slots && t != s :: w'.slots[t] == w.slots[t]
  }

  predicate CountedIn(w: World, s: Slot, f: Frame) {
    s in w.slots && w.slots[s].frame == f && Counted(w.slots[s].kind)
  }

  predicate SoleIn(w: World, s: Slot, f: Frame) {
    s in w.slots && w.slots[s].frame == f && Sole(w.slots[s].kind)
  }

  /** Changing what is in one slot changes the holders of a frame by at most that slot. */
  lemma HoldersAfter(w: World, w': World, s: Slot, f: Frame)
    requires Elsewhere(w, w', s)
    ensures CountedBy(w', f) == CountedBy(w, f) - {s} + (if CountedIn(w', s, f) then {s} else {})
    ensures SoleBy(w', f) == SoleBy(w, f) - {s} + (if SoleIn(w', s, f) then {s} else {})
    ensures |CountedBy(w', f)| ==
      |CountedBy(w, f)| - (if CountedIn(w, s, f) then 1 else 0) + (if CountedIn(w', s, f) then 1 else 0)
    ensures |SoleBy(w', f)| == |SoleBy(w, f)| - (if SoleIn(w, s, f) then 1 else 0) + (if SoleIn(w', s, f) then 1 else 0)
  {
    SetsAfter(w, w', s, f);
    assert CountedIn(w, s, f) <==> s in CountedBy(w, f);
    assert SoleIn(w, s, f) <==> s in SoleBy(w, f);
    SizeAfter(CountedBy(w, f), s, CountedIn(w', s, f));
    SizeAfter(SoleBy(w, f), s, SoleIn(w', s, f));
    hide Elsewhere;
  }

  lemma SetsAfter(w: World, w': World, s: Slot, f: Frame)
    requires Elsewhere(w, w', s)
    ensures CountedBy(w', f) == CountedBy(w, f) - {s} + (if CountedIn(w', s, f) then {s} else {})
    ensures SoleBy(w', f) == SoleBy(w, f) - {s} + (if SoleIn(w', s, f) then {s} else {})
  {
    forall t
      ensures t in CountedBy(w', f) <==> t in CountedBy(w, f) - {s} + (if CountedIn(w', s, f) then {s} else {})
      ensures t in SoleBy(w', f) <==> t in SoleBy(w, f) - {s} + (if SoleIn(w', s, f) then {s} else {})
    {
      assert t != s ==> (t in w.slots.Keys - {s} <==> t in w.slots) && (t in w'.slots.Keys - {s} <==> t in w'.slots);
    }
  }

  lemma KindsAfter(w: World, w': World, s: Slot, f: Frame)
    requires Elsewhere(w, w', s)
    ensures AllCow(w, f) && (CountedIn(w', s, f) ==> w'.slots[s].kind == Cow) ==> AllCow(w', f)
    ensures NoneCow(w, f) && (CountedIn(w', s, f) ==> w'.slots[s].kind != Cow) ==> NoneCow(w', f)
    ensures CountedBy(w, f) - {s} == {} ==> AllCow(w', f) || NoneCow(w', f)
  {
    SetsAfter(w, w', s, f);
    forall t | t in CountedBy(w', f) && t != s
      ensures t in CountedBy(w, f) && t in w.slots && w'.slots[t] == w.slots[t]
    {}
  }

  lemma SameSets(w: World, w': World, s: Slot, g: Frame)
    requires Elsewhere(w, w', s)
    requires !CountedIn(w, s, g) && !SoleIn(w, s, g) && !CountedIn(w', s, g) && !SoleIn(w', s, g)
    ensures CountedBy(w', g) == CountedBy(w, g) && SoleBy(w', g) == SoleBy(w, g)
  {
    SetsAfter(w, w', s, g);
    assert s !in CountedBy(w, g) && s !in SoleBy(w, g);
    hide CountedBy, SoleBy, Elsewhere;
  }

  /** The frames that are not touched keep their holders. */
  lemma FrameSame(w: World, w': World, s: Slot, g: Frame)
    requires Elsewhere(w, w', s) && g < |w.refs| == |w'.refs| && FrameInv(w, g)
    requires !CountedIn(w, s, g) && !SoleIn(w, s, g) && !CountedIn(w', s, g) && !SoleIn(w', s, g)
    requires w'.refs[g] == w.refs[g] && (g in w'.live <==> g in w.live)
    ensures FrameInv(w', g)
  {
    hide CountedBy, SoleBy, AllCow, NoneCow, CountedIn, SoleIn, Elsewhere;
    SameSets(w, w', s, g);
    KindsAfter(w, w', s, g);
  }

  predicate SlotOk(w: World, s: Slot) {
    s in w.slots ==> Fits(s, w.slots[s].kind) && (w.slots[s].kind != Device ==> w.slots[s].frame < |w.refs|)
  }

  /** A change of one slot that is right for the frames it touches is right. */
  lemma Change(w: World, w': World, s: Slot, touched: set<Frame>)
    requires Inv(w) && Elsewhere(w, w', s) && |w'.refs| == |w'.mem| == |w.refs| && SlotOk(w', s) && Zeroed(w')
    requires forall f | f in w'.live :: f < |w.refs|
    requires forall g: nat | g < |w.refs| && g !in touched :: w'.refs[g] == w.refs[g] && (g in w'.live <==> g in w.live)
    requires s in w.slots && w.slots[s].kind != Device ==> w.slots[s].frame in touched
    requires s in w'.slots && w'.slots[s].kind != Device ==> w'.slots[s].frame in touched
    requires forall g | g in touched :: g < |w.refs| && FrameInv(w', g)
    ensures Inv(w')
  {
    forall g: nat | g < |w.refs| && g !in touched ensures FrameInv(w', g) {
      assert FrameInv(w, g);
      FrameSame(w, w', s, g);
    }
    assert forall g: nat | g < |w'.refs| :: FrameInv(w', g);
    forall t | t in w'.slots
      ensures Fits(t, w'.slots[t].kind) && (w'.slots[t].kind != Device ==> w'.slots[t].frame < |w'.refs|)
    {
      assert t != s ==> t in w'.slots.Keys - {s};
    }
    hide FrameInv, CountedBy, SoleBy, Fits;
  }

  /** What is read in the other slots changes only if memory does. */
  lemma ViewsAfter(w: World, w': World, s: Slot)
    requires Bounded(w) && Bounded(w') && Elsewhere(w, w', s) && w'.device == w.device && |w.mem| == |w'.mem|
    requires forall t | t in w.slots && t != s && w.slots[t].kind != Device ::
      w'.mem[w.slots[t].frame] == w.mem[w.slots[t].frame]
    ensures s in w'.slots ==> Views(w') == Views(w)[s := ViewOf(w', s)]
    ensures s !in w'.slots ==> Views(w') == Views(w) - {s}
  {
    hide ViewOf, Elsewhere;
    forall t | t != s && (t in w.slots || t in w'.slots)
      ensures t in w.slots && t in w'.slots && ViewOf(w', t) == ViewOf(w, t)
    {
      SameView(w, w', s, t);
    }
  }

  lemma SameView(w: World, w': World, s: Slot, t: Slot)
    requires Bounded(w) && Bounded(w') && Elsewhere(w, w', s) && w'.device == w.device && |w.mem| == |w'.mem|
    requires t in w.slots && t != s && w.slots[t].kind != Device ==> w'.mem[w.slots[t].frame] == w.mem[w.slots[t].frame]
    requires t != s && (t in w.slots || t in w'.slots)
    ensures t in w.slots && t in w'.slots && ViewOf(w', t) == ViewOf(w, t)
  {
    assert t in w.slots ==> t in w.slots.Keys - {s};
    assert t in w'.slots ==> t in w'.slots.Keys - {s};
  }

  lemma OnlySole(w: World, s: Slot)
    requires Inv(w) && s in w.slots && Sole(w.slots[s].kind)
    ensures var f := w.slots[s].frame;
      && f in w.live && SoleBy(w, f) == {s} && CountedBy(w, f) == {} && w.refs[f] == 0
      && AllCow(w, f) && NoneCow(w, f)
  {
    var f := w.slots[s].frame;
    assert FrameInv(w, f) && s in SoleBy(w, f);
    assert |SoleBy(w, f) - {s}| == 0;
  }

  lemma OnlyCounted(w: World, s: Slot)
    requires Inv(w) && s in w.slots && Counted(w.slots[s].kind)
    ensures var f := w.slots[s].frame;
      && f in w.live && SoleBy(w, f) == {} && s in CountedBy(w, f) && w.refs[f] == |CountedBy(w, f)| >= 1 && w.ready
      && (w.refs[f] == 1 ==> CountedBy(w, f) - {s} == {})
      && (if w.slots[s].kind == Cow then AllCow(w, f) else NoneCow(w, f))
  {
    var f := w.slots[s].frame;
    assert FrameInv(w, f) && s in CountedBy(w, f);
    assert |CountedBy(w, f) - {s}| == |CountedBy(w, f)| - 1;
  }

  lemma Replaced(w: World, w': World, s: Slot)
    requires w'.slots == w.slots - {s} || (s in w'.slots && w'.slots == w.slots[s := w'.slots[s]])
    ensures Elsewhere(w, w', s)
  {}

  /** Slot s is now the one private holder of f. */
  lemma SoleNow(w: World, w': World, s: Slot, f: Frame)
    requires Elsewhere(w, w', s) && f < |w'.refs| && SoleIn(w', s, f) && f in w'.live && w'.refs[f] == 0
    requires CountedBy(w, f) - {s} == {} && SoleBy(w, f) - {s} == {}
    ensures FrameInv(w', f)
  {
    hide CountedBy, SoleBy, AllCow, NoneCow, Elsewhere;
    SetsAfter(w, w', s, f);
    KindsAfter(w, w', s, f);
    assert CountedBy(w', f) == {} && SoleBy(w', f) == {s};
  }

  /** Slot s is now one of the counted holders of f. */
  lemma CountedNow(w: World, w': World, s: Slot, f: Frame)
    requires Elsewhere(w, w', s) && f < |w'.refs| && CountedIn(w', s, f) && f in w'.live
    requires SoleBy(w, f) - {s} == {} && !CountedIn(w, s, f) && w'.refs[f] == |CountedBy(w, f)| + 1
    requires if w'.slots[s].kind == Cow then AllCow(w, f) else NoneCow(w, f)
    ensures FrameInv(w', f)
  {
    hide CountedBy, SoleBy, AllCow, NoneCow, Elsewhere;
    HoldersAfter(w, w', s, f);
    KindsAfter(w, w', s, f);
    assert s in CountedBy(w', f) && SoleBy(w', f) == {};
  }

  /** Slot s, one of the counted holders of f, has gone. */
  lemma CountedGone(w: World, w': World, s: Slot, f: Frame)
    requires Elsewhere(w, w', s) && f < |w.refs| == |w'.refs| && FrameInv(w, f) && f in w.live
    requires CountedIn(w, s, f) && !CountedIn(w', s, f) && !SoleIn(w', s, f) && s in CountedBy(w, f)
    requires w'.refs[f] == w.refs[f] - 1 && (f in w'.live <==> w'.refs[f] > 0)
    ensures FrameInv(w', f)
  {
    hide CountedBy, SoleBy, AllCow, NoneCow, Elsewhere;
    HoldersAfter(w, w', s, f);
    KindsAfter(w, w', s, f);
    assert SoleBy(w', f) == {};
  }

  /** Slot s, the private holder of f, has gone. */
  lemma SoleGone(w: World, w': World, s: Slot, f: Frame)
    requires Elsewhere(w, w', s) && f < |w'.refs| && SoleBy(w, f) - {s} == {} && CountedBy(w, f) == {}
    requires !CountedIn(w', s, f) && !SoleIn(w', s, f) && w'.refs[f] == 0 && f !in w'.live
    ensures FrameInv(w', f)
  {
    hide CountedBy, SoleBy, AllCow, NoneCow, Elsewhere;
    SetsAfter(w, w', s, f);
    KindsAfter(w, w', s, f);
    assert CountedBy(w', f) == {} && SoleBy(w', f) == {};
  }

  // ---------------------------------------------------------------- the elementary changes

  predicate Free(w: World, f: Frame) { f < |w.refs| && f !in w.live }

  /** A fresh frame for one holder. */
  function NewSole(w: World, s: Slot, f: Frame, k: Kind, bytes: Bytes): World
    requires f < |w.mem|
  {
    w.(slots := w.slots[s := Entry(f, k)], live := w.live + {f}, mem := w.mem[f := bytes])
  }

  lemma NewSoleKept(w: World, s: Slot, f: Frame, k: Kind, bytes: Bytes)
    requires Inv(w) && s !in w.slots && Free(w, f) && Sole(k) && Fits(s, k)
    ensures var w' := NewSole(w, s, f, k, bytes);
      Inv(w') && Views(w') == Views(w)[s := if k == InFlight then Sent(bytes) else Own(bytes, k.writable)]
  {
    hide FrameInv, CountedBy, SoleBy, AllCow, NoneCow, Elsewhere;
    var w' := NewSole(w, s, f, k, bytes);
    Unheld(w, f);
    Replaced(w, w', s);
    SoleNow(w, w', s, f);
    Change(w, w', s, {f});
    ViewsAfter(w, w', s);
  }

  /** Nobody holds a free frame. */
  lemma Unheld(w: World, f: Frame)
    requires Inv(w) && Free(w, f)
    ensures CountedBy(w, f) == {} && SoleBy(w, f) == {} && AllCow(w, f) && NoneCow(w, f) && w.refs[f] == 0
    ensures forall s | s in w.slots && w.slots[s].kind != Device :: w.slots[s].frame != f
  {
    assert FrameInv(w, f);
    forall s | s in w.slots && w.slots[s].kind != Device ensures w.slots[s].frame != f {
      assert s !in CountedBy(w, f) && s !in SoleBy(w, f);
    }
  }

  /** A fresh frame for a shared memory object. */
  function NewHeld(w: World, s: Slot, f: Frame, bytes: Bytes): World
    requires f < |w.mem| == |w.refs|
  {
    w.(slots := w.slots[s := Entry(f, Held)], live := w.live + {f}, mem := w.mem[f := bytes], refs := w.refs[f := 1])
  }

  lemma NewHeldKept(w: World, s: Slot, f: Frame, bytes: Bytes)
    requires Inv(w) && s !in w.slots && Free(w, f) && s.InObject? && w.ready
    ensures Inv(NewHeld(w, s, f, bytes)) && Views(NewHeld(w, s, f, bytes)) == Views(w)[s := Common(f, bytes)]
  {
    hide FrameInv, CountedBy, SoleBy, AllCow, NoneCow, Elsewhere;
    var w' := NewHeld(w, s, f, bytes);
    Unheld(w, f);
    Replaced(w, w', s);
    CountedNow(w, w', s, f);
    Change(w, w', s, {f});
    ViewsAfter(w, w', s);
  }

  /** cow_ref_page, which does nothing without a table. */
  function Ref(w: World, f: Frame): seq<nat>
    requires f < |w.refs|
  {
    if w.ready then w.refs[f := w.refs[f] + 1] else w.refs
  }

  /** One more counted holder of the frame in slot t. */
  function Join(w: World, s: Slot, t: Slot, k: Kind): World
    requires t in w.slots && w.slots[t].frame < |w.refs|
  {
    var f := w.slots[t].frame;
    w.(slots := w.slots[s := Entry(f, k)], refs := Ref(w, f))
  }

  lemma JoinKept(w: World, s: Slot, t: Slot, k: Kind)
    requires Inv(w) && s !in w.slots && t in w.slots && Counted(w.slots[t].kind) && Fits(s, k)
    requires k == if w.slots[t].kind == Cow then Cow else Shared
    ensures Inv(Join(w, s, t, k)) && Views(Join(w, s, t, k)) == Views(w)[s := ViewOf(w, t)]
  {
    hide FrameInv, CountedBy, SoleBy, AllCow, NoneCow, Elsewhere;
    var w' := Join(w, s, t, k);
    var f := w.slots[t].frame;
    OnlyCounted(w, t);
    Replaced(w, w', s);
    CountedNow(w, w', s, f);
    Change(w, w', s, {f});
    ViewsAfter(w, w', s);
  }

  /** fork takes write access to a private page away from its owner. */
  function Demote(w: World, s: Slot): World
    requires s in w.slots && w.slots[s].frame < |w.refs|
  {
    var f := w.slots[s].frame;
    w.(slots := w.slots[s := Entry(f, Cow)], refs := Ref(w, f))
  }

  lemma DemoteKept(w: World, s: Slot)
    requires Inv(w) && s in w.slots && s.InSpace? && w.slots[s].kind == Private(true) && w.ready
    ensures Inv(Demote(w, s)) && Views(Demote(w, s)) == Views(w)
  {
    hide FrameInv, CountedBy, SoleBy, AllCow, NoneCow, Elsewhere;
    var w' := Demote(w, s);
    var f := w.slots[s].frame;
    OnlySole(w, s);
    Replaced(w, w', s);
    CountedNow(w, w', s, f);
    Change(w, w', s, {f});
    ViewsAfter(w, w', s);
  }

  function Unref(refs: seq<nat>, f: Frame): seq<nat>
    requires f < |refs|
  {
    if refs[f] > 0 then refs[f := refs[f] - 1] else refs
  }

  /** A holder goes; the last one frees the frame. */
  function Drop(w: World, s: Slot): World
    requires s in w.slots && (w.slots[s].kind != Device ==> w.slots[s].frame < |w.refs|)
  {
    var e := w.slots[s];
    var gone := w.(slots := w.slots - {s});
    if e.kind == Device then gone
    else if Sole(e.kind) then gone.(live := w.live - {e.frame})
    else
      var refs := Unref(w.refs, e.frame);
      gone.(refs := refs, live := if refs[e.frame] == 0 then w.live - {e.frame} else w.live)
  }

  lemma DropKept(w: World, s: Slot)
    requires Inv(w) && s in w.slots
    ensures Inv(Drop(w, s)) && Views(Drop(w, s)) == Views(w) - {s}
  {
    hide FrameInv, CountedBy, SoleBy, AllCow, NoneCow, Elsewhere;
    var w' := Drop(w, s);
    var e := w.slots[s];
    Replaced(w, w', s);
    if Sole(e.kind) {
      OnlySole(w, s);
      SoleGone(w, w', s, e.frame);
    }
    if Counted(e.kind) {
      OnlyCounted(w, s);
      CountedGone(w, w', s, e.frame);
    }
    Change(w, w', s, if e.kind == Device then {} else {e.frame});
    ViewsAfter(w, w', s);
  }

  /** The last holder of a copy-on-write frame takes it back. */
  function TakeBack(w: World, s: Slot): World
    requires s in w.slots && w.slots[s].frame < |w.refs|
  {
    var f := w.slots[s].frame;
    w.(slots := w.slots[s := Entry(f, Private(true))], refs := Unref(w.refs, f))
  }

  lemma TakeBackKept(w: World, s: Slot)
    requires Inv(w) && s in w.slots && w.slots[s].kind == Cow && w.refs[w.slots[s].frame] <= 1
    ensures Inv(TakeBack(w, s)) && Views(TakeBack(w, s)) == Views(w)
  {
    hide FrameInv, CountedBy, SoleBy, AllCow, NoneCow, Elsewhere;
    var w' := TakeBack(w, s);
    var f := w.slots[s].frame;
    OnlyCounted(w, s);
    Replaced(w, w', s);
    SoleNow(w, w', s, f);
    Change(w, w', s, {f});
    ViewsAfter(w, w', s);
  }

  /** Any other holder gets a copy in a fresh frame n. */
  function CopyOut(w: World, s: Slot, n: Frame): World
    requires s in w.slots && w.slots[s].frame < |w.refs| == |w.mem| && n < |w.mem|
  {
    var f := w.slots[s].frame;
    w.(slots := w.slots[s := Entry(n, Private(true))], refs := Unref(w.refs, f), live := w.live + {n},
       mem := w.mem[n := w.mem[f]])
  }

  lemma CopyOutKept(w: World, s: Slot, n: Frame)
    requires Inv(w) && s in w.slots && w.slots[s].kind == Cow && w.refs[w.slots[s].frame] > 1 && Free(w, n)
    ensures Inv(CopyOut(w, s, n)) && Views(CopyOut(w, s, n)) == Views(w)
  {
    hide FrameInv, CountedBy, SoleBy, AllCow, NoneCow, Elsewhere;
    var w' := CopyOut(w, s, n);
    var f := w.slots[s].frame;
    OnlyCounted(w, s);
    Unheld(w, n);
    Replaced(w, w', s);
    CountedGone(w, w', s, f);
    SoleNow(w, w', s, n);
    Change(w, w', s, {f, n});
    ViewsAfter(w, w', s);
  }

  /** A private page changes hands. */
  function Move(w: World, s: Slot, t: Slot, k: Kind): World
    requires s in w.slots
  {
    w.(slots := (w.slots - {s})[t := Entry(w.slots[s].frame, k)])
  }

  lemma MoveKept(w: World, s: Slot, t: Slot, k: Kind)
    requires Inv(w) && s in w.slots && t !in w.slots && Sole(w.slots[s].kind) && Sole(k) && Fits(t, k)
    ensures Inv(Move(w, s, t, k))
    ensures Views(Move(w, s, t, k)) ==
      (Views(w) - {s})[t := var b := ViewOf(w, s).bytes; if k == InFlight then Sent(b) else Own(b, k.writable)]
  {
    hide FrameInv, CountedBy, SoleBy, AllCow, NoneCow, Elsewhere;
    DropKept(w, s);
    var f := w.slots[s].frame;
    OnlySole(w, s);
    NewSoleKept(Drop(w, s), t, f, k, w.mem[f]);
    assert w.live - {f} + {f} == w.live && w.mem[f := w.mem[f]] == w.mem;
  }

  function Poked(b: Bytes, off: nat, v: bv8): Bytes {
    if off < |b| then b[off := v] else b
  }

  /** A store the hardware lets through: the entry is writable. */
  predicate Writable(k: Kind) { k == Private(true) || k == Shared || k == Device }

  function Poke(w: World, s: Slot, off: nat, v: bv8): World
    requires s in w.slots && (w.slots[s].kind != Device ==> w.slots[s].frame < |w.mem|)
  {
    var f := w.slots[s].frame;
    if w.slots[s].kind == Device then w.(device := w.device[f := Poked(DeviceBytes(w, f), off, v)])
    else w.(mem := w.mem[f := Poked(w.mem[f], off, v)])
  }

  /** The same store where nobody shares anything except what is meant to be common. */
  ghost function PokeView(a: map<Slot, View>, s: Slot, off: nat, v: bv8): map<Slot, View>
    requires s in a
  {
    match a[s]
    case Own(b, wr) => a[s := Own(Poked(b, off, v), wr)]
    case Sent(b) => a
    case Common(f, b) => map t | t in a :: if a[t].Common? && a[t].frame == f then Common(f, Poked(b, off, v)) else a[t]
    case Io(f, b) => map t | t in a :: if a[t].Io? && a[t].frame == f then Io(f, Poked(b, off, v)) else a[t]
  }

  lemma PokeKept(w: World, s: Slot, off: nat, v: bv8)
    requires Inv(w) && s in w.slots && Writable(w.slots[s].kind)
    ensures Inv(Poke(w, s, off, v)) && Views(Poke(w, s, off, v)) == PokeView(Views(w), s, off, v)
  {
    hide FrameInv;
    var w' := Poke(w, s, off, v);
    SameHolders(w, w');
    forall t | t in w.slots ensures ViewOf(w', t) == PokeView(Views(w), s, off, v)[t] { PokeAt(w, s, off, v, t); }
    assert Views(w').Keys == PokeView(Views(w), s, off, v).Keys;
    hide ViewOf, PokeView;
  }

  lemma PokeAt(w: World, s: Slot, off: nat, v: bv8, t: Slot)
    requires Inv(w) && s in w.slots && Writable(w.slots[s].kind) && t in w.slots
    ensures Bounded(Poke(w, s, off, v)) && t in PokeView(Views(w), s, off, v)
    ensures ViewOf(Poke(w, s, off, v), t) == PokeView(Views(w), s, off, v)[t]
  {
    hide FrameInv;
    if w.slots[s].kind.Private? {
      NobodyElse(w, s);
    } else if w.slots[s].kind == Shared {
      SharedApart(w, s);
    }
  }

  /** Nobody else can see the frame of a private page. */
  lemma NobodyElse(w: World, s: Slot)
    requires Inv(w) && s in w.slots && Sole(w.slots[s].kind)
    ensures forall t | t in w.slots && t != s && w.slots[t].kind != Device :: w.slots[t].frame != w.slots[s].frame
  {
    OnlySole(w, s);
    var f := w.slots[s].frame;
    forall t | t in w.slots && t != s && w.slots[t].kind != Device ensures w.slots[t].frame != f {
      assert t !in SoleBy(w, f) && t !in CountedBy(w, f);
    }
  }

  lemma SameHolders(w: World, w': World)
    requires Inv(w) && w'.slots == w.slots && w'.refs == w.refs && w'.live == w.live && |w'.mem| == |w.mem|
    requires w.ready ==> w'.ready
    ensures Inv(w')
  {
    forall f: nat | f < |w.refs| ensures FrameInv(w', f) {
      assert FrameInv(w, f) && CountedBy(w', f) == CountedBy(w, f) && SoleBy(w', f) == SoleBy(w, f);
      assert AllCow(w', f) == AllCow(w, f) && NoneCow(w', f) == NoneCow(w, f);
    }
  }

  /** The holders of a frame of shared memory all share it. */
  lemma SharedApart(w: World, s: Slot)
    requires Inv(w) && s in w.slots && w.slots[s].kind == Shared
    ensures forall t | t in w.slots && w.slots[t].frame == w.slots[s].frame && w.slots[t].kind != Device ::
      w.slots[t].kind == Shared || w.slots[t].kind == Held
  {
    var f := w.slots[s].frame;
    OnlyCounted(w, s);
    assert FrameInv(w, f);
    forall t | t in w.slots && w.slots[t].frame == f && w.slots[t].kind != Device
      ensures w.slots[t].kind == Shared || w.slots[t].kind == Held
    {
      assert t !in SoleBy(w, f);
      assert t in CountedBy(w, f);
    }
  }

  /** A device page, which no frame stands behind. */
  function PutDevice(w: World, s: Slot, f: Frame): World {
    w.(slots := w.slots[s := Entry(f, Device)])
  }

  lemma PutDeviceKept(w: World, s: Slot, f: Frame)
    requires Inv(w) && s !in w.slots && s.InSpace?
    ensures Inv(PutDevice(w, s, f)) && Views(PutDevice(w, s, f)) == Views(w)[s := Io(f, DeviceBytes(w, f))]
  {
    hide FrameInv, CountedBy, SoleBy, AllCow, NoneCow, Elsewhere;
    var w' := PutDevice(w, s, f);
    Replaced(w, w', s);
    Change(w, w', s, {});
    ViewsAfter(w, w', s);
  }
}
