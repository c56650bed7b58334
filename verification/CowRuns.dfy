/** Runs of the memory operations, page by page and in any order: copying on write reads like copying at once if there
    is a table of reference counts, a frame is freed exactly when its last holder goes, and which frames are lost. */
module CowRuns {
  import opened CowSpec

  datatype Op =
    | Clone(from: Slot, to: Slot, spare: Frame)       // one page of paging_clone_walk
    | Fault(at: Slot, spare: Frame)                   // paging_handle_cow_fault
    | Store(at: Slot, off: nat, value: bv8)           // a user's store
    | Unmap(at: Slot)                                 // munmap, exit, destroying an object, dropping a message
    | Back(at: Slot, spare: Frame, bytes: Bytes)      // a fresh private page
    | Create(at: Slot, spare: Frame, bytes: Bytes)    // a fresh frame of a shared memory object
    | Attach(to: Slot, from: Slot)                    // shm_map; to nowhere if no page table can be had
    | Pass(from: Slot, to: Slot)                      // ipc_send_pages, ipc_recv; the latter to nowhere likewise
    | Table                                           // cow_init has got its table

  predicate Enabled(w: World, op: Op) {
    match op
    case Clone(s, t, n) =>
      s in w.slots && s.InSpace? && t !in w.slots && t.InSpace? && (w.slots[s].kind == Private(false) ==> Free(w, n))
    case Fault(s, n) =>
      && s in w.slots && s.InSpace? && w.slots[s].kind == Cow && w.slots[s].frame < |w.refs|
      && (w.refs[w.slots[s].frame] > 1 ==> Free(w, n))
    case Store(s, _, _) => s in w.slots && !s.Lost? && Writable(w.slots[s].kind)
    case Unmap(s) => s in w.slots && !s.Lost?
    case Back(s, n, _) => s !in w.slots && s.InSpace? && Free(w, n)
    case Create(s, n, _) => s !in w.slots && s.InObject? && Free(w, n) && w.ready
    case Attach(t, s) => t !in w.slots && (t.InSpace? || t.Lost?) && s in w.slots && w.slots[s].kind == Held
    case Pass(s, t) =>
      && s in w.slots && t !in w.slots && Sole(w.slots[s].kind)
      && ((s.InSpace? && t.InMessage?) || (s.InMessage? && (t.InSpace? || t.Lost?)))
    case Table => !w.ready
  }

  /** Every entry is of a kind that belongs there, and names a frame there is. */
  ghost predicate Shape(w: World) {
    |w.mem| == |w.refs| && Bounded(w) && forall s | s in w.slots :: Fits(s, w.slots[s].kind)
  }

  lemma InvShape(w: World)
    requires Inv(w)
    ensures Shape(w)
  {}

  /** The kind of the new holder when a page is passed on. */
  function Passed(t: Slot): Kind { if t.InMessage? then InFlight else Private(true) }

  function ClonePage(w: World, s: Slot, t: Slot, n: Frame): World
    requires |w.mem| == |w.refs| && Enabled(w, Clone(s, t, n))
    requires w.slots[s].kind != Device ==> w.slots[s].frame < |w.refs|
  {
    match w.slots[s].kind
    case Device => PutDevice(w, t, w.slots[s].frame)
    case Shared => Join(w, t, s, Shared)
    case Cow => Join(w, t, s, Cow)
    case Private(true) => Join(Demote(w, s), t, s, Cow)
    case _ => if Free(w, n) then NewSole(w, t, n, Private(false), w.mem[w.slots[s].frame]) else w
  }

  function CowFault(w: World, s: Slot, n: Frame): World
    requires |w.mem| == |w.refs| && Enabled(w, Fault(s, n))
  {
    if w.refs[w.slots[s].frame] > 1 then CopyOut(w, s, n) else TakeBack(w, s)
  }

  ghost function Do(w: World, op: Op): World
    requires Shape(w) && Enabled(w, op)
  {
    match op
    case Clone(s, t, n) => ClonePage(w, s, t, n)
    case Fault(s, n) => CowFault(w, s, n)
    case Store(s, off, v) => Poke(w, s, off, v)
    case Unmap(s) => Drop(w, s)
    case Back(s, n, b) => NewSole(w, s, n, Private(true), b)
    case Create(s, n, b) => NewHeld(w, s, n, b)
    case Attach(t, s) => Join(w, t, s, Shared)
    case Pass(s, t) => Move(w, s, t, Passed(t))
    case Table => w.(ready := true)
  }

  lemma DoShape(w: World, op: Op)
    requires Shape(w) && Enabled(w, op)
    ensures Shape(Do(w, op)) && |Do(w, op).refs| == |w.refs|
  {
    match op
    case Clone(s, t, n) => CloneShape(w, s, t, n);
    case Fault(s, n) => FaultShape(w, s, n);
    case Unmap(s) => hide Passed, Poke, Join, Move, ClonePage, CowFault;
    case Attach(t, s) => JoinShape(w, t, s, Shared);
    case Pass(s, t) => MoveShape(w, s, t, Passed(t));
    case _ => hide Passed, Join, Move, ClonePage, CowFault;
  }

  lemma JoinShape(w: World, t: Slot, s: Slot, k: Kind)
    requires Shape(w) && s in w.slots && w.slots[s].frame < |w.refs| && Fits(t, k)
    ensures Shape(Join(w, t, s, k)) && |Join(w, t, s, k).refs| == |w.refs|
  {}

  lemma MoveShape(w: World, s: Slot, t: Slot, k: Kind)
    requires Shape(w) && s in w.slots && w.slots[s].frame < |w.refs| && Fits(t, k)
    ensures Shape(Move(w, s, t, k)) && |Move(w, s, t, k).refs| == |w.refs|
  {}

  lemma CloneShape(w: World, s: Slot, t: Slot, n: Frame)
    requires Shape(w) && Enabled(w, Clone(s, t, n))
    ensures Shape(ClonePage(w, s, t, n)) && |ClonePage(w, s, t, n).refs| == |w.refs|
  {
    if w.slots[s].kind == Private(true) {
      DemoteShape(w, s);
      JoinShape(Demote(w, s), t, s, Cow);
      hide Demote, Join;
    } else if w.slots[s].kind == Shared || w.slots[s].kind == Cow {
      JoinShape(w, t, s, w.slots[s].kind);
      hide Join;
    } else {
      hide Demote, Join;
    }
  }

  lemma DemoteShape(w: World, s: Slot)
    requires Shape(w) && s in w.slots && s.InSpace? && w.slots[s].kind == Private(true)
    ensures Shape(Demote(w, s)) && |Demote(w, s).refs| == |w.refs|
  {}

  lemma FaultShape(w: World, s: Slot, n: Frame)
    requires Shape(w) && Enabled(w, Fault(s, n))
    ensures Shape(CowFault(w, s, n)) && |CowFault(w, s, n).refs| == |w.refs|
  {}

  /** The same operations where fork copies at once, and nothing is ever shared behind the scenes. */
  ghost function Eager(a: map<Slot, View>, op: Op): map<Slot, View>
    requires op.Clone? || op.Attach? || op.Pass? ==> op.from in a
    requires op.Store? ==> op.at in a
  {
    match op
    case Clone(s, t, _) => a[t := a[s]]
    case Fault(_, _) => a
    case Store(s, off, v) => PokeView(a, s, off, v)
    case Unmap(s) => a - {s}
    case Back(s, _, b) => a[s := Own(b, true)]
    case Create(s, n, b) => a[s := Common(n, b)]
    case Attach(t, s) => a[t := a[s]]
    case Pass(s, t) => (a - {s})[t := if t.InMessage? then Sent(a[s].bytes) else Own(a[s].bytes, true)]
    case Table => a
  }

  /** A clone that takes write access away finds the table it has to count in. */
  predicate InTime(w: World, op: Op) {
    op.Clone? && op.from in w.slots && w.slots[op.from].kind == Private(true) ==> w.ready
  }

  lemma CloneKept(w: World, s: Slot, t: Slot, n: Frame)
    requires Inv(w) && Enabled(w, Clone(s, t, n)) && InTime(w, Clone(s, t, n))
    ensures Inv(ClonePage(w, s, t, n)) && Views(ClonePage(w, s, t, n)) == Views(w)[t := Views(w)[s]]
  {
    match w.slots[s].kind
    case Device => PutDeviceKept(w, t, w.slots[s].frame);
    case Shared => JoinKept(w, t, s, Shared);
    case Cow => JoinKept(w, t, s, Cow);
    case Private(wr) =>
      if wr {
        DemoteKept(w, s);
        JoinKept(Demote(w, s), t, s, Cow);
      } else {
        NewSoleKept(w, t, n, Private(false), w.mem[w.slots[s].frame]);
      }
    case _ =>
    hide FrameInv;
  }

  lemma FaultKept(w: World, s: Slot, n: Frame)
    requires Inv(w) && Enabled(w, Fault(s, n))
    ensures Inv(CowFault(w, s, n)) && Views(CowFault(w, s, n)) == Views(w)
    ensures s in CowFault(w, s, n).slots && CowFault(w, s, n).slots[s].kind == Private(true)
  {
    if w.refs[w.slots[s].frame] > 1 {
      CopyOutKept(w, s, n);
    } else {
      TakeBackKept(w, s);
    }
    hide FrameInv;
  }

  /** Every operation keeps the account of the frames, and reads as if fork had copied. */
  lemma StepRefines(w: World, op: Op)
    requires Inv(w) && Enabled(w, op) && InTime(w, op)
    ensures Inv(Do(w, op)) && Views(Do(w, op)) == Eager(Views(w), op)
  {
    hide FrameInv, Views, PokeView;
    match op
    case Clone(s, t, n) => CloneKept(w, s, t, n);
    case Fault(s, n) => FaultKept(w, s, n);
    case Store(s, off, v) => PokeKept(w, s, off, v);
    case Unmap(s) => DropKept(w, s);
    case Back(s, n, b) => NewSoleKept(w, s, n, Private(true), b);
    case Create(s, n, b) => NewHeldKept(w, s, n, b);
    case Attach(t, s) => JoinKept(w, t, s, Shared); ViewAt(w, s);
    case Pass(s, t) => MoveKept(w, s, t, Passed(t)); ViewAt(w, s);
    case Table => SameHolders(w, w.(ready := true)); SameViews(w);
  }

  lemma SameViews(w: World)
    requires Bounded(w)
    ensures Views(w.(ready := true)) == Views(w)
  {}

  lemma ViewAt(w: World, s: Slot)
    requires Inv(w) && s in w.slots
    ensures s in Views(w) && Views(w)[s] == ViewOf(w, s)
  {}

  ghost predicate Can(w: World, ops: seq<Op>)
    requires Shape(w)
    decreases |ops|
  {
    ops == [] || (Enabled(w, ops[0]) && (DoShape(w, ops[0]); Can(Do(w, ops[0]), ops[1..])))
  }

  ghost function After(w: World, ops: seq<Op>): World
    requires Shape(w) && Can(w, ops)
    decreases |ops|
  {
    if ops == [] then w else (DoShape(w, ops[0]); After(Do(w, ops[0]), ops[1..]))
  }

  /** Every clone of the run comes in time. */
  ghost predicate AllInTime(w: World, ops: seq<Op>)
    requires Shape(w) && Can(w, ops)
    decreases |ops|
  {
    ops == [] || (InTime(w, ops[0]) && (DoShape(w, ops[0]); AllInTime(Do(w, ops[0]), ops[1..])))
  }

  lemma {:induction false} AfterShape(w: World, ops: seq<Op>)
    requires Shape(w) && Can(w, ops)
    ensures Shape(After(w, ops)) && |After(w, ops).refs| == |w.refs|
    decreases |ops|
  {
    hide Shape, Do, Enabled;
    if ops != [] {
      DoShape(w, ops[0]);
      AfterShape(Do(w, ops[0]), ops[1..]);
    }
  }

  /** The eager operations, one after the other; an operation on something that is not there does nothing. */
  ghost function EagerRun(a: map<Slot, View>, ops: seq<Op>): map<Slot, View>
    decreases |ops|
  {
    if ops == [] then a
    else if ((ops[0].Clone? || ops[0].Attach? || ops[0].Pass?) && ops[0].from !in a)
      || (ops[0].Store? && ops[0].at !in a) then a
    else EagerRun(Eager(a, ops[0]), ops[1..])
  }

  /** After any sequence of forks, faults, stores, unmaps and hand-overs, page by page in any order, every holder
      reads what it would with private copies, and every frame is accounted for, if the table is there in time. */
  lemma {:induction false} CowRefinesCopying(w: World, ops: seq<Op>)
    requires Inv(w) && Can(w, ops) && AllInTime(w, ops)
    ensures Inv(After(w, ops)) && Views(After(w, ops)) == EagerRun(Views(w), ops)
    decreases |ops|
  {
    hide Do, Eager, Views, Inv, InTime;
    InvShape(w);
    if ops != [] {
      StepRefines(w, ops[0]);
      OnWhat(w, ops[0]);
      CowRefinesCopying(Do(w, ops[0]), ops[1..]);
    }
  }

  lemma OnWhat(w: World, op: Op)
    requires Inv(w) && Enabled(w, op)
    ensures op.Clone? || op.Attach? || op.Pass? ==> op.from in Views(w)
    ensures op.Store? ==> op.at in Views(w)
  {}

  ghost function Holders(w: World, f: Frame): set<Slot> { CountedBy(w, f) + SoleBy(w, f) }

  /** A frame is live exactly while somebody holds it. */
  lemma LiveIsHeld(w: World, f: Frame)
    requires Inv(w) && f < |w.refs|
    ensures f in w.live <==> Holders(w, f) != {}
  {
    assert FrameInv(w, f);
  }

  lemma OnlyUnmapFrees(w: World, op: Op)
    requires Inv(w) && Enabled(w, op) && !op.Unmap?
    ensures w.live <= Do(w, op).live
  {
    InvShape(w);
    hide Inv;
  }

  /** A frame is freed only by unmapping, and then by its very last holder. */
  lemma FreedByTheLast(w: World, op: Op, f: Frame)
    requires Inv(w) && Enabled(w, op) && InTime(w, op) && f in w.live && f !in Do(w, op).live
    ensures op.Unmap? && Holders(w, f) == {op.at} && Holders(Do(w, op), f) == {}
  {
    if !op.Unmap? {
      OnlyUnmapFrees(w, op);
    }
    StepRefines(w, op);
    DoShape(w, op);
    LiveIsHeld(w, f);
    LiveIsHeld(Do(w, op), f);
    HoldersLess(w, op.at, f);
    hide Inv, Views, Eager, Holders;
  }

  lemma HoldersLess(w: World, s: Slot, f: Frame)
    requires Inv(w) && s in w.slots
    ensures Holders(Drop(w, s), f) == Holders(w, f) - {s}
  {
    hide CountedBy, SoleBy, Elsewhere, FrameInv;
    Replaced(w, Drop(w, s), s);
    SetsAfter(w, Drop(w, s), s, f);
  }

  // ---------------------------------------------------------------- without a table

  /** What a run without the table comes to: a page is cloned, the parent takes the frame back as if it were the last
      one to have it, and its next store is the child's too. */
  function Bad(s: Slot, t: Slot, v: bv8): seq<Op> {
    [Clone(s, t, 0)] + [Fault(s, 0), Store(s, 0, v)]
  }

  /** The entries after the clone, and after the fault, when nothing is counted. */
  lemma Uncounted(w: World, s: Slot, t: Slot)
    requires Inv(w) && !w.ready && Enabled(w, Clone(s, t, 0)) && w.slots[s].kind == Private(true)
    ensures var f := w.slots[s].frame;
      var w1 := w.(slots := w.slots[s := Entry(f, Cow)][t := Entry(f, Cow)]);
      var w2 := w.(slots := w.slots[s := Entry(f, Private(true))][t := Entry(f, Cow)]);
      && Shape(w1) && Do(w, Clone(s, t, 0)) == w1
      && Enabled(w1, Fault(s, 0)) && Shape(w2) && Do(w1, Fault(s, 0)) == w2
  {
    InvShape(w);
    var f := w.slots[s].frame;
    hide FrameInv;
    assert w.refs[f] == 0;
    assert s != t;
    assert w.slots[s := Entry(f, Cow)][t := Entry(f, Cow)][s := Entry(f, Private(true))]
        == w.slots[s := Entry(f, Private(true))][t := Entry(f, Cow)];
  }

  lemma BadRuns(w: World, s: Slot, t: Slot, v: bv8)
    requires Inv(w) && !w.ready && Enabled(w, Clone(s, t, 0)) && w.slots[s].kind == Private(true)
    ensures Shape(w) && Can(w, Bad(s, t, v))
    ensures var f := w.slots[s].frame;
      After(w, Bad(s, t, v)) ==
        Poke(w.(slots := w.slots[s := Entry(f, Private(true))][t := Entry(f, Cow)]), s, 0, v)
    ensures AllInTime(Do(w, Clone(s, t, 0)), [Fault(s, 0), Store(s, 0, v)])
  {
    InvShape(w);
    Uncounted(w, s, t);
    var f := w.slots[s].frame;
    var w1 := w.(slots := w.slots[s := Entry(f, Cow)][t := Entry(f, Cow)]);
    var w2 := w.(slots := w.slots[s := Entry(f, Private(true))][t := Entry(f, Cow)]);
    hide Inv, Shape;
    assert Enabled(w2, Store(s, 0, v)) && Do(w2, Store(s, 0, v)) == Poke(w2, s, 0, v);
    hide Do, Enabled, InTime;
    DoShape(w2, Store(s, 0, v));
    OneMore(w2, Store(s, 0, v), []);
    OneMore(w1, Fault(s, 0), [Store(s, 0, v)]);
    OneMore(w, Clone(s, t, 0), [Fault(s, 0), Store(s, 0, v)]);
    assert [Store(s, 0, v)] + [] == [Store(s, 0, v)];
    assert [Fault(s, 0)] + [Store(s, 0, v)] == [Fault(s, 0), Store(s, 0, v)];
    NoClone(w1, [Fault(s, 0), Store(s, 0, v)]);
  }

  lemma OneMore(w: World, op: Op, ops: seq<Op>)
    requires Shape(w) && Enabled(w, op) && Shape(Do(w, op)) && Can(Do(w, op), ops)
    ensures Can(w, [op] + ops) && After(w, [op] + ops) == After(Do(w, op), ops)
  {
    assert ([op] + ops)[1..] == ops;
    hide Do, Enabled, Shape;
  }

  lemma {:induction false} NoClone(w: World, ops: seq<Op>)
    requires Shape(w) && Can(w, ops) && forall i | 0 <= i < |ops| :: !ops[i].Clone?
    ensures AllInTime(w, ops)
    decreases |ops|
  {
    if ops != [] {
      DoShape(w, ops[0]);
      NoClone(Do(w, ops[0]), ops[1..]);
    }
    hide Do, Enabled, Shape;
  }

  /** A clone that takes write access away is sound if and only if there is a table by then: with it, whatever comes
      later reads as it would with private copies; without it the parent's next store shows through to the child. */
  lemma TableDecides(w: World, s: Slot, t: Slot)
    requires Inv(w) && Enabled(w, Clone(s, t, 0)) && w.slots[s].kind == Private(true) && |w.mem[w.slots[s].frame]| > 0
    ensures w.ready <==> forall ops | Follows(w, Clone(s, t, 0), ops) :: Faithful(w, [Clone(s, t, 0)] + ops)
  {
    InvShape(w);
    if w.ready {
      forall ops | Follows(w, Clone(s, t, 0), ops) ensures Faithful(w, [Clone(s, t, 0)] + ops) {
        Sound(w, Clone(s, t, 0), ops);
      }
    } else {
      var v := w.mem[w.slots[s].frame][0] + 1;
      BadRuns(w, s, t, v);
      BadFollows(w, s, t, v);
      BadViews(w, s, t, v);
      hide *;
      assert Follows(w, Clone(s, t, 0), [Fault(s, 0), Store(s, 0, v)]);
    }
  }

  /** The run goes on, and later clones are in time. */
  ghost predicate Follows(w: World, op: Op, ops: seq<Op>) {
    Shape(w) && Enabled(w, op) && (DoShape(w, op); Can(Do(w, op), ops) && AllInTime(Do(w, op), ops))
  }

  ghost predicate Faithful(w: World, ops: seq<Op>) {
    Shape(w) && Can(w, ops) && (AfterShape(w, ops); Views(After(w, ops)) == EagerRun(Views(w), ops))
  }

  lemma Sound(w: World, op: Op, ops: seq<Op>)
    requires Inv(w) && Follows(w, op, ops) && InTime(w, op)
    ensures Faithful(w, [op] + ops)
  {
    hide Inv, Do, Enabled, InTime, Views, Shape;
    DoShape(w, op);
    OneMore(w, op, ops);
    assert ([op] + ops)[1..] == ops;
    CowRefinesCopying(w, [op] + ops);
  }

  lemma BadFollows(w: World, s: Slot, t: Slot, v: bv8)
    requires Inv(w) && !w.ready && Enabled(w, Clone(s, t, 0)) && w.slots[s].kind == Private(true)
    ensures Follows(w, Clone(s, t, 0), [Fault(s, 0), Store(s, 0, v)])
  {
    BadRuns(w, s, t, v);
    DoShape(w, Clone(s, t, 0));
    hide Inv, Do, Enabled, Shape, AllInTime, After;
    assert Bad(s, t, v)[1..] == [Fault(s, 0), Store(s, 0, v)];
  }

  lemma BadViews(w: World, s: Slot, t: Slot, v: bv8)
    requires Inv(w) && !w.ready && Enabled(w, Clone(s, t, 0)) && w.slots[s].kind == Private(true)
    requires |w.mem[w.slots[s].frame]| > 0 && v != w.mem[w.slots[s].frame][0]
    ensures !Faithful(w, Bad(s, t, v))
  {
    BadRuns(w, s, t, v);
    AfterShape(w, Bad(s, t, v));
    var a := Views(w);
    ViewAt(w, s);
    var b := Views(After(w, Bad(s, t, v)));
    assert b[t].bytes[0] == v;
    EagerBad(a, s, t, v);
    hide Can, After, EagerRun;
  }

  /** With private copies the child goes on reading what it had. */
  lemma EagerBad(a: map<Slot, View>, s: Slot, t: Slot, v: bv8)
    requires s in a && a[s].Own? && s != t
    ensures t in EagerRun(a, Bad(s, t, v)) && EagerRun(a, Bad(s, t, v))[t] == a[s]
  {
    var a1 := a[t := a[s]];
    assert Bad(s, t, v)[1..] == [Fault(s, 0), Store(s, 0, v)];
    assert [Fault(s, 0), Store(s, 0, v)][1..] == [Store(s, 0, v)];
    assert [Store(s, 0, v)][1..] == [];
    assert EagerRun(PokeView(a1, s, 0, v), []) == PokeView(a1, s, 0, v);
    assert EagerRun(a1, [Store(s, 0, v)]) == PokeView(a1, s, 0, v);
    assert EagerRun(a1, [Fault(s, 0), Store(s, 0, v)]) == PokeView(a1, s, 0, v);
  }

  // ---------------------------------------------------------------- what is lost

  ghost function Leaks(w: World): set<Slot> { set s | s in w.slots && s.Lost? }

  ghost function Found(holders: set<Slot>): set<Slot> { set s | s in holders && !s.Lost? }

  /** The count of every frame is the number of those that will give it back, and every frame is somebody's. */
  ghost predicate Conserved(w: World) {
    forall f: nat | f < |w.refs| ::
      w.refs[f] == |Found(CountedBy(w, f))| && (f in w.live <==> Found(Holders(w, f)) != {})
  }

  /** Frames are conserved if and only if nothing has been lost. */
  lemma ConservedExactly(w: World)
    requires Inv(w)
    ensures Conserved(w) <==> Leaks(w) == {}
  {
    if Leaks(w) == {} {
      forall f: nat | f < |w.refs|
        ensures w.refs[f] == |Found(CountedBy(w, f))| && (f in w.live <==> Found(Holders(w, f)) != {})
      {
        AllFound(w, f);
        LiveIsHeld(w, f);
        assert FrameInv(w, f);
      }
    } else {
      var s :| s in Leaks(w);
      LostOne(w, s);
    }
    hide Inv, CountedBy, SoleBy, FrameInv;
  }

  lemma AllFound(w: World, f: Frame)
    requires Leaks(w) == {}
    ensures Found(CountedBy(w, f)) == CountedBy(w, f) && Found(Holders(w, f)) == Holders(w, f)
  {
    forall s | s in w.slots ensures !s.Lost? { assert s !in Leaks(w); }
  }

  lemma LostOne(w: World, s: Slot)
    requires Inv(w) && s in w.slots && s.Lost?
    ensures !Conserved(w)
  {
    LostNow(w, s);
    assert Fits(s, w.slots[s].kind);
    hide Inv;
  }

  lemma Fewer(a: set<Slot>, b: set<Slot>, s: Slot)
    requires s in b && a <= b - {s}
    ensures |a| < |b|
  {
    assert b - {s} == a + (b - {s} - a);
    assert b == b - {s} + {s};
  }

  predicate Loses(op: Op) { (op.Pass? || op.Attach?) && op.to.Lost? }

  /** Only a reference that could not be put anywhere is lost, and nothing lost is ever found again. */
  lemma StepLeaks(w: World, op: Op)
    requires Shape(w) && Enabled(w, op)
    ensures Leaks(Do(w, op)) == Leaks(w) + if Loses(op) then {op.to} else {}
    ensures forall s | s in Leaks(w) :: s in w.slots && s in Do(w, op).slots && Do(w, op).slots[s] == w.slots[s]
    ensures Loses(op) ==> op.to !in Leaks(w)
  {
    hide Shape;
  }

  lemma LeaksIn(w: World)
    ensures forall s | s in Leaks(w) :: s in w.slots
  {}

  lemma {:induction false} RunLeaks(w: World, ops: seq<Op>)
    requires Shape(w) && Can(w, ops)
    ensures Leaks(w) <= Leaks(After(w, ops))
    ensures Leaks(After(w, ops)) == Leaks(w) <==> forall i | 0 <= i < |ops| :: !Loses(ops[i])
    ensures forall s | s in Leaks(w) :: s in w.slots && s in After(w, ops).slots && After(w, ops).slots[s] == w.slots[s]
    decreases |ops|
  {
    LeaksIn(w);
    hide Leaks, Do, Enabled, Shape, Loses;
    if ops != [] {
      StepLeaks(w, ops[0]);
      DoShape(w, ops[0]);
      RunLeaks(Do(w, ops[0]), ops[1..]);
      assert forall i | 0 < i < |ops| :: ops[i] == ops[1..][i - 1];
    }
  }

  /** Over every run in which the table is there in time, frames stay conserved if and only if no reference had to be
      put nowhere: no ipc_recv and no shm_map went without a page table. */
  lemma ConservedOverRuns(w: World, ops: seq<Op>)
    requires Inv(w) && Can(w, ops) && AllInTime(w, ops) && Conserved(w)
    ensures Conserved(After(w, ops)) <==> forall i | 0 <= i < |ops| :: !Loses(ops[i])
  {
    hide Inv, Conserved, Leaks, Views, Loses, Can, After, AllInTime;
    InvShape(w);
    CowRefinesCopying(w, ops);
    ConservedExactly(w);
    ConservedExactly(After(w, ops));
    RunLeaks(w, ops);
  }

  /** A reference put nowhere: its frame is allocated for good. A page so passed on has nobody to give it back, and the
      count of a frame so mapped is above the number of those who will, whatever comes. */
  lemma LostForGood(w: World, s: Slot, ops: seq<Op>)
    requires Inv(w) && s in w.slots && s.Lost? && Can(w, ops) && AllInTime(w, ops)
    ensures var f := w.slots[s].frame; var r := After(w, ops);
      && f in r.live && f < |r.refs|
      && (w.slots[s].kind == Private(true) ==> Found(Holders(r, f)) == {})
      && (w.slots[s].kind == Shared ==> r.refs[f] > |Found(CountedBy(r, f))|)
  {
    assert s in Leaks(w);
    assert Fits(s, w.slots[s].kind);
    InvShape(w);
    hide Inv, Leaks, Views, Can, After, AllInTime, Shape;
    CowRefinesCopying(w, ops);
    RunLeaks(w, ops);
    LostNow(After(w, ops), s);
  }

  lemma LostNow(w: World, s: Slot)
    requires Inv(w) && s in w.slots && s.Lost?
    ensures var f := w.slots[s].frame;
      && f in w.live && f < |w.refs|
      && (w.slots[s].kind == Private(true) ==> Found(Holders(w, f)) == {})
      && (w.slots[s].kind == Shared ==> w.refs[f] > |Found(CountedBy(w, f))|)
  {
    var f := w.slots[s].frame;
    if w.slots[s].kind == Shared {
      OnlyCounted(w, s);
      Fewer(Found(CountedBy(w, f)), CountedBy(w, f), s);
    } else {
      OnlySole(w, s);
      assert Found(Holders(w, f)) == {};
    }
  }
}
