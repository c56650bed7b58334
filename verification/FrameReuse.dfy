/** Frames and TLBs together: kernel/src/mm/vmm.c gives a frame back before it calls tlb_shootdown, so for a while a
    free frame is still reachable through the other CPUs' TLBs.  This module says what keeps it from being handed out
    then. */
module FrameReuse {
  import opened Collections
  import opened TlbShootdown

  type Frame = nat
  type Place = (Space, Page)

  datatype State = State(
    w: World,
    pte: map<Place, Frame>,           // what the page tables hold
    cached: seq<map<Page, Frame>>,    // the frame behind each translation a CPU has fetched
    free: set<Frame>,                 // the page allocator's
    own: set<Frame>,                  // the kernel's: page tables, slabs, buffers
    limbo: map<Place, Frame>)         // unmapped by the holder of the lock and not shot down yet

  datatype Op =
    | Run(act: Act)                                                     // a step of the protocol that changes no entry
    | MapNew(space: Space, page: Page, frame: Frame)                    // vmm_map_pages, one page
    | MapShared(space: Space, page: Page, from: Place)                  // the frame of `from` at another place too
    | UnmapFree(space: Space, page: Page)                               // vmm_unmap_free_pages, one page
    | Take(frame: Frame)                                            // pmm_alloc_pages, which has only a lock of its own
    | Give(frame: Frame)

  ghost predicate InUse(pte: map<Place, Frame>, f: Frame) { exists k :: k in pte && pte[k] == f }

  ghost predicate InLimbo(st: State, f: Frame) { exists k :: k in st.limbo && st.limbo[k] == f }

  predicate CanDo(st: State, i: nat, op: Op)
    requires i < |st.w.cpus|
  {
    var pc := st.w.cpus[i].pc;
    match op
    case Run(a) => !a.Map? && !a.Unmap? && Enabled(st.w, i, a)
    case MapNew(s, p, f) => pc == At(Hold) && f in st.free && (s, p) !in st.pte
    case MapShared(s, p, k) => pc == At(Hold) && k in st.pte && (s, p) !in st.pte
    case UnmapFree(s, p) => pc == At(Hold) && (s, p) in st.pte
    case Take(f) => pc.At? && f in st.free
    case Give(f) => pc.At? && f in st.own
  }

  /** What the callers owe: nothing is handed out, mapped again or left behind that is still to be shot down. */
  ghost predicate Careful(st: State, i: nat, op: Op)
    requires i < |st.w.cpus|
  {
    match op
    case Run(a) => a == Unlock ==> st.limbo == map[]
    case MapNew(s, p, f) => (s, p) !in st.limbo && !InLimbo(st, f)
    case MapShared(s, p, k) => (s, p) !in st.limbo
    case Take(f) => !InLimbo(st, f)
    case _ => true
  }

  ghost function Step(st: State, i: nat, op: Op): State
    requires i < |st.w.cpus| == |st.cached| && CanDo(st, i, op)
  {
    match op
    case Run(a) =>
      var w := Do(st.w, i, a);
      var c := st.w.cpus[i];
      if a.Fill? && (c.cr3, a.page) in st.pte then
        st.(w := w, cached := st.cached[i := Fetched(st.cached[i], a.page, st.pte[(c.cr3, a.page)])])
      else if a.EndShoot? then st.(w := w, limbo := Rest(st.limbo, c.pc.space))
      else st.(w := w)
    case MapNew(s, p, f) =>
      st.(w := Do(st.w, i, Map(s, p)), pte := st.pte[(s, p) := f], free := st.free - {f})
    case MapShared(s, p, k) => st.(w := Do(st.w, i, Map(s, p)), pte := st.pte[(s, p) := st.pte[k]])
    case UnmapFree(s, p) =>
      var f, pte := st.pte[(s, p)], st.pte - {(s, p)};
      st.(w := Do(st.w, i, Unmap(s, p)), pte := pte, limbo := st.limbo[(s, p) := f],
          free := if InUse(pte, f) then st.free else st.free + {f})
    case Take(f) => st.(free := st.free - {f}, own := st.own + {f})
    case Give(f) => st.(free := st.free + {f}, own := st.own - {f})
  }

  function Fetched(cached: map<Page, Frame>, p: Page, f: Frame): map<Page, Frame> { cached[p := f] }

  function Rest(limbo: map<Place, Frame>, s: Space): map<Place, Frame> { map k | k in limbo && k.0 != s :: limbo[k] }

  // ---------------------------------------------------------------- what holds throughout

  /** CPU j reaches frame f through page p of space s. */
  predicate Reaches(st: State, j: nat, s: Space, p: Page, f: Frame) {
    j < |st.w.cpus| == |st.cached| && Uses(st.w.cpus[j], s, p) && p in st.cached[j] && st.cached[j][p] == f
  }

  /** Whatever a CPU reaches is what the page tables have at that place, or what they had and is still to be
      shot down. */
  ghost predicate Fresh(st: State, j: nat, s: Space, p: Page) {
    j < |st.w.cpus| == |st.cached| && Uses(st.w.cpus[j], s, p) ==>
      && p in st.cached[j]
      && (((s, p) in st.pte && st.pte[(s, p)] == st.cached[j][p])
          || ((s, p) in st.limbo && st.limbo[(s, p)] == st.cached[j][p]))
  }

  ghost predicate FramesInv(st: State) {
    && (forall k :: k in st.pte <==> k in st.w.present)
    && (forall k | k in st.pte :: st.pte[k] !in st.free && st.pte[k] !in st.own)
    && st.free !! st.own
  }

  ghost predicate LimboInv(st: State) {
    && (forall k | k in st.limbo :: k in st.w.removed && k !in st.pte && st.limbo[k] !in st.own)
    && (st.limbo != map[] ==> SomeHolds(st.w))
  }

  ghost predicate SomeHolds(w: World) { exists h: nat :: h < |w.cpus| && Holding(w.cpus[h].pc) }

  ghost predicate Good(st: State) {
    && Inv(st.w) && |st.cached| == |st.w.cpus| && FramesInv(st) && LimboInv(st)
    && forall j: nat, s: Space, p: Page :: Fresh(st, j, s, p)
  }

  /** A step of the protocol fetches at most the one translation it says, and only if the tables have it. */
  lemma UsesAfter(w: World, i: nat, a: Act, j: nat, s: Space, p: Page)
    requires i < |w.cpus| && j < |w.cpus| && Enabled(w, i, a)
    requires (forall k: nat | k < |w.cpus| :: CpuInv(w.cpus[k])) && Uses(Do(w, i, a).cpus[j], s, p)
    ensures Uses(w.cpus[j], s, p) || (a == Fill(p) && j == i && s == w.cpus[i].cr3 && (s, p) in w.present)
  {}

  lemma RunFresh(st: State, i: nat, a: Act, j: nat, s: Space, p: Page)
    requires Good(st) && i < |st.w.cpus| && CanDo(st, i, Run(a)) && a != EndShoot
    ensures Fresh(Step(st, i, Run(a)), j, s, p)
  {
    var st' := Step(st, i, Run(a));
    if j < |st'.w.cpus| && Uses(st'.w.cpus[j], s, p) {
      UsesAfter(st.w, i, a, j, s, p);
      assert Fresh(st, j, s, p);
    }
    hide Do, Enabled, LockInv, TlbInv;
  }

  lemma ShotFresh(st: State, i: nat, j: nat, s: Space, p: Page)
    requires Good(st) && i < |st.w.cpus| && CanDo(st, i, Run(EndShoot))
    ensures Fresh(Step(st, i, Run(EndShoot)), j, s, p)
  {
    var st' := Step(st, i, Run(EndShoot));
    if j < |st'.w.cpus| && Uses(st'.w.cpus[j], s, p) {
      UsesAfter(st.w, i, EndShoot, j, s, p);
      assert Fresh(st, j, s, p);
      if (s, p) in st.limbo && s == st.w.cpus[i].pc.space {
        Returns(st.w, i, p);
      }
    }
    hide Do, Enabled, LockInv, TlbInv;
  }

  lemma MapFresh(st: State, i: nat, op: Op, j: nat, s: Space, p: Page)
    requires Good(st) && i < |st.w.cpus| && CanDo(st, i, op) && Careful(st, i, op) && (op.MapNew? || op.MapShared?)
    ensures Fresh(Step(st, i, op), j, s, p)
  {
    var st' := Step(st, i, op);
    if j < |st'.w.cpus| && Uses(st'.w.cpus[j], s, p) {
      UsesAfter(st.w, i, Map(op.space, op.page), j, s, p);
      assert Fresh(st, j, s, p);
    }
    hide LockInv, TlbInv;
  }

  lemma UnmapFresh(st: State, i: nat, op: Op, j: nat, s: Space, p: Page)
    requires Good(st) && i < |st.w.cpus| && CanDo(st, i, op) && op.UnmapFree?
    ensures Fresh(Step(st, i, op), j, s, p)
  {
    var st' := Step(st, i, op);
    if j < |st'.w.cpus| && Uses(st'.w.cpus[j], s, p) {
      UsesAfter(st.w, i, Unmap(op.space, op.page), j, s, p);
      assert Fresh(st, j, s, p);
    }
    hide LockInv, TlbInv;
  }

  lemma AllFresh(st: State, i: nat, op: Op)
    requires Good(st) && i < |st.w.cpus| && CanDo(st, i, op) && Careful(st, i, op)
    ensures forall j: nat, s: Space, p: Page :: Fresh(Step(st, i, op), j, s, p)
  {
    forall j: nat, s: Space, p: Page ensures Fresh(Step(st, i, op), j, s, p) {
      match op
      case Run(a) => if a == EndShoot { ShotFresh(st, i, j, s, p); } else { RunFresh(st, i, a, j, s, p); }
      case UnmapFree(_, _) => UnmapFresh(st, i, op, j, s, p);
      case MapNew(_, _, _) => MapFresh(st, i, op, j, s, p);
      case MapShared(_, _, _) => MapFresh(st, i, op, j, s, p);
      case _ => assert Fresh(st, j, s, p);
    }
    hide Good, Careful, CanDo;
  }

  /** The protocol's own invariant, which does not know about frames. */
  lemma WorldKept(st: State, i: nat, op: Op)
    requires Good(st) && i < |st.w.cpus| && CanDo(st, i, op)
    ensures Inv(Step(st, i, op).w) && |Step(st, i, op).w.cpus| == |st.w.cpus| == |Step(st, i, op).cached|
  {
    match op
    case Run(a) => InvKept(st.w, i, a);
    case UnmapFree(s, p) => InvKept(st.w, i, Unmap(s, p));
    case MapNew(s, p, _) => InvKept(st.w, i, Map(s, p));
    case MapShared(s, p, _) => InvKept(st.w, i, Map(s, p));
    case _ =>
    hide Inv, Do, Enabled;
  }

  lemma FramesKept(st: State, i: nat, op: Op)
    requires Good(st) && i < |st.w.cpus| && CanDo(st, i, op)
    ensures FramesInv(Step(st, i, op))
  {
    WorldAfter(st, i, op);
    hide Inv, Fresh, LimboInv, Good;
    if !op.Take? && !op.Give? {
      PresentAfter(st.w, i, ActOf(op));
    }
    hide Do, Enabled;
    if op.UnmapFree? {
      var pte := st.pte - {(op.space, op.page)};
      forall k | k in pte && pte[k] == st.pte[(op.space, op.page)] ensures InUse(pte, pte[k]) {}
    }
  }

  /** Only these two acts change the tables, and what has been taken out is forgotten when the lock changes hands. */
  lemma PresentAfter(w: World, i: nat, a: Act)
    requires i < |w.cpus| && Enabled(w, i, a)
    ensures var w' := Do(w, i, a);
      match a
      case Map(s, p) => w'.present == w.present + {(s, p)} && w'.removed == w.removed - {(s, p)}
      case Unmap(s, p) => w'.present == w.present - {(s, p)} && w'.removed == w.removed + {(s, p)}
      case Acquire => w'.present == w.present
      case _ => w'.present == w.present && w'.removed == w.removed
  {}

  lemma LimboKept(st: State, i: nat, op: Op)
    requires Good(st) && i < |st.w.cpus| && CanDo(st, i, op) && Careful(st, i, op)
    ensures LimboInv(Step(st, i, op))
  {
    WorldAfter(st, i, op);
    hide Fresh, Good;
    if !op.Take? && !op.Give? {
      PresentAfter(st.w, i, ActOf(op));
    }
    if op == Run(Acquire) {
      NotHeld(st.w, i);
    }
    HeldForLimbo(st, i, op);
    hide Inv, SomeHolds, Do, Enabled;
  }

  lemma HeldForLimbo(st: State, i: nat, op: Op)
    requires Good(st) && i < |st.w.cpus| && CanDo(st, i, op) && Careful(st, i, op)
    ensures Step(st, i, op).limbo != map[] ==> SomeHolds(Step(st, i, op).w)
  {
    hide Inv, FramesInv, Fresh, Do, Enabled;
    if Step(st, i, op).limbo != map[] {
      assert op.UnmapFree? ==> Holding(st.w.cpus[i].pc);
      StillHeld(st, i, op);
    }
  }

  /** The step of the protocol that op is. */
  function ActOf(op: Op): Act
    requires !op.Take? && !op.Give?
  {
    match op
    case Run(a) => a
    case MapNew(s, p, _) => Map(s, p)
    case MapShared(s, p, _) => Map(s, p)
    case UnmapFree(s, p) => Unmap(s, p)
  }

  lemma WorldAfter(st: State, i: nat, op: Op)
    requires i < |st.w.cpus| == |st.cached| && CanDo(st, i, op)
    ensures if op.Take? || op.Give? then Step(st, i, op).w == st.w
            else Enabled(st.w, i, ActOf(op)) && Step(st, i, op).w == Do(st.w, i, ActOf(op))
  {
    hide Do;
  }

  /** A step moves no other CPU. */
  lemma OthersStand(w: World, i: nat, a: Act, h: nat)
    requires i < |w.cpus| && Enabled(w, i, a) && h < |w.cpus| && h != i
    ensures |Do(w, i, a).cpus| == |w.cpus| && Do(w, i, a).cpus[h].pc == w.cpus[h].pc
  {}

  lemma HeldAfter(w: World, i: nat, a: Act)
    requires i < |w.cpus| && Enabled(w, i, a) && a != Unlock && Holding(w.cpus[i].pc)
    ensures |Do(w, i, a).cpus| == |w.cpus| && Holding(Do(w, i, a).cpus[i].pc)
  {}

  /** A CPU in tlb_shootdown was in it before, for the same space, or has just been sent there. */
  lemma ShootsAfter(w: World, i: nat, a: Act)
    requires i < |w.cpus| && Enabled(w, i, a) && |Do(w, i, a).cpus| == |w.cpus| && Shooting(Do(w, i, a).cpus[i].pc)
    ensures var pc := Do(w, i, a).cpus[i].pc;
      a == StartShoot(pc.space) || (Shooting(w.cpus[i].pc) && w.cpus[i].pc.space == pc.space)
  {}

  /** The lock is let go only by who holds it. */
  lemma StillHeld(st: State, i: nat, op: Op)
    requires i < |st.w.cpus| == |st.cached| && CanDo(st, i, op) && op != Run(Unlock)
    requires SomeHolds(st.w)
    ensures SomeHolds(Step(st, i, op).w)
  {
    WorldAfter(st, i, op);
    hide Step, CanDo, Do, Enabled, Holding;
    var h: nat :| h < |st.w.cpus| && Holding(st.w.cpus[h].pc);
    if !op.Take? && !op.Give? {
      if h == i {
        HeldAfter(st.w, i, ActOf(op));
      } else {
        OthersStand(st.w, i, ActOf(op), h);
      }
    }
    assert Holding(Step(st, i, op).w.cpus[h].pc);
  }

  lemma NotHeld(w: World, i: nat)
    requires Inv(w) && i < |w.cpus| && Enabled(w, i, Acquire)
    ensures !SomeHolds(w)
  {
    forall h: nat | h < |w.cpus| ensures !Holding(w.cpus[h].pc) { NobodyBefore(w, i, h); }
  }

  lemma GoodKept(st: State, i: nat, op: Op)
    requires Good(st) && i < |st.w.cpus| && CanDo(st, i, op) && Careful(st, i, op)
    ensures Good(Step(st, i, op))
  {
    WorldKept(st, i, op);
    FramesKept(st, i, op);
    LimboKept(st, i, op);
    AllFresh(st, i, op);
    hide Inv, FramesInv, LimboInv, Fresh, Careful, CanDo, Step;
  }

  // ---------------------------------------------------------------- the order the kernel keeps

  /** What the callers see to, without looking at any TLB.  `busy` is the space the holder of the lock has unmapped
      pages of since its last shootdown: until then it hands out and maps nothing, touches no other space and keeps the
      lock. Frames are taken from the page allocator only under the lock. */
  predicate Orderly(st: State, busy: Option<Space>, i: nat, op: Op)
    requires i < |st.w.cpus|
  {
    match op
    case Run(Unlock) => busy == None
    case Run(StartShoot(s)) => busy == None || busy == Some(s)
    case Run(_) => true
    case UnmapFree(s, _) => busy == None || busy == Some(s)
    case Take(_) => st.w.cpus[i].pc == At(Hold) && busy == None
    case Give(_) => true
    case _ => busy == None
  }

  function Busy(st: State, busy: Option<Space>, i: nat, op: Op): Option<Space> {
    match op
    case UnmapFree(s, _) => Some(s)
    case Run(EndShoot) => None
    case _ => busy
  }

  ghost predicate BusyInv(st: State, busy: Option<Space>) {
    && (forall k | k in st.limbo :: busy == Some(k.0))
    && (forall h: nat | h < |st.w.cpus| && Shooting(st.w.cpus[h].pc) ::
          busy == None || busy == Some(ShotSpace(st.w.cpus[h].pc)))
  }

  function ShotSpace(pc: Pc): Space
    requires Shooting(pc)
  {
    pc.space
  }

  lemma OrderlyIsCareful(st: State, busy: Option<Space>, i: nat, op: Op)
    requires Good(st) && BusyInv(st, busy) && i < |st.w.cpus| && CanDo(st, i, op) && Orderly(st, busy, i, op)
    ensures Careful(st, i, op)
  {
    hide Inv, FramesInv, LimboInv, Fresh;
    if busy == None {
      assert st.limbo == map[];
    }
  }

  lemma BusyKept(st: State, busy: Option<Space>, i: nat, op: Op)
    requires Good(st) && BusyInv(st, busy) && i < |st.w.cpus| && CanDo(st, i, op) && Orderly(st, busy, i, op)
    ensures BusyInv(Step(st, i, op), Busy(st, busy, i, op))
  {
    var st', busy' := Step(st, i, op), Busy(st, busy, i, op);
    WorldKept(st, i, op);
    forall h: nat | h < |st'.w.cpus| && Shooting(st'.w.cpus[h].pc)
      ensures busy' == None || busy' == Some(ShotSpace(st'.w.cpus[h].pc))
    {
      ShotBefore(st, i, op, h);
      if op.UnmapFree? && h != i {
        MutualExclusion(st.w, i, h);
      }
    }
    hide Inv, FramesInv, LimboInv, Fresh;
  }

  lemma ShotBefore(st: State, i: nat, op: Op, h: nat)
    requires i < |st.w.cpus| == |st.cached| && CanDo(st, i, op)
    requires |Step(st, i, op).w.cpus| == |st.w.cpus| && h < |st.w.cpus| && Shooting(Step(st, i, op).w.cpus[h].pc)
    ensures (h == i && op == Run(StartShoot(Step(st, i, op).w.cpus[h].pc.space)))
         || (Shooting(st.w.cpus[h].pc) && ShotSpace(st.w.cpus[h].pc) == ShotSpace(Step(st, i, op).w.cpus[h].pc))
  {
    WorldAfter(st, i, op);
    hide Step, CanDo, Do, Enabled;
    if !op.Take? && !op.Give? {
      if h == i {
        ShootsAfter(st.w, i, ActOf(op));
      } else {
        OthersStand(st.w, i, ActOf(op), h);
      }
    }
  }

  datatype Turn = Turn(cpu: nat, op: Op)

  /** A run in which every step is in order. */
  ghost predicate InOrder(st: State, busy: Option<Space>, ts: seq<Turn>)
    decreases |ts|
  {
    ts == [] || (
      && ts[0].cpu < |st.w.cpus| == |st.cached| && CanDo(st, ts[0].cpu, ts[0].op)
        && Orderly(st, busy, ts[0].cpu, ts[0].op)
      && InOrder(Step(st, ts[0].cpu, ts[0].op), Busy(st, busy, ts[0].cpu, ts[0].op), ts[1..]))
  }

  ghost function End(st: State, busy: Option<Space>, ts: seq<Turn>): (State, Option<Space>)
    requires InOrder(st, busy, ts)
    decreases |ts|
  {
    if ts == [] then (st, busy)
    else End(Step(st, ts[0].cpu, ts[0].op), Busy(st, busy, ts[0].cpu, ts[0].op), ts[1..])
  }

  /** Nothing runs yet, and every frame is the page allocator's, the kernel's or mapped. */
  ghost predicate Start(st: State) {
    TlbShootdown.Init(st.w) && |st.cached| == |st.w.cpus| && FramesInv(st) && st.limbo == map[]
  }

  lemma StartGood(st: State)
    requires Start(st)
    ensures Good(st) && BusyInv(st, None)
  {
    RunKept(st.w, []);
  }

  lemma {:induction false} RunGood(st: State, busy: Option<Space>, ts: seq<Turn>)
    requires Good(st) && BusyInv(st, busy) && InOrder(st, busy, ts)
    ensures Good(End(st, busy, ts).0) && BusyInv(End(st, busy, ts).0, End(st, busy, ts).1)
    decreases |ts|
  {
    hide Good, BusyInv, CanDo, Orderly, Step, Busy;
    if ts != [] {
      OrderlyIsCareful(st, busy, ts[0].cpu, ts[0].op);
      GoodKept(st, ts[0].cpu, ts[0].op);
      BusyKept(st, busy, ts[0].cpu, ts[0].op);
      RunGood(Step(st, ts[0].cpu, ts[0].op), Busy(st, busy, ts[0].cpu, ts[0].op), ts[1..]);
    }
  }

  predicate HandsOut(op: Op, f: Frame) { op == Take(f) || (op.MapNew? && op.frame == f) }

  /** In every run that keeps the order, a frame is handed out only when no CPU reaches it any more, although it is
      given back before the shootdown; no CPU ever reaches a frame of the kernel's; and what a CPU reaches through a
      mapped page is the frame mapped there. */
  lemma NeverReusedInReach(st: State, ts: seq<Turn>, i: nat, op: Op, f: Frame)
    requires Start(st) && InOrder(st, None, ts)
    requires var (end, busy) := End(st, None, ts);
      i < |end.w.cpus| && CanDo(end, i, op) && Orderly(end, busy, i, op) && HandsOut(op, f)
    ensures var end := End(st, None, ts).0;
      && (forall j: nat, s: Space, p: Page :: !Reaches(end, j, s, p, f))
      && (forall j: nat, s: Space, p: Page, g: Frame | Reaches(end, j, s, p, g) ::
            g !in end.own && ((s, p) in end.pte ==> end.pte[(s, p)] == g))
  {
    StartGood(st);
    RunGood(st, None, ts);
    var (end, busy) := End(st, None, ts);
    OrderlyIsCareful(end, busy, i, op);
    ReachesLittle(end);
    hide Good, BusyInv, Start, InOrder, Orderly, Reaches;
    forall j: nat, s: Space, p: Page ensures !Reaches(end, j, s, p, f) {
      NotReached(end, i, op, f, j, s, p);
    }
  }

  lemma NotReached(st: State, i: nat, op: Op, f: Frame, j: nat, s: Space, p: Page)
    requires Good(st) && i < |st.w.cpus| && CanDo(st, i, op) && Careful(st, i, op) && HandsOut(op, f)
    ensures !Reaches(st, j, s, p, f)
  {
    hide Inv;
    assert Fresh(st, j, s, p);
  }

  lemma ReachesLittle(st: State)
    requires Good(st)
    ensures forall j: nat, s: Space, p: Page, g: Frame | Reaches(st, j, s, p, g) ::
      g !in st.own && ((s, p) in st.pte ==> st.pte[(s, p)] == g)
  {
    hide Inv;
    forall j: nat, s: Space, p: Page, g: Frame | Reaches(st, j, s, p, g)
      ensures g !in st.own && ((s, p) in st.pte ==> st.pte[(s, p)] == g)
    {
      assert Fresh(st, j, s, p);
    }
  }

  /** When vmm_unmap_free_pages returns, whatever the other CPUs did meanwhile, nothing is left to shoot down. */
  lemma UnmapLeavesNothing(st: State, ts: seq<Turn>, i: nat)
    requires Start(st) && InOrder(st, None, ts)
    requires var end := End(st, None, ts).0; i < |end.w.cpus| == |end.cached| && CanDo(end, i, Run(EndShoot))
    ensures Step(End(st, None, ts).0, i, Run(EndShoot)).limbo == map[]
  {
    StartGood(st);
    RunGood(st, None, ts);
    var (end, busy) := End(st, None, ts);
    OrderlyIsCareful(end, busy, i, Run(EndShoot));
    BusyKept(end, busy, i, Run(EndShoot));
    hide Good, Start, InOrder;
  }

  // ---------------------------------------------------------------- and without the big lock

  lemma {:induction false} Then(st: State, busy: Option<Space>, ts: seq<Turn>, t: Turn)
    requires InOrder(st, busy, ts)
    requires var (end, b) := End(st, busy, ts);
      t.cpu < |end.w.cpus| == |end.cached| && CanDo(end, t.cpu, t.op) && Orderly(end, b, t.cpu, t.op)
    ensures InOrder(st, busy, ts + [t])
    ensures var (end, b) := End(st, busy, ts);
      End(st, busy, ts + [t]) == (Step(end, t.cpu, t.op), Busy(end, b, t.cpu, t.op))
    decreases |ts|
  {
    hide CanDo, Orderly, Step, Busy;
    if ts == [] {
      assert [t][1..] == [];
    } else {
      assert (ts + [t])[0] == ts[0] && (ts + [t])[1..] == ts[1..] + [t];
      Then(Step(st, ts[0].cpu, ts[0].op), Busy(st, busy, ts[0].cpu, ts[0].op), ts[1..], t);
    }
  }

  /** The run leads from st to end. */
  ghost predicate Leads(st: State, ts: seq<Turn>, end: State, busy: Option<Space>) {
    InOrder(st, None, ts) && End(st, None, ts) == (end, busy)
  }

  lemma Onward(st: State, ts: seq<Turn>, end: State, i: nat, a: Act, end': State) returns (ts': seq<Turn>)
    requires Leads(st, ts, end, None) && i < |end.w.cpus| == |end.cached| && a != EndShoot && !a.StartShoot?
    requires CanDo(end, i, Run(a)) && end' == Step(end, i, Run(a))
    ensures Leads(st, ts', end', None)
  {
    Then(st, None, ts, Turn(i, Run(a)));
    ts' := ts + [Turn(i, Run(a))];
  }

  /** Three CPUs, of which the second has space 5 loaded, and one page of it, backed by frame 9. */
  ghost function Three(a: Pc, b: Pc, c: Pc, space: Space, tlb: set<Page>, cached: map<Page, Frame>,
                       tickets: nat): State {
    State(World([Cpu(a, 0, 0, {}, false), Cpu(b, space, space, tlb, false), Cpu(c, 0, 0, {}, false)],
                {(5, 7)}, {}, tickets, 0),
          map[(5, 7) := 9], [map[], cached, map[]], {}, {}, map[])
  }

  lemma AllOnline(st: State) returns (ts: seq<Turn>)
    requires st == Three(Off, Off, Off, 0, {}, map[], 0)
    ensures Leads(st, ts, Three(At(Kern), At(Kern), At(Kern), 0, {}, map[], 0), None)
  {
    ts := [];
    assert Leads(st, ts, st, None);
    hide Leads;
    var s1 := Three(At(Kern), Off, Off, 0, {}, map[], 0);
    var s2 := Three(At(Kern), At(Kern), Off, 0, {}, map[], 0);
    ts := Onward(st, ts, st, 0, Online, s1);
    ts := Onward(st, ts, s1, 1, Online, s2);
    ts := Onward(st, ts, s2, 2, Online, Three(At(Kern), At(Kern), At(Kern), 0, {}, map[], 0));
  }

  lemma Loaded(st: State, ts0: seq<Turn>) returns (ts: seq<Turn>)
    requires Leads(st, ts0, Three(At(Kern), At(Kern), At(Kern), 0, {}, map[], 0), None)
    ensures Leads(st, ts, Three(At(Kern), User, At(Kern), 5, {}, map[], 0), None)
  {
    hide Leads;
    var s0 := Three(At(Kern), At(Kern), At(Kern), 0, {}, map[], 0);
    var s1 := Step(s0, 1, Run(StartSwitch(5)));
    ts := Onward(st, ts0, s0, 1, StartSwitch(5), s1);
    var s2 := Step(s1, 1, Run(LoadCr3));
    ts := Onward(st, ts, s1, 1, LoadCr3, s2);
    var s3 := Three(At(Kern), At(Kern), At(Kern), 5, {}, map[], 0);
    ts := Onward(st, ts, s2, 1, EndSwitch, s3);
    ts := Onward(st, ts, s3, 1, Return, Three(At(Kern), User, At(Kern), 5, {}, map[], 0));
  }

  lemma Filled(st: State, ts0: seq<Turn>) returns (ts: seq<Turn>)
    requires Leads(st, ts0, Three(At(Kern), User, At(Kern), 5, {}, map[], 0), None)
    ensures Leads(st, ts, Three(At(Kern), User, At(Kern), 5, {7}, map[7 := 9], 0), None)
  {
    hide Leads;
    var s0, s1 := Three(At(Kern), User, At(Kern), 5, {}, map[], 0),
      Three(At(Kern), User, At(Kern), 5, {7}, map[7 := 9], 0);
    assert {} + {7} == {7};
    ts := Onward(st, ts0, s0, 1, Fill(7), s1);
  }

  lemma Locked(st: State, ts0: seq<Turn>) returns (ts: seq<Turn>)
    requires Leads(st, ts0, Three(At(Kern), User, At(Kern), 5, {7}, map[7 := 9], 0), None)
    ensures Leads(st, ts, Three(At(Hold), User, At(Kern), 5, {7}, map[7 := 9], 1), None)
  {
    hide Leads;
    var s1 := Three(At(Kern), User, At(Kern), 5, {7}, map[7 := 9], 0);
    var s2 := Three(At(Wait(0)), User, At(Kern), 5, {7}, map[7 := 9], 1);
    ts := Onward(st, ts0, s1, 0, Lock, s2);
    ts := Onward(st, ts, s2, 0, Acquire, Three(At(Hold), User, At(Kern), 5, {7}, map[7 := 9], 1));
  }

  lemma StartsOff()
    ensures Start(Three(Off, Off, Off, 0, {}, map[], 0))
  {}

  lemma GivenBack(st: State)
    requires st == Three(At(Hold), User, At(Kern), 5, {7}, map[7 := 9], 1)
    ensures |st.w.cpus| == |st.cached| == 3 && CanDo(st, 0, UnmapFree(5, 7))
    ensures var end := Step(st, 0, UnmapFree(5, 7));
      && |end.w.cpus| == |end.cached| == 3 && CanDo(end, 2, Take(9)) && end.w.cpus[2].pc == At(Kern)
      && Reaches(Step(end, 2, Take(9)), 1, 5, 7, 9) && Enabled(end.w, 1, Access(7))
  {
    assert !InUse(st.pte - {(5, 7)}, 9);
  }

  /** The page allocator's own lock would not do: CPU 0, which holds the big lock, has given frame 9 back and not come
      to the shootdown yet, and CPU 2 takes it without the big lock while CPU 1 still reaches it. */
  lemma TakenInReach() returns (st: State, ts: seq<Turn>, end: State)
    ensures Start(st) && Leads(st, ts, end, Some(5)) && |end.w.cpus| == |end.cached| == 3
    ensures CanDo(end, 2, Take(9)) && end.w.cpus[2].pc == At(Kern)
    ensures Reaches(Step(end, 2, Take(9)), 1, 5, 7, 9) && Enabled(end.w, 1, Access(7))
  {
    hide Start, InOrder, End, Three, Step, Reaches, CanDo, TlbShootdown.Enabled;
    st := Three(Off, Off, Off, 0, {}, map[], 0);
    StartsOff();
    ts := AllOnline(st);
    ts := Loaded(st, ts);
    ts := Filled(st, ts);
    ts := Locked(st, ts);
    var s := Three(At(Hold), User, At(Kern), 5, {7}, map[7 := 9], 1);
    GivenBack(s);
    Then(st, None, ts, Turn(0, UnmapFree(5, 7)));
    ts := ts + [Turn(0, UnmapFree(5, 7))];
    end := Step(s, 0, UnmapFree(5, 7));
  }
}
