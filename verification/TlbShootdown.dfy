/** The big kernel lock and the TLB shootdown (kernel/src/sched/bkl.c, kernel/src/mm/tlb.c, and the
    context switch of kernel/src/sched/scheduler.c) as one protocol over the steps of all CPUs. */
module TlbShootdown {
  import opened Collections

  type Space = nat
  type Page = nat

  const MAX_CPUS: nat := 64
  const TWO32: nat := 0x1_0000_0000

  /** What a CPU is doing with the lock. */
  datatype Base = Kern | Wait(ticket: nat) | Hold

  datatype Pc =
    | Off                                              // not online yet
    | User                                             // ring 3, or halted
    | At(base: Base)                                   // kernel code
    | Switching(base: Base, loaded: bool)              // active_cr3 stored; then cr3 loaded
    | Flushing(base: Base, reloaded: bool)             // tlb_flush_check saw the flag; then cr3 reloaded
    | Scanning(space: Space, next: nat, pending: set<nat>)
    | Draining(space: Space, pending: set<nat>)

  datatype Cpu = Cpu(
    pc: Pc,
    active: Space,      // active_cr3, what the other CPUs see
    cr3: Space,         // the register
    tlb: set<Page>,     // user translations of cr3 it may still use
    flush: bool)        // tlb_flush

  datatype World = World(
    cpus: seq<Cpu>,
    present: set<(Space, Page)>,      // what the page tables say
    removed: set<(Space, Page)>,      // what the holder has taken out since it got the lock
    nextTicket: nat,
    serving: nat)

  datatype Act =
    | Online | Trap | Return | Access(page: Page) | Fill(page: Page)
    | Lock | Acquire | Unlock
    | StartSwitch(space: Space) | LoadCr3 | EndSwitch
    | SeeFlush | Reload | EndFlush
    | Map(space: Space, page: Page) | Unmap(space: Space, page: Page)
    | StartShoot(space: Space) | ScanOne | StartDrain | DrainOne(cpu: nat) | EndShoot

  predicate Holding(pc: Pc) {
    || (pc.At? && pc.base == Hold) || (pc.Switching? && pc.base == Hold) || (pc.Flushing? && pc.base == Hold)
    || pc.Scanning? || pc.Draining?
  }

  /** User pages are touched, and so fetched into the TLB, in user mode or under the lock. */
  predicate MayTouch(pc: Pc) {
    pc == User || pc == At(Hold)
  }

  predicate Enabled(w: World, i: nat, a: Act)
    requires i < |w.cpus|
  {
    var c := w.cpus[i];
    match a
    case Online => c.pc == Off
    case Trap => c.pc == User
    case Return => c.pc == At(Kern)
    case Access(p) => MayTouch(c.pc) && p in c.tlb
    case Fill(p) => MayTouch(c.pc) && (c.cr3, p) in w.present
    case Lock => c.pc == At(Kern)
    case Acquire => c.pc.At? && c.pc.base.Wait? && w.serving % TWO32 == c.pc.base.ticket % TWO32
    case Unlock => c.pc == At(Hold)
    case StartSwitch(_) => c.pc == At(Kern) || c.pc == At(Hold)
    case LoadCr3 => c.pc.Switching? && !c.pc.loaded
    case EndSwitch => c.pc.Switching? && c.pc.loaded
    case SeeFlush => c.pc.At? && c.flush
    case Reload => c.pc.Flushing? && !c.pc.reloaded
    case EndFlush => c.pc.Flushing? && c.pc.reloaded
    case Map(s, p) => c.pc == At(Hold)
    case Unmap(s, p) => c.pc == At(Hold)
    case StartShoot(s) => c.pc == At(Hold)
    case ScanOne => c.pc.Scanning? && c.pc.next < |w.cpus|
    case StartDrain => c.pc.Scanning? && c.pc.next == |w.cpus|
    case DrainOne(j) => c.pc.Draining? && j in c.pc.pending && j < |w.cpus| && !w.cpus[j].flush
    case EndShoot => c.pc.Draining? && c.pc.pending == {}
  }

  function Set(w: World, i: nat, c: Cpu): World
    requires i < |w.cpus|
  {
    w.(cpus := w.cpus[i := c])
  }

  /** The space an Online CPU starts in: the kernel's own, whose user half is empty. */
  const KERNEL_SPACE: Space := 0

  function Do(w: World, i: nat, a: Act): World
    requires i < |w.cpus| && Enabled(w, i, a)
  {
    var c := w.cpus[i];
    match a
    case Online => Set(w, i, Cpu(At(Kern), KERNEL_SPACE, KERNEL_SPACE, {}, false))
    case Trap => Set(w, i, c.(pc := At(Kern)))
    case Return => Set(w, i, c.(pc := User))
    case Access(p) => w
    case Fill(p) => Set(w, i, c.(tlb := c.tlb + {p}))
    case Lock => Set(w, i, c.(pc := At(Wait(w.nextTicket)))).(nextTicket := w.nextTicket + 1)
    case Acquire => Set(w, i, c.(pc := At(Hold))).(removed := {})
    case Unlock => Set(w, i, c.(pc := At(Kern))).(serving := w.serving + 1)
    case StartSwitch(s) => Set(w, i, c.(pc := Switching(c.pc.base, false), active := s))
    case LoadCr3 => Set(w, i, c.(pc := c.pc.(loaded := true), cr3 := c.active, tlb := {}))
    case EndSwitch => Set(w, i, c.(pc := At(c.pc.base), flush := false))
    case SeeFlush => Set(w, i, c.(pc := Flushing(c.pc.base, false)))
    case Reload => Set(w, i, c.(pc := c.pc.(reloaded := true), tlb := {}))
    case EndFlush => Set(w, i, c.(pc := At(c.pc.base), flush := false))
    case Map(s, p) => w.(present := w.present + {(s, p)}, removed := w.removed - {(s, p)})
    case Unmap(s, p) =>
      var c' := if c.cr3 == s then c.(tlb := c.tlb - {p}) else c;
      Set(w, i, c').(present := w.present - {(s, p)}, removed := w.removed + {(s, p)})
    case StartShoot(s) => Set(w, i, c.(pc := Scanning(s, 0, {})))
    case ScanOne =>
      var j := c.pc.next;
      if j == i || w.cpus[j].pc == Off || w.cpus[j].active != c.pc.space then
        Set(w, i, c.(pc := c.pc.(next := j + 1)))
      else
        Set(Set(w, j, w.cpus[j].(flush := true)), i, c.(pc := c.pc.(next := j + 1, pending := c.pc.pending + {j})))
    case StartDrain => Set(w, i, c.(pc := Draining(c.pc.space, c.pc.pending)))
    case DrainOne(j) => Set(w, i, c.(pc := c.pc.(pending := c.pc.pending - {j})))
    case EndShoot => Set(w, i, c.(pc := At(Hold)))
  }

  datatype Move = Move(cpu: nat, act: Act)

  /** A schedule: whose step is next. Can it be followed, and where does it lead? */
  predicate Can(w: World, ms: seq<Move>)
    decreases |ms|
  {
    ms == [] || (ms[0].cpu < |w.cpus| && Enabled(w, ms[0].cpu, ms[0].act) && Can(Do(w, ms[0].cpu, ms[0].act), ms[1..]))
  }

  function After(w: World, ms: seq<Move>): World
    requires Can(w, ms)
    decreases |ms|
  {
    if ms == [] then w else After(Do(w, ms[0].cpu, ms[0].act), ms[1..])
  }

  ghost predicate Init(w: World) {
    && |w.cpus| <= MAX_CPUS
    && (forall i | 0 <= i < |w.cpus| :: w.cpus[i].pc == Off && !w.cpus[i].flush)
    && w.removed == {} && w.nextTicket == w.serving
  }

  // ---------------------------------------------------------------- the lock

  /** CPU i owns ticket k: it waits with it, or holds the lock and k is being served. */
  predicate Owns(w: World, i: nat, k: nat)
    requires i < |w.cpus|
  {
    var pc := w.cpus[i].pc;
    || (Holding(pc) && k == w.serving)
    || (pc.At? && pc.base == Wait(k)) || (pc.Switching? && pc.base == Wait(k)) || (pc.Flushing? && pc.base == Wait(k))
  }

  /** Every ticket between the one served and the next one to give is owned by exactly one CPU. */
  ghost predicate LockInv(w: World) {
    && w.serving <= w.nextTicket
    && (forall i: nat, k: nat | i < |w.cpus| && Owns(w, i, k) :: w.serving <= k < w.nextTicket)
    && (forall i: nat, j: nat, k: nat | i < |w.cpus| && j < |w.cpus| && Owns(w, i, k) && Owns(w, j, k) :: i == j)
    && (forall k: nat | w.serving <= k < w.nextTicket :: Owned(w, k))
    && (forall i: nat | i < |w.cpus| && w.cpus[i].pc.Switching? :: !w.cpus[i].pc.base.Wait?)
  }

  ghost predicate Owned(w: World, k: nat) {
    exists i: nat :: i < |w.cpus| && Owns(w, i, k)
  }

  /** So there are never more tickets out than CPUs. */
  lemma TicketsOut(w: World)
    requires LockInv(w)
    ensures w.nextTicket - w.serving <= |w.cpus|
  {
    var owners := OwnersUpTo(w, w.nextTicket);
    SubsetSize(owners, Below(|w.cpus|));
  }

  lemma {:induction false} OwnersUpTo(w: World, k: nat) returns (owners: set<int>)
    requires LockInv(w) && w.serving <= k <= w.nextTicket
    ensures |owners| == k - w.serving
    ensures forall i | i in owners :: 0 <= i < |w.cpus| && forall l: nat | Owns(w, i, l) :: l < k
  {
    if k == w.serving {
      owners := {};
    } else {
      var before := OwnersUpTo(w, k - 1);
      assert Owned(w, k - 1);
      var i: nat :| i < |w.cpus| && Owns(w, i, k - 1);
      forall l: nat | Owns(w, i, l)
        ensures l == k - 1
      {
        OneTicket(w, i, l, k - 1);
      }
      owners := before + {i};
    }
  }

  lemma OneTicket(w: World, i: nat, k: nat, l: nat)
    requires i < |w.cpus| && Owns(w, i, k) && Owns(w, i, l)
    ensures k == l
  {}

  /** The 32-bit comparison a waiter spins on is the comparison of tickets. */
  lemma TicketCompare(w: World, i: nat, k: nat)
    requires LockInv(w) && |w.cpus| <= MAX_CPUS && i < |w.cpus| && Owns(w, i, k)
    ensures w.serving % TWO32 == k % TWO32 <==> w.serving == k
  {
    TicketsOut(w);
  }

  lemma LockKept(w: World, i: nat, a: Act)
    requires LockInv(w) && |w.cpus| <= MAX_CPUS && i < |w.cpus| && Enabled(w, i, a)
    ensures LockInv(Do(w, i, a))
  {
    var w' := Do(w, i, a);
    if a.Acquire? {
      TicketCompare(w, i, w.cpus[i].pc.base.ticket);
    }
    if a.Unlock? {
      assert Owns(w, i, w.serving);
    }
    OwnsAfter(w, i, a);
    forall k: nat | w'.serving <= k < w'.nextTicket
      ensures Owned(w', k)
    {
      if a.Lock? && k == w.nextTicket {
        assert Owns(w', i, k);
      } else {
        assert Owned(w, k);
        var j: nat :| j < |w.cpus| && Owns(w, j, k);
        assert Owns(w', j, k);
      }
    }
    hide Owns;
  }

  /** Who owns ticket k once CPU i has done a. */
  predicate WillOwn(w: World, i: nat, a: Act, j: nat, k: nat)
    requires j < |w.cpus|
  {
    if a.Lock? && j == i then k == w.nextTicket
    else if a.Unlock? && j == i then false
    else Owns(w, j, k)
  }

  lemma OwnsAfter(w: World, i: nat, a: Act)
    requires LockInv(w) && i < |w.cpus| && Enabled(w, i, a)
    requires a.Acquire? ==> w.cpus[i].pc.base.ticket == w.serving
    ensures |Do(w, i, a).cpus| == |w.cpus|
    ensures forall j: nat, k: nat | j < |w.cpus| :: Owns(Do(w, i, a), j, k) <==> WillOwn(w, i, a, j, k)
  {
    forall j: nat, k: nat | j < |w.cpus|
      ensures Owns(Do(w, i, a), j, k) <==> WillOwn(w, i, a, j, k)
    {
      if j == i {
        IOwnAfter(w, i, a, k);
      } else {
        OtherOwnsAfter(w, i, a, j, k);
      }
    }
    hide Owns, WillOwn, LockInv;
  }

  lemma IOwnAfter(w: World, i: nat, a: Act, k: nat)
    requires LockInv(w) && i < |w.cpus| && Enabled(w, i, a)
    requires a.Acquire? ==> w.cpus[i].pc.base.ticket == w.serving
    ensures Owns(Do(w, i, a), i, k) <==> WillOwn(w, i, a, i, k)
  {}

  lemma OtherOwnsAfter(w: World, i: nat, a: Act, j: nat, k: nat)
    requires LockInv(w) && i < |w.cpus| && Enabled(w, i, a) && j < |w.cpus| && j != i
    ensures Owns(Do(w, i, a), j, k) <==> WillOwn(w, i, a, j, k)
  {
    assert Do(w, i, a).cpus[j].pc == w.cpus[j].pc;
    if a.Unlock? && Holding(w.cpus[j].pc) {
      MutualExclusion(w, i, j);
    }
  }

  /** At most one CPU holds the lock, and it is the one whose turn it is. */
  lemma MutualExclusion(w: World, i: nat, j: nat)
    requires LockInv(w) && i < |w.cpus| && j < |w.cpus| && Holding(w.cpus[i].pc) && Holding(w.cpus[j].pc)
    ensures i == j && Owns(w, i, w.serving)
  {
    assert Owns(w, i, w.serving) && Owns(w, j, w.serving);
  }

  // ---------------------------------------------------------------- what TLBs may hold

  /** Between the store of active_cr3 and the load of cr3 nothing of the old space is used. */
  predicate Between(c: Cpu) {
    c.pc.Switching? && !c.pc.loaded
  }

  /** Just flushed, and nothing fetched since. */
  predicate Empty(c: Cpu) {
    || (c.pc.Switching? && c.pc.loaded && c.pc.base != Hold)
    || (c.pc.Flushing? && c.pc.reloaded && c.pc.base != Hold)
  }

  predicate CpuInv(c: Cpu) {
    && (c.pc == Off ==> !c.flush)
    && (c.pc != Off && !Between(c) ==> c.active == c.cr3)
    && (c.pc.Flushing? ==> c.flush)
    && (Empty(c) ==> c.tlb == {})
  }

  /** CPU c can reach user memory through a translation of page p of space s. */
  predicate Uses(c: Cpu, s: Space, p: Page) {
    c.pc != Off && !Between(c) && c.cr3 == s && p in c.tlb
  }

  /** CPU c uses no translation of space s that the page tables do not have. */
  ghost predicate Clean(w: World, c: Cpu, s: Space) {
    forall p: Page | Uses(c, s, p) :: (s, p) in w.present
  }

  predicate Shooting(pc: Pc) { pc.Scanning? || pc.Draining? }

  predicate Scanned(pc: Pc, j: nat)
    requires Shooting(pc)
  {
    pc.Draining? || j < pc.next
  }

  /** CPU h is in tlb_shootdown: everyone else it has looked at is clean or still has to answer. */
  ghost predicate ShootInv(w: World, h: nat)
    requires h < |w.cpus| && Shooting(w.cpus[h].pc)
  {
    var pc := w.cpus[h].pc;
    && (pc.Scanning? ==> pc.next <= |w.cpus|)
    && (forall j: nat | j < |w.cpus| && w.cpus[j].flush :: j in pc.pending)
    && (forall j: nat | j < |w.cpus| && Scanned(pc, j) && !w.cpus[j].flush && j != h :: Clean(w, w.cpus[j], pc.space))
    && (forall j | j in pc.pending :: 0 <= j < |w.cpus| && j != h)
  }

  ghost predicate SomeShooting(w: World) {
    exists h: nat :: h < |w.cpus| && Shooting(w.cpus[h].pc)
  }

  /** The holder has nothing left of what it took out itself. */
  ghost predicate HolderInv(w: World, c: Cpu) {
    forall p: Page, s: Space | Uses(c, s, p) :: (s, p) !in w.removed
  }

  ghost predicate TlbInv(w: World) {
    && w.removed !! w.present
    && (forall j: nat | j < |w.cpus| :: CpuInv(w.cpus[j]))
    && (forall h: nat | h < |w.cpus| && Shooting(w.cpus[h].pc) :: ShootInv(w, h))
    && (forall j: nat | j < |w.cpus| && w.cpus[j].flush :: SomeShooting(w))
    && (forall h: nat | h < |w.cpus| && Holding(w.cpus[h].pc) :: HolderInv(w, w.cpus[h]))
  }

  /** When tlb_shootdown returns, everyone else has answered or needed not. */
  lemma EveryoneClean(w: World, i: nat, j: nat)
    requires TlbInv(w) && i < |w.cpus| && j < |w.cpus| && w.cpus[i].pc.Draining? && w.cpus[i].pc.pending == {}
    ensures (j != i ==> Clean(w, w.cpus[j], w.cpus[i].pc.space)) && !w.cpus[j].flush
  {
    assert ShootInv(w, i);
  }

  /** Whoever gets the lock finds it free and has the lowest ticket of all. */
  lemma NobodyBefore(w: World, i: nat, h: nat)
    requires LockInv(w) && |w.cpus| <= MAX_CPUS && i < |w.cpus| && h < |w.cpus| && Enabled(w, i, Acquire)
    ensures !Holding(w.cpus[h].pc)
    ensures forall k: nat | h != i && Owns(w, h, k) :: w.cpus[i].pc.base.ticket < k
  {
    TicketCompare(w, i, w.cpus[i].pc.base.ticket);
    assert Owns(w, i, w.serving);
    assert forall j: nat | j < |w.cpus| && Holding(w.cpus[j].pc) :: Owns(w, j, w.serving);
  }

  lemma HolderKept(w: World, i: nat, a: Act, h: nat)
    requires LockInv(w) && TlbInv(w) && i < |w.cpus| && Enabled(w, i, a)
    requires h < |w.cpus| && Holding(Do(w, i, a).cpus[h].pc)
    ensures HolderInv(Do(w, i, a), Do(w, i, a).cpus[h])
  {
    if a.Unmap? && Holding(w.cpus[h].pc) {
      MutualExclusion(w, i, h);
    }
  }

  /** While the holder is not in tlb_shootdown nobody has been asked to flush. */
  lemma NoFlags(w: World, i: nat, j: nat)
    requires LockInv(w) && TlbInv(w) && i < |w.cpus| && w.cpus[i].pc == At(Hold) && j < |w.cpus|
    ensures !w.cpus[j].flush
  {
    if w.cpus[j].flush {
      var h: nat :| h < |w.cpus| && Shooting(w.cpus[h].pc);
      MutualExclusion(w, i, h);
      assert false;
    }
  }

  lemma ShootStarts(w: World, i: nat, a: Act)
    requires LockInv(w) && TlbInv(w) && i < |w.cpus| && a.StartShoot? && Enabled(w, i, a)
    ensures ShootInv(Do(w, i, a), i)
  {
    forall j: nat | j < |w.cpus| { NoFlags(w, i, j); }
  }

  /** What the CPU in tlb_shootdown does. */
  lemma ShootOwn(w: World, i: nat, a: Act)
    requires TlbInv(w) && i < |w.cpus| && (a.ScanOne? || a.StartDrain? || a.DrainOne?) && Enabled(w, i, a)
    ensures ShootInv(Do(w, i, a), i)
  {
    assert ShootInv(w, i);
    if a.ScanOne? {
      assert CpuInv(w.cpus[w.cpus[i].pc.next]);
    }
  }

  /** What the others do meanwhile. */
  lemma ShootOther(w: World, i: nat, a: Act, h: nat)
    requires TlbInv(w) && i < |w.cpus| && Enabled(w, i, a) && !Holding(w.cpus[i].pc)
    requires h < |w.cpus| && h != i && Shooting(w.cpus[h].pc)
    ensures ShootInv(Do(w, i, a), h)
  {
    assert ShootInv(w, h);
    OtherClean(w, i, a, w.cpus[h].pc.space);
    hide CpuInv, TlbInv, LockInv;
  }

  /** A CPU without the lock gets no translation that is not there, and drops its flag only when clean. */
  lemma OtherClean(w: World, i: nat, a: Act, s: Space)
    requires TlbInv(w) && i < |w.cpus| && Enabled(w, i, a) && !Holding(w.cpus[i].pc)
    ensures Do(w, i, a).present == w.present
    ensures Do(w, i, a).cpus == w.cpus[i := Do(w, i, a).cpus[i]]
    ensures Do(w, i, a).cpus[i].flush ==> w.cpus[i].flush
    ensures w.cpus[i].flush && !Do(w, i, a).cpus[i].flush ==> Clean(w, Do(w, i, a).cpus[i], s)
    ensures Clean(w, w.cpus[i], s) ==> Clean(w, Do(w, i, a).cpus[i], s)
  {
    assert CpuInv(w.cpus[i]);
  }

  lemma ShootKept(w: World, i: nat, a: Act, h: nat)
    requires LockInv(w) && TlbInv(w) && i < |w.cpus| && Enabled(w, i, a)
    requires h < |w.cpus| && Shooting(Do(w, i, a).cpus[h].pc)
    ensures ShootInv(Do(w, i, a), h)
  {
    if h == i {
      if a.StartShoot? {
        ShootStarts(w, i, a);
      } else {
        ShootOwn(w, i, a);
      }
    } else {
      assert Shooting(w.cpus[h].pc);
      if Holding(w.cpus[i].pc) {
        MutualExclusion(w, i, h);
      }
      ShootOther(w, i, a, h);
    }
    hide LockInv, TlbInv, ShootInv;
  }

  lemma FlagsKept(w: World, i: nat, a: Act, j: nat)
    requires TlbInv(w) && i < |w.cpus| && Enabled(w, i, a) && j < |w.cpus| && Do(w, i, a).cpus[j].flush
    ensures SomeShooting(Do(w, i, a))
  {
    var w' := Do(w, i, a);
    if a.ScanOne? {
      assert Shooting(w'.cpus[i].pc);
    } else if a.EndShoot? {
      EveryoneClean(w, i, j);
    } else {
      assert w.cpus[j].flush;
      var h: nat :| h < |w.cpus| && Shooting(w.cpus[h].pc);
      assert Shooting(w'.cpus[h].pc);
    }
  }

  lemma CpusKept(w: World, i: nat, a: Act)
    requires TlbInv(w) && i < |w.cpus| && Enabled(w, i, a)
    ensures Do(w, i, a).removed !! Do(w, i, a).present
    ensures forall j: nat | j < |w.cpus| :: CpuInv(Do(w, i, a).cpus[j])
  {
    hide ShootInv, HolderInv, SomeShooting;
  }

  lemma TlbKept(w: World, i: nat, a: Act)
    requires LockInv(w) && TlbInv(w) && i < |w.cpus| && Enabled(w, i, a)
    ensures TlbInv(Do(w, i, a))
  {
    var w' := Do(w, i, a);
    assert |w'.cpus| == |w.cpus|;
    CpusKept(w, i, a);
    forall h: nat | h < |w'.cpus| && Shooting(w'.cpus[h].pc)
      ensures ShootInv(w', h)
    {
      ShootKept(w, i, a, h);
    }
    forall j: nat | j < |w'.cpus| && w'.cpus[j].flush
      ensures SomeShooting(w')
    {
      FlagsKept(w, i, a, j);
    }
    forall h: nat | h < |w'.cpus| && Holding(w'.cpus[h].pc)
      ensures HolderInv(w', w'.cpus[h])
    {
      HolderKept(w, i, a, h);
    }
    hide *;
  }

  // ---------------------------------------------------------------- runs

  ghost predicate Inv(w: World) {
    |w.cpus| <= MAX_CPUS && LockInv(w) && TlbInv(w)
  }

  lemma InvKept(w: World, i: nat, a: Act)
    requires Inv(w) && i < |w.cpus| && Enabled(w, i, a)
    ensures Inv(Do(w, i, a)) && |Do(w, i, a).cpus| == |w.cpus|
  {
    LockKept(w, i, a);
    TlbKept(w, i, a);
    hide LockInv, TlbInv;
  }

  lemma {:induction false} RunKept(w: World, ms: seq<Move>)
    requires Inv(w) && Can(w, ms)
    ensures Inv(After(w, ms)) && |After(w, ms).cpus| == |w.cpus|
    decreases |ms|
  {
    if ms != [] {
      InvKept(w, ms[0].cpu, ms[0].act);
      RunKept(Do(w, ms[0].cpu, ms[0].act), ms[1..]);
    }
    hide Inv, Do, Enabled;
  }

  /** Every state of every run from the start keeps the protocol's invariant; so at most one CPU holds the lock. */
  lemma Reachable(w: World, ms: seq<Move>)
    requires Init(w) && Can(w, ms)
    ensures Inv(After(w, ms))
    ensures var r := After(w, ms);
      forall i: nat, j: nat | i < |r.cpus| && j < |r.cpus| && Holding(r.cpus[i].pc) && Holding(r.cpus[j].pc) :: i == j
  {
    assert Inv(w);
    RunKept(w, ms);
    var r := After(w, ms);
    forall i: nat, j: nat | i < |r.cpus| && j < |r.cpus| && Holding(r.cpus[i].pc) && Holding(r.cpus[j].pc)
      ensures i == j
    {
      MutualExclusion(r, i, j);
    }
    hide LockInv, TlbInv, Do, Enabled;
  }

  lemma {:induction false} RunSplit(w: World, a: seq<Move>, b: seq<Move>)
    ensures Can(w, a + b) <==> Can(w, a) && Can(After(w, a), b)
    ensures Can(w, a + b) ==> After(w, a + b) == After(After(w, a), b)
    decreases |a|
  {
    if a == [] {
      assert a + b == b;
    } else {
      assert (a + b)[1..] == a[1..] + b && (a + b)[0] == a[0];
      if a[0].cpu < |w.cpus| && Enabled(w, a[0].cpu, a[0].act) {
        RunSplit(Do(w, a[0].cpu, a[0].act), a[1..], b);
      }
    }
    hide Do, Enabled;
  }

  /** Page p of space s is out of the page tables and out of every TLB. */
  ghost predicate Gone(w: World, s: Space, p: Page) {
    (s, p) !in w.present && forall j: nat | j < |w.cpus| :: !Uses(w.cpus[j], s, p)
  }

  /** When tlb_shootdown(s) returns, a page that is out of the tables is out of every other TLB too, whoever
      took it out; the caller's own TLB is not touched, and has it exactly if it had it before. What the caller
      took out itself it had invalidated. */
  lemma Returns(w: World, i: nat, p: Page)
    requires Inv(w) && i < |w.cpus| && Enabled(w, i, EndShoot) && (w.cpus[i].pc.space, p) !in w.present
    ensures Gone(Do(w, i, EndShoot), w.cpus[i].pc.space, p) <==> !Uses(w.cpus[i], w.cpus[i].pc.space, p)
    ensures (w.cpus[i].pc.space, p) in w.removed ==> Gone(Do(w, i, EndShoot), w.cpus[i].pc.space, p)
  {
    var s := w.cpus[i].pc.space;
    var w' := Do(w, i, EndShoot);
    forall j: nat | j < |w.cpus| && j != i
      ensures !Uses(w'.cpus[j], s, p)
    {
      EveryoneClean(w, i, j);
    }
    assert HolderInv(w, w.cpus[i]);
    assert Uses(w'.cpus[i], s, p) <==> Uses(w.cpus[i], s, p);
  }

  lemma GoneKept(w: World, i: nat, a: Act, s: Space, p: Page)
    requires Gone(w, s, p) && i < |w.cpus| && Enabled(w, i, a) && a != Map(s, p)
    ensures Gone(Do(w, i, a), s, p)
  {}

  lemma {:induction false} StaysGone(w: World, ms: seq<Move>, s: Space, p: Page)
    requires Gone(w, s, p) && Can(w, ms) && forall m | m in ms :: m.act != Map(s, p)
    ensures Gone(After(w, ms), s, p)
    decreases |ms|
  {
    if ms != [] {
      GoneKept(w, ms[0].cpu, ms[0].act, s, p);
      StaysGone(Do(w, ms[0].cpu, ms[0].act), ms[1..], s, p);
    }
    hide Gone, Do, Enabled;
  }

  /** After tlb_shootdown returns, no CPU ever makes an access through a translation that the caller removed
      before the call, in whatever order the CPUs go on, until someone maps the page again. */
  lemma NeverAgain(w: World, before: seq<Move>, i: nat, rest: seq<Move>, p: Page)
    requires Init(w) && Can(w, before + ([Move(i, EndShoot)] + rest)) && Can(w, before)
    requires i < |After(w, before).cpus| && After(w, before).cpus[i].pc.Draining?
    requires (After(w, before).cpus[i].pc.space, p) in After(w, before).removed
    requires forall m | m in rest :: m.act != Map(After(w, before).cpus[i].pc.space, p)
    ensures var s := After(w, before).cpus[i].pc.space;
      var end := After(w, before + ([Move(i, EndShoot)] + rest));
      Gone(end, s, p) && forall j: nat | j < |end.cpus| && end.cpus[j].cr3 == s :: !Enabled(end, j, Access(p))
  {
    var mid := After(w, before);
    var s := mid.cpus[i].pc.space;
    Reachable(w, before);
    RunSplit(w, before, [Move(i, EndShoot)] + rest);
    assert Can(mid, [Move(i, EndShoot)] + rest);
    RunSplit(mid, [Move(i, EndShoot)], rest);
    assert Can(mid, [Move(i, EndShoot)]);
    var after := Do(mid, i, EndShoot);
    assert After(mid, [Move(i, EndShoot)]) == after by { assert [Move(i, EndShoot)][1..] == []; }
    Removed(mid, i, p);
    Returns(mid, i, p);
    StaysGone(after, rest, s, p);
    var end := After(after, rest);
    forall j: nat | j < |end.cpus| && end.cpus[j].cr3 == s
      ensures !Enabled(end, j, Access(p))
    {
      assert !Uses(end.cpus[j], s, p);
    }
    hide Do, LockInv, TlbInv, Inv;
  }

  lemma Removed(w: World, i: nat, p: Page)
    requires Inv(w) && i < |w.cpus| && w.cpus[i].pc.Draining? && (w.cpus[i].pc.space, p) in w.removed
    ensures (w.cpus[i].pc.space, p) !in w.present
  {}

  lemma Then(w: World, ms: seq<Move>, m: Move) returns (ms': seq<Move>)
    requires Can(w, ms) && m.cpu < |After(w, ms).cpus| && Enabled(After(w, ms), m.cpu, m.act)
    ensures ms' == ms + [m] && Can(w, ms') && After(w, ms') == Do(After(w, ms), m.cpu, m.act)
  {
    RunSplit(w, ms, [m]);
    ms' := ms + [m];
    var end := After(w, ms);
    assert [m][1..] == [] && Can(end, [m]);
    hide Do, Enabled;
  }

  /** Two CPUs, the second with space `space` loaded. */
  function Two(a: Pc, b: Pc, space: Space, tlb: set<Page>): World {
    World([Cpu(a, 0, 0, {}, false), Cpu(b, space, space, tlb, false)], {(5, 7)}, {}, 0, 0)
  }

  lemma Started(w: World) returns (ms: seq<Move>)
    requires w == Two(Off, Off, 0, {})
    ensures Can(w, ms) && After(w, ms) == Two(At(Kern), At(Kern), 5, {})
  {
    ms := [];
    assert Can(w, ms) && After(w, ms) == w;
    hide Can, After;
    ms := Then(w, ms, Move(0, Online));
    ms := Then(w, ms, Move(1, Online));
    assert After(w, ms) == Two(At(Kern), At(Kern), 0, {});
    ms := Then(w, ms, Move(1, StartSwitch(5)));
    ms := Then(w, ms, Move(1, LoadCr3));
    ms := Then(w, ms, Move(1, EndSwitch));
  }

  /** CPU 1 runs in space 5 and has fetched page 7. */
  lemma Fetched(w: World) returns (ms: seq<Move>)
    requires w == Two(Off, Off, 0, {})
    ensures Can(w, ms) && After(w, ms) == Two(At(Kern), At(Kern), 5, {7})
  {
    hide Can, After;
    ms := Started(w);
    ms := Then(w, ms, Move(1, Return));
    ms := Then(w, ms, Move(1, Fill(7)));
    ms := Then(w, ms, Move(1, Trap));
    assert {} + {7} == {7};
  }

  /** CPU 0 takes the page out and lets the lock go without a shootdown. */
  lemma Abandoned(w: World, before: seq<Move>) returns (ms: seq<Move>)
    requires Can(w, before)
    requires After(w, before) ==
      World([Cpu(At(Kern), 0, 0, {}, false), Cpu(At(Kern), 5, 5, {7}, false)], {(5, 7)}, {}, 0, 0)
    ensures Can(w, ms)
    ensures After(w, ms) == World([Cpu(At(Kern), 0, 0, {}, false), Cpu(At(Hold), 5, 5, {7}, false)], {}, {}, 2, 1)
  {
    hide Can, After;
    ms := before;
    ms := Then(w, ms, Move(0, Lock));
    ms := Then(w, ms, Move(0, Acquire));
    ms := Then(w, ms, Move(0, Unmap(5, 7)));
    ms := Then(w, ms, Move(0, Unlock));
    ms := Then(w, ms, Move(1, Lock));
    ms := Then(w, ms, Move(1, Acquire));
    assert {(5, 7)} - {(5, 7)} == {};
  }

  lemma Called(w: World, before: seq<Move>) returns (ms: seq<Move>)
    requires Can(w, before)
    requires After(w, before) == World([Cpu(At(Kern), 0, 0, {}, false), Cpu(At(Hold), 5, 5, {7}, false)], {}, {}, 2, 1)
    ensures Can(w, ms)
    ensures After(w, ms) ==
      World([Cpu(At(Kern), 0, 0, {}, false), Cpu(Draining(5, {}), 5, 5, {7}, false)], {}, {}, 2, 1)
  {
    hide Can, After;
    ms := Then(w, before, Move(1, StartShoot(5)));
    ms := Then(w, ms, Move(1, ScanOne));
    ms := Then(w, ms, Move(1, ScanOne));
    ms := Then(w, ms, Move(1, StartDrain));
  }

  /** It has to be the caller that removed it: CPU 1, which still has a page that CPU 0 took out, calls
      tlb_shootdown and goes on using the page. */
  lemma SomeoneElses() returns (w: World, ms: seq<Move>)
    ensures Init(w) && Can(w, ms) && |After(w, ms).cpus| == 2 && Enabled(After(w, ms), 1, EndShoot)
    ensures var end := Do(After(w, ms), 1, EndShoot);
      After(w, ms).cpus[1].pc.space == 5 && (5, 7) !in end.present && Enabled(end, 1, Access(7))
        && Uses(end.cpus[1], 5, 7)
  {
    hide Can, After;
    w := World([Cpu(Off, 0, 0, {}, false), Cpu(Off, 0, 0, {}, false)], {(5, 7)}, {}, 0, 0);
    ms := Fetched(w);
    ms := Abandoned(w, ms);
    ms := Called(w, ms);
  }

  // ---------------------------------------------------------------- tlb_shootdown comes to an end

  /** What CPU i does next to answer: it takes the interrupt, looks at its flag while it waits for the lock,
      or finishes the switch or flush it is in the middle of. */
  function AnswerAct(c: Cpu): Act {
    match c.pc
    case User => Trap
    case Switching(_, loaded) => if loaded then EndSwitch else LoadCr3
    case Flushing(_, reloaded) => if reloaded then EndFlush else Reload
    case _ => SeeFlush
  }

  function Rank(c: Cpu): (r: nat)
    ensures r <= 4
  {
    match c.pc
    case User => 4
    case Switching(_, loaded) => if loaded then 1 else 2
    case Flushing(_, reloaded) => if reloaded then 1 else 2
    case _ => 3
  }

  /** A flagged CPU can always take its next answering step, also while it is queued for the lock; the step
      clears the flag or brings it closer, and touches no other CPU. */
  lemma Answers(w: World, j: nat, h: nat)
    requires Inv(w) && j < |w.cpus| && w.cpus[j].flush && h < |w.cpus| && Shooting(w.cpus[h].pc)
    ensures j != h && Enabled(w, j, AnswerAct(w.cpus[j]))
    ensures var w' := Do(w, j, AnswerAct(w.cpus[j]));
      w'.cpus == w.cpus[j := w'.cpus[j]] && (w'.cpus[j].flush ==> Rank(w'.cpus[j]) < Rank(w.cpus[j]))
  {
    assert ShootInv(w, h);
    assert CpuInv(w.cpus[j]);
    if Holding(w.cpus[j].pc) {
      MutualExclusion(w, j, h);
    }
  }

  /** So from every state a few steps of its own clear its flag. */
  lemma {:induction false} Answer(w: World, j: nat, h: nat) returns (ms: seq<Move>)
    requires Inv(w) && j < |w.cpus| && h < |w.cpus| && j != h && Shooting(w.cpus[h].pc)
    ensures Can(w, ms) && |ms| <= 4 && (w.cpus[j].flush ==> |ms| <= Rank(w.cpus[j]))
    ensures forall m | m in ms :: m.cpu == j
    ensures Inv(After(w, ms)) && |After(w, ms).cpus| == |w.cpus|
    ensures After(w, ms).cpus == w.cpus[j := After(w, ms).cpus[j]] && !After(w, ms).cpus[j].flush
    decreases Rank(w.cpus[j])
  {
    if !w.cpus[j].flush {
      ms := [];
    } else {
      Answers(w, j, h);
      var a := AnswerAct(w.cpus[j]);
      InvKept(w, j, a);
      var w' := Do(w, j, a);
      if w'.cpus[j].flush {
        var rest := Answer(w', j, h);
        ms := [Move(j, a)] + rest;
      } else {
        ms := [Move(j, a)];
      }
      assert ms[0] == Move(j, a);
      hide Inv, Enabled, Do, AnswerAct, Rank;
    }
  }

  /** From every state in which CPU h is in tlb_shootdown there are at most 6n + 2 steps, of h and of the CPUs it
      waits for, that let it return: no CPU can be in a position where it waits for ever. */
  lemma Finishes(w: World, h: nat) returns (ms: seq<Move>)
    requires Inv(w) && h < |w.cpus| && Shooting(w.cpus[h].pc)
    ensures Can(w, ms) && |After(w, ms).cpus| == |w.cpus| && After(w, ms).cpus[h].pc == At(Hold)
    ensures |ms| <= 6 * |w.cpus| + 2
  {
    var scan := Scan(w, h);
    var w' := After(w, scan);
    RunKept(w, scan);
    PendingSize(w', h);
    var drain := Drain(w', h);
    RunSplit(w, scan, drain);
    ms := scan + drain;
    hide Inv;
  }

  lemma PendingSize(w: World, h: nat)
    requires Inv(w) && h < |w.cpus| && w.cpus[h].pc.Draining?
    ensures |w.cpus[h].pc.pending| <= |w.cpus|
  {
    assert ShootInv(w, h);
    SubsetSize(w.cpus[h].pc.pending, Below(|w.cpus|));
  }

  lemma {:induction false} Scan(w: World, h: nat) returns (ms: seq<Move>)
    requires Inv(w) && h < |w.cpus| && Shooting(w.cpus[h].pc)
    ensures Can(w, ms) && |After(w, ms).cpus| == |w.cpus| && After(w, ms).cpus[h].pc.Draining?
    ensures |ms| <= if w.cpus[h].pc.Scanning? then |w.cpus| - w.cpus[h].pc.next + 1 else 0
    decreases if w.cpus[h].pc.Scanning? then |w.cpus| - w.cpus[h].pc.next + 1 else 0
  {
    assert ShootInv(w, h);
    if w.cpus[h].pc.Draining? {
      ms := [];
    } else {
      var a := if w.cpus[h].pc.next == |w.cpus| then StartDrain else ScanOne;
      InvKept(w, h, a);
      assert ShootInv(Do(w, h, a), h);
      var rest := Scan(Do(w, h, a), h);
      ms := [Move(h, a)] + rest;
      assert ms[0] == Move(h, a) && ms[1..] == rest;
    }
  }

  lemma DrainEnds(w: World, h: nat)
    requires h < |w.cpus| && w.cpus[h].pc.Draining? && w.cpus[h].pc.pending == {}
    ensures Can(w, [Move(h, EndShoot)])
    ensures var end := After(w, [Move(h, EndShoot)]); |end.cpus| == |w.cpus| && end.cpus[h].pc == At(Hold)
  {
    var ms := [Move(h, EndShoot)];
    assert ms[1..] == [];
  }

  /** One of those it waits for answers and is seen to have. */
  lemma DrainNext(w: World, h: nat) returns (ms: seq<Move>)
    requires Inv(w) && h < |w.cpus| && w.cpus[h].pc.Draining? && w.cpus[h].pc.pending != {}
    ensures Can(w, ms) && |ms| <= 5 && Inv(After(w, ms)) && |After(w, ms).cpus| == |w.cpus|
    ensures After(w, ms).cpus[h].pc.Draining? && |After(w, ms).cpus[h].pc.pending| == |w.cpus[h].pc.pending| - 1
  {
    var j := Pending(w, h);
    hide Inv, Can, After;
    var answer := Answer(w, j, h);
    var w' := After(w, answer);
    InvKept(w', h, DrainOne(j));
    ms := Then(w, answer, Move(h, DrainOne(j)));
  }

  lemma Pending(w: World, h: nat) returns (j: nat)
    requires Inv(w) && h < |w.cpus| && w.cpus[h].pc.Draining? && w.cpus[h].pc.pending != {}
    ensures j in w.cpus[h].pc.pending && j < |w.cpus| && j != h
  {
    assert ShootInv(w, h);
    j :| j in w.cpus[h].pc.pending;
  }

  lemma {:induction false} Drain(w: World, h: nat) returns (ms: seq<Move>)
    requires Inv(w) && h < |w.cpus| && w.cpus[h].pc.Draining?
    ensures Can(w, ms) && |After(w, ms).cpus| == |w.cpus| && After(w, ms).cpus[h].pc == At(Hold)
    ensures |ms| <= 5 * |w.cpus[h].pc.pending| + 1
    decreases |w.cpus[h].pc.pending|
  {
    hide Inv, Can, After;
    if w.cpus[h].pc.pending == {} {
      ms := [Move(h, EndShoot)];
      DrainEnds(w, h);
    } else {
      var next := DrainNext(w, h);
      var rest := Drain(After(w, next), h);
      RunSplit(w, next, rest);
      ms := next + rest;
    }
  }
}
