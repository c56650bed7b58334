/** How tasks are handed from CPU to CPU (kernel/src/sched/scheduler.c): every rq_lock section, every store made
    without the lock, the spin on on_cpu and the two halves of sched_return are steps of one protocol, and so are the
    steps of sched_mark_task_dead and of the reaper (kernel/src/sched/sched_reaper.c), which does not take the lock. */
module SchedHandoff {

  datatype State = Ready | Running | Blocked | Stopped | Zombie | Dead | Freed

  datatype Task = Task(
    state: State,
    onCpu: bool,        // on_cpu
    queued: bool,       // ready_array is set
    idle: bool,
    home: nat,          // auxiliary: the CPU it is on
    taken: bool,        // auxiliary: popped by a CPU that has not switched to it yet,
    taker: nat)         // and which

  datatype Pc =
    | Run                           // in the current task
    | Spin(next: nat, stamp: nat)   // section of sched_next_context done; stamp counts such sections
    | Returning(prev: nat)          // switched; prev_task is set
    | Releasing(prev: nat)          // sched_return holds rq_lock and has cleared on_cpu

  datatype Cpu = Cpu(current: nat, idleTask: nat, pc: Pc)

  datatype World = World(tasks: seq<Task>, cpus: seq<Cpu>, queue: multiset<nat>, clock: nat)

  datatype Pick = Nobody | Take(task: nat)

  datatype Act =
    | Yield | Store(state: State) | Block | SetRunning
    | Wake(task: nat) | Continue(task: nat) | Bury(task: nat) | Unlink(task: nat) | Reap(task: nat)
    | Spawn(task: nat, ready: bool)
    | Skip(task: nat) | Next(pick: Pick) | Switch | Release | Requeue

  predicate LockFree(w: World) {
    forall c | 0 <= c < |w.cpus| :: !w.cpus[c].pc.Releasing?
  }

  /** What ready_pop may find once the CPU has put its own task back in line. */
  predicate MayPick(w: World, p: nat, pick: Pick)
    requires p < |w.tasks|
  {
    var back := (w.tasks[p].state == Running || w.tasks[p].state == Ready) && !w.tasks[p].idle;
    match pick
    case Nobody => !back && forall t | 0 <= t < |w.tasks| :: !(w.tasks[t].queued && w.tasks[t].state == Ready)
    case Take(t) => t < |w.tasks| && ((t == p && back) || (w.tasks[t].queued && w.tasks[t].state == Ready))
  }

  predicate Named(w: World) {
    forall c | 0 <= c < |w.cpus| :: w.cpus[c].current < |w.tasks| && w.cpus[c].idleTask < |w.tasks|
  }

  predicate Enabled(w: World, c: nat, a: Act)
    requires c < |w.cpus| && Named(w)
  {
    var cpu := w.cpus[c];
    var k := w.tasks[cpu.current];
    match a
    case Yield => cpu.pc == Run
    case Store(s) => cpu.pc == Run && !k.idle && (s == Blocked || s == Stopped || s == Zombie || s == Dead)
    case Block => cpu.pc == Run && !k.idle && LockFree(w)
    case SetRunning => cpu.pc == Run && LockFree(w)
    case Wake(t) => cpu.pc == Run && LockFree(w) && t < |w.tasks|
    case Continue(t) => cpu.pc == Run && LockFree(w) && t < |w.tasks|
    case Bury(t) => cpu.pc == Run && t < |w.tasks| && (w.tasks[t].state == Zombie || w.tasks[t].state == Blocked)
    case Unlink(t) => cpu.pc == Run && LockFree(w) && t < |w.tasks| && w.tasks[t].state == Dead
    case Reap(t) => cpu.pc == Run && t < |w.tasks| && w.tasks[t].state == Dead && !w.tasks[t].onCpu
    case Spawn(t, _) => cpu.pc == Run && LockFree(w) && t < |w.tasks| && w.tasks[t].state == Freed
    case Skip(t) => cpu.pc == Run && LockFree(w) && t < |w.tasks| && w.tasks[t].queued && w.tasks[t].state != Ready
    case Next(pick) => cpu.pc == Run && LockFree(w) && MayPick(w, cpu.current, pick)
    case Switch => cpu.pc.Spin? && cpu.pc.next < |w.tasks| && !w.tasks[cpu.pc.next].onCpu
    case Release => cpu.pc.Returning? && cpu.pc.prev < |w.tasks| && LockFree(w)
    case Requeue => cpu.pc.Releasing? && cpu.pc.prev < |w.tasks|
  }

  function SetTask(w: World, t: nat, k: Task): World
    requires t < |w.tasks|
  {
    w.(tasks := w.tasks[t := k])
  }

  function SetPc(w: World, c: nat, pc: Pc): World
    requires c < |w.cpus|
  {
    w.(cpus := w.cpus[c := w.cpus[c].(pc := pc)])
  }

  /** rq_enqueue */
  function Enqueue(w: World, t: nat): World
    requires t < |w.tasks|
  {
    var k := w.tasks[t];
    if k.queued || k.idle then w else SetTask(w, t, k.(queued := true)).(queue := w.queue + multiset{t})
  }

  /** rq_dequeue */
  function Dequeue(w: World, t: nat): World
    requires t < |w.tasks|
  {
    var k := w.tasks[t];
    if k.queued then SetTask(w, t, k.(queued := false)).(queue := w.queue - multiset{t}) else w
  }

  function SetState(w: World, t: nat, s: State): World
    requires t < |w.tasks|
  {
    SetTask(w, t, w.tasks[t].(state := s))
  }

  /** A task that is waiting becomes READY; it is queued only if no CPU is on its stack. */
  function Awaken(w: World, t: nat): World
    requires t < |w.tasks|
  {
    var r := SetState(w, t, Ready);
    if w.tasks[t].onCpu then r else Enqueue(r, t)
  }

  /** sched_next_context puts its own task back in line first. */
  function Back(w: World, p: nat): World
    requires p < |w.tasks|
  {
    if w.tasks[p].state == Running || w.tasks[p].state == Ready then Enqueue(SetState(w, p, Ready), p) else w
  }

  /** CPU c leaves its section to switch to t. */
  function Leave(w: World, c: nat, t: nat): World
    requires t < |w.tasks| && c < |w.cpus|
  {
    SetPc(SetTask(w, t, w.tasks[t].(taken := true, taker := c)), c, Spin(t, w.clock)).(clock := w.clock + 1)
  }

  function DoNext(w: World, c: nat, pick: Pick): World
    requires c < |w.cpus| && Named(w) && MayPick(w, w.cpus[c].current, pick)
  {
    var p := w.cpus[c].current;
    var b := Back(w, p);
    match pick
    case Take(t) =>
      var popped := SetState(Dequeue(b, t), t, Running);
      if t == p then popped else Leave(popped, c, t)
    case Nobody =>
      if b.tasks[p].state != Ready && p != w.cpus[c].idleTask then Leave(b, c, w.cpus[c].idleTask)
      else if b.tasks[p].state == Ready then SetState(b, p, Running)
      else b
  }

  function DoSwitch(w: World, c: nat): World
    requires c < |w.cpus| && Named(w) && Enabled(w, c, Switch)
  {
    var n := w.cpus[c].pc.next;
    var k := w.tasks[n].(onCpu := true, home := c, state := Running, taken := false);
    SetTask(w, n, k).(cpus := w.cpus[c := w.cpus[c].(current := n, pc := Returning(w.cpus[c].current))])
  }

  function Do(w: World, c: nat, a: Act): World
    requires c < |w.cpus| && Named(w) && Enabled(w, c, a)
  {
    var cpu := w.cpus[c];
    var t := cpu.current;
    match a
    case Yield => if w.tasks[t].state == Running then SetState(w, t, Ready) else w
    case Store(s) => SetState(w, t, s)
    case Block => SetState(Dequeue(w, t), t, Blocked)
    case SetRunning =>
      if w.tasks[t].state == Blocked || w.tasks[t].state == Ready then SetState(w, t, Running) else w
    case Wake(u) => if w.tasks[u].state == Blocked then Awaken(w, u) else w
    case Continue(u) => if w.tasks[u].state == Stopped then Awaken(w, u) else w
    case Bury(u) => SetState(w, u, Dead)
    case Unlink(u) => Dequeue(w, u)
    case Reap(u) => SetState(w, u, Freed)
    case Spawn(u, ready) =>
      var made := SetTask(w, u, w.tasks[u].(state := if ready then Ready else Blocked));
      if ready then Enqueue(made, u) else made
    case Skip(u) => Dequeue(w, u)
    case Next(pick) => DoNext(w, c, pick)
    case Switch => DoSwitch(w, c)
    case Release => SetPc(SetTask(w, cpu.pc.prev, w.tasks[cpu.pc.prev].(onCpu := false)), c, Releasing(cpu.pc.prev))
    case Requeue =>
      var p := cpu.pc.prev;
      SetPc(if w.tasks[p].state == Ready && !w.tasks[p].queued then Enqueue(w, p) else w, c, Run)
  }

  // ---------------------------------------------------------------- the invariant

  /** Task t is on CPU k.home: it is current there, or on its way out. */
  predicate Placed(w: World, t: nat, k: Task) {
    k.home < |w.cpus| && (w.cpus[k.home].current == t || w.cpus[k.home].pc == Returning(t))
  }

  /** Another CPU may already want a task that is still current only if that CPU is on its way out, and got its
      section before the one that wants the task. */
  predicate GivenUp(w: World, t: nat, k: Task)
    requires k.home < |w.cpus|
  {
    w.cpus[k.home].current == t && (k.queued || k.taken) ==>
      && w.cpus[k.home].pc.Spin?
      && (k.taken ==>
        k.taker < |w.cpus| && w.cpus[k.taker].pc.Spin?
        && w.cpus[k.home].pc.stamp < w.cpus[k.taker].pc.stamp)
  }

  predicate Requeuing(w: World, t: nat) {
    exists c :: 0 <= c < |w.cpus| && w.cpus[c].pc == Releasing(t)
  }

  predicate TaskInv(w: World, t: nat)
    requires t < |w.tasks|
  {
    var k := w.tasks[t];
    && w.queue[t] == (if k.queued then 1 else 0)
    && (k.onCpu ==> Placed(w, t, k) && GivenUp(w, t, k))
    && (k.taken ==> k.taker < |w.cpus| && w.cpus[k.taker].pc.Spin? && w.cpus[k.taker].pc.next == t && !k.queued)
    && (k.queued ==> k.state == Ready && !k.idle)
    && (k.taken && !k.idle ==> k.state == Running)
    && (k.taken && k.idle ==> !k.onCpu && w.cpus[k.taker].idleTask == t)
    && (k.idle ==> k.state == Ready || k.state == Running)
    && (k.idle && k.onCpu ==> w.cpus[k.home].idleTask == t)
    && (k.state == Ready && !k.idle ==> k.queued || k.onCpu || Requeuing(w, t))
    && (k.state == Freed ==> !k.onCpu)
  }

  predicate OnItsCpu(w: World, c: nat, t: nat) {
    t < |w.tasks| && w.tasks[t].onCpu && w.tasks[t].home == c
  }

  predicate CpuInv(w: World, c: nat)
    requires c < |w.cpus|
  {
    var cpu := w.cpus[c];
    && OnItsCpu(w, c, cpu.current)
    && cpu.idleTask < |w.tasks| && w.tasks[cpu.idleTask].idle
    && match cpu.pc
       case Run => true
       case Spin(n, s) =>
         n < |w.tasks| && w.tasks[n].taken && w.tasks[n].taker == c && n != cpu.current && s < w.clock
       case Returning(p) => OnItsCpu(w, c, p) && p != cpu.current
       case Releasing(p) => p < |w.tasks| && p != cpu.current && (w.tasks[p].onCpu ==> Arriving(w, p))
  }

  /** Taken up by another CPU before sched_return is through with it. */
  predicate Arriving(w: World, p: nat)
    requires p < |w.tasks|
  {
    var k := w.tasks[p];
    k.state == Running && k.home < |w.cpus| && w.cpus[k.home].current == p && w.cpus[k.home].pc.Returning?
  }

  predicate OneHolder(w: World) {
    forall c, d | 0 <= c < |w.cpus| && 0 <= d < |w.cpus| && w.cpus[c].pc.Releasing? && w.cpus[d].pc.Releasing? :: c == d
  }

  predicate OwnIdle(w: World) {
    forall c, d | 0 <= c < |w.cpus| && 0 <= d < |w.cpus| && w.cpus[c].idleTask == w.cpus[d].idleTask :: c == d
  }

  predicate Inv(w: World) {
    && (forall t: nat | t < |w.tasks| :: TaskInv(w, t))
    && (forall c: nat | c < |w.cpus| :: CpuInv(w, c))
    && OneHolder(w) && OwnIdle(w)
  }

  lemma InvNamed(w: World)
    requires Inv(w)
    ensures Named(w)
  {
    forall c | 0 <= c < |w.cpus|
      ensures w.cpus[c].current < |w.tasks| && w.cpus[c].idleTask < |w.tasks|
    {
      assert CpuInv(w, c);
    }
  }

  lemma InvAt(w: World, c: nat)
    requires Inv(w) && c < |w.cpus|
    ensures CpuInv(w, c) && TaskInv(w, w.cpus[c].current) && TaskInv(w, w.cpus[c].idleTask)
  {}

  lemma InvOf(w: World, t: nat)
    requires Inv(w) && t < |w.tasks|
    ensures TaskInv(w, t)
  {}

  /** What the task of a CPU that is not on its way out is: its own, queued nowhere and wanted by nobody. */
  lemma Settled(w: World, c: nat)
    requires Inv(w) && c < |w.cpus| && !w.cpus[c].pc.Spin?
    ensures OnItsCpu(w, c, w.cpus[c].current)
    ensures var k := w.tasks[w.cpus[c].current]; !k.queued && !k.taken && w.queue[w.cpus[c].current] == 0
  {
    assert CpuInv(w, c);
    assert TaskInv(w, w.cpus[c].current);
  }

  /** A step that changes one task, and neither where it is nor who took it. */
  ghost predicate Local(w: World, w': World, t: nat) {
    && |w'.tasks| == |w.tasks| && t < |w.tasks| && w'.cpus == w.cpus && w'.clock == w.clock
    && w'.tasks == w.tasks[t := w'.tasks[t]]
    && w'.tasks[t].onCpu == w.tasks[t].onCpu && w'.tasks[t].home == w.tasks[t].home
    && w'.tasks[t].taken == w.tasks[t].taken && w'.tasks[t].taker == w.tasks[t].taker
    && w'.tasks[t].idle == w.tasks[t].idle
    && (forall u: nat | u != t :: w'.queue[u] == w.queue[u])
  }

  lemma LocalKept(w: World, w': World, t: nat)
    requires Inv(w) && Local(w, w', t) && TaskInv(w', t)
    requires w.tasks[t].onCpu && w.tasks[t].state == Running ==>
      w'.tasks[t].state == Running || !w.cpus[w.tasks[t].home].pc.Returning?
    ensures Inv(w')
  {
    forall u: nat | u < |w.tasks|
      ensures TaskInv(w', u)
    {
      assert TaskInv(w, u);
      assert Requeuing(w, u) ==> Requeuing(w', u);
    }
    forall c: nat | c < |w.cpus|
      ensures CpuInv(w', c)
    {
      assert CpuInv(w, c);
    }
  }

  /** What a task does to its own state while it runs. */
  lemma OwnKept(w: World, c: nat, a: Act)
    requires Inv(w) && c < |w.cpus| && Named(w) && Enabled(w, c, a)
    requires a.Yield? || a.Store? || a.Block? || a.SetRunning?
    ensures Inv(Do(w, c, a)) && |Do(w, c, a).cpus| == |w.cpus|
  {
    var t := w.cpus[c].current;
    Settled(w, c);
    var w' := Do(w, c, a);
    assert TaskInv(w, t);
    assert TaskInv(w', t);
    LocalKept(w, w', t);
    hide Inv;
  }

  /** What anyone may do to a task that is waiting or dead. */
  lemma OtherKept(w: World, c: nat, a: Act)
    requires Inv(w) && c < |w.cpus| && Named(w) && Enabled(w, c, a)
    requires a.Wake? || a.Continue? || a.Bury? || a.Unlink? || a.Reap? || a.Spawn?
    ensures Inv(Do(w, c, a)) && |Do(w, c, a).cpus| == |w.cpus|
  {
    var t := a.task;
    var w' := Do(w, c, a);
    assert TaskInv(w, t);
    if w' != w {
      assert TaskInv(w', t);
      LocalKept(w, w', t);
    }
    hide Inv;
  }

  /** Leaving the section of sched_next_context for task n, with the CPU's own task p as in k. */
  ghost predicate Left(w: World, w': World, c: nat, n: nat, k: Task)
    requires c < |w.cpus| && w.cpus[c].current < |w.tasks| && n < |w.tasks|
  {
    var p := w.cpus[c].current;
    var m := w.tasks[n];
    && p != n && w.cpus[c].pc == Run && LockFree(w)
    && w'.cpus == w.cpus[c := w.cpus[c].(pc := Spin(n, w.clock))] && w'.clock == w.clock + 1
    && |w'.tasks| == |w.tasks| && (forall u: nat | u < |w.tasks| && u != p && u != n :: w'.tasks[u] == w.tasks[u])
    && w'.tasks[p] == k
    && w'.tasks[n] == m.(queued := false, taken := true, taker := c, state := if m.queued then Running else m.state)
    && k == w.tasks[p].(state := k.state, queued := k.queued)
    && (k.queued ==> k.state == Ready && !k.idle) && (k.idle ==> k.state == Ready || k.state == Running)
    && (k.state == Freed ==> w.tasks[p].state == Freed)
    && w'.queue[p] == (if k.queued then 1 else 0) && w'.queue[n] == 0
    && (forall u: nat | u != p && u != n :: w'.queue[u] == w.queue[u])
    && (m.queued || (n == w.cpus[c].idleTask && m.idle))
  }

  lemma LeftTask(w: World, w': World, c: nat, n: nat, k: Task, u: nat)
    requires Inv(w) && c < |w.cpus| && Named(w) && n < |w.tasks| && Left(w, w', c, n, k) && u < |w.tasks|
    ensures TaskInv(w', u)
  {
    Settled(w, c);
    assert TaskInv(w, u) && TaskInv(w, n) && CpuInv(w, c);
    if w.tasks[u].onCpu {
      assert CpuInv(w, w.tasks[u].home);
    }
    assert !Requeuing(w, u);
    hide Inv;
  }

  lemma LeftKept(w: World, w': World, c: nat, n: nat, k: Task)
    requires Inv(w) && c < |w.cpus| && Named(w) && n < |w.tasks| && Left(w, w', c, n, k)
    ensures Inv(w')
  {
    forall u: nat | u < |w'.tasks| ensures TaskInv(w', u) { LeftTask(w, w', c, n, k, u); }
    forall d: nat | d < |w'.cpus| ensures CpuInv(w', d) {
      assert CpuInv(w, d) && TaskInv(w, n) && TaskInv(w, w.cpus[c].current);
      Settled(w, c);
    }
    hide TaskInv;
  }

  /** Putting the own task back in line changes nothing else. */
  lemma BackIs(w: World, p: nat)
    requires p < |w.tasks| && !w.tasks[p].queued
    ensures var b := Back(w, p);
      && b.cpus == w.cpus && b.clock == w.clock && |b.tasks| == |w.tasks|
      && (forall u: nat | u < |w.tasks| && u != p :: b.tasks[u] == w.tasks[u])
      && b.tasks[p] == w.tasks[p].(state := b.tasks[p].state, queued := b.tasks[p].queued)
      && (b.tasks[p].state == if w.tasks[p].state == Running then Ready else w.tasks[p].state)
      && (b.tasks[p].queued <==> b.tasks[p].state == Ready && !w.tasks[p].idle)
      && b.queue[p] == w.queue[p] + (if b.tasks[p].queued then 1 else 0)
      && (forall u: nat | u != p :: b.queue[u] == w.queue[u])
  {}

  lemma NextTakes(w: World, c: nat, t: nat)
    requires Inv(w) && c < |w.cpus| && Named(w) && Enabled(w, c, Next(Take(t))) && t != w.cpus[c].current
    ensures Left(w, DoNext(w, c, Take(t)), c, t, DoNext(w, c, Take(t)).tasks[w.cpus[c].current])
  {
    Settled(w, c);
    BackIs(w, w.cpus[c].current);
    InvAt(w, c);
    InvOf(w, t);
    hide Inv, CpuInv, Back, Placed, GivenUp, Requeuing;
  }

  lemma NextIdles(w: World, c: nat)
    requires Inv(w) && c < |w.cpus| && Named(w) && Enabled(w, c, Next(Nobody))
    ensures var w' := DoNext(w, c, Nobody);
      w'.cpus != w.cpus ==> Left(w, w', c, w.cpus[c].idleTask, w'.tasks[w.cpus[c].current])
  {
    Settled(w, c);
    BackIs(w, w.cpus[c].current);
    assert TaskInv(w, w.cpus[c].current) && CpuInv(w, c) && TaskInv(w, w.cpus[c].idleTask);
    hide Inv, TaskInv, CpuInv, Back;
  }

  lemma NextLeaves(w: World, c: nat, pick: Pick)
    requires c < |w.cpus| && Named(w) && Enabled(w, c, Next(pick))
    ensures pick.Take? && pick.task != w.cpus[c].current ==> DoNext(w, c, pick).cpus[c].pc == Spin(pick.task, w.clock)
    ensures pick.Take? && pick.task == w.cpus[c].current ==> DoNext(w, c, pick).cpus == w.cpus
  {
    hide LockFree, MayPick;
  }

  /** The CPU goes on with the task it has. */
  lemma NextStays(w: World, c: nat, pick: Pick)
    requires Inv(w) && c < |w.cpus| && Named(w) && Enabled(w, c, Next(pick)) && DoNext(w, c, pick).cpus == w.cpus
    ensures Local(w, DoNext(w, c, pick), w.cpus[c].current) && TaskInv(DoNext(w, c, pick), w.cpus[c].current)
  {
    var p := w.cpus[c].current;
    Settled(w, c);
    InvAt(w, c);
    hide Inv;
    NextLeaves(w, c, pick);
    if pick.Take? {
      TakesItself(w, c);
    } else {
      IdlesOn(w, c);
    }
    GoesLocal(w, DoNext(w, c, pick), c);
    hide *;
  }

  lemma GoesLocal(w: World, w': World, c: nat)
    requires c < |w.cpus| && w.cpus[c].current < |w.tasks| && Goes(w, w', w.cpus[c].current)
    requires CpuInv(w, c) && TaskInv(w, w.cpus[c].current) && !w.tasks[w.cpus[c].current].queued && !w.cpus[c].pc.Spin?
    ensures Local(w, w', w.cpus[c].current) && TaskInv(w', w.cpus[c].current)
  {
    assert w'.tasks == w.tasks[w.cpus[c].current := w'.tasks[w.cpus[c].current]];
    hide CpuInv, Requeuing;
  }

  predicate Goes(w: World, w': World, p: nat) {
    && p < |w.tasks| == |w'.tasks| && w'.cpus == w.cpus && w'.clock == w.clock
    && (forall u: nat | u < |w.tasks| && u != p :: w'.tasks[u] == w.tasks[u])
    && w'.tasks[p] == w.tasks[p].(state := w'.tasks[p].state)
    && (w.tasks[p].idle ==> w'.tasks[p].state == w.tasks[p].state || w'.tasks[p].state == Running)
    && (w'.tasks[p].state == Freed ==> w.tasks[p].state == Freed)
    && w'.queue == w.queue
  }

  lemma TakesItself(w: World, c: nat)
    requires c < |w.cpus| && Named(w) && Enabled(w, c, Next(Take(w.cpus[c].current)))
      && !w.tasks[w.cpus[c].current].queued
    ensures Goes(w, DoNext(w, c, Take(w.cpus[c].current)), w.cpus[c].current)
  {
    var p := w.cpus[c].current;
    BackIs(w, p);
    assert Back(w, p).queue == w.queue + multiset{p};
    assert w.queue + multiset{p} - multiset{p} == w.queue;
    hide Back;
  }

  lemma IdlesOn(w: World, c: nat)
    requires c < |w.cpus| && Named(w) && Enabled(w, c, Next(Nobody)) && !w.tasks[w.cpus[c].current].queued
    requires DoNext(w, c, Nobody).cpus == w.cpus
    ensures Goes(w, DoNext(w, c, Nobody), w.cpus[c].current)
  {
    BackIs(w, w.cpus[c].current);
    assert Back(w, w.cpus[c].current).queue == w.queue;
    hide Back;
  }

  lemma NextKept(w: World, c: nat, pick: Pick)
    requires Inv(w) && c < |w.cpus| && Named(w) && Enabled(w, c, Next(pick))
    ensures Inv(DoNext(w, c, pick)) && |DoNext(w, c, pick).cpus| == |w.cpus|
  {
    NextLeaves(w, c, pick);
    var w' := DoNext(w, c, pick);
    if w'.cpus == w.cpus {
      NextStays(w, c, pick);
      Settled(w, c);
      LocalKept(w, w', w.cpus[c].current);
    } else if pick.Take? {
      NextTakes(w, c, pick.task);
      LeftKept(w, w', c, pick.task, w'.tasks[w.cpus[c].current]);
    } else {
      NextIdles(w, c);
      LeftKept(w, w', c, w.cpus[c].idleTask, w'.tasks[w.cpus[c].current]);
    }
    hide Inv, TaskInv, CpuInv, DoNext, MayPick, LockFree, GivenUp, Placed;
  }

  lemma SwitchKept(w: World, c: nat)
    requires Inv(w) && c < |w.cpus| && Named(w) && Enabled(w, c, Switch)
    ensures Inv(DoSwitch(w, c)) && |DoSwitch(w, c).cpus| == |w.cpus|
  {
    var w' := DoSwitch(w, c);
    forall u: nat | u < |w'.tasks| ensures TaskInv(w', u) { SwitchTask(w, c, u); }
    assert CpuInv(w, c);
    forall d: nat | d < |w'.cpus| ensures CpuInv(w', d) {
      assert CpuInv(w, d);
    }
    hide TaskInv;
  }

  lemma SwitchTask(w: World, c: nat, u: nat)
    requires Inv(w) && c < |w.cpus| && Named(w) && Enabled(w, c, Switch) && u < |w.tasks|
    ensures TaskInv(DoSwitch(w, c), u)
  {
    if u == w.cpus[c].pc.next {
      SwitchedTo(w, c);
    } else {
      SwitchPast(w, c, u);
    }
    hide Inv, TaskInv, DoSwitch;
  }

  /** The task that the CPU changes to. */
  lemma SwitchedTo(w: World, c: nat)
    requires Inv(w) && c < |w.cpus| && Named(w) && Enabled(w, c, Switch)
    ensures w.cpus[c].pc.next < |w.tasks| && TaskInv(DoSwitch(w, c), w.cpus[c].pc.next)
  {
    InvAt(w, c);
    InvOf(w, w.cpus[c].pc.next);
    hide Inv, Requeuing;
  }

  lemma SwitchPast(w: World, c: nat, u: nat)
    requires Inv(w) && c < |w.cpus| && Named(w) && Enabled(w, c, Switch) && u < |w.tasks| && u != w.cpus[c].pc.next
    ensures TaskInv(DoSwitch(w, c), u)
  {
    var w' := DoSwitch(w, c);
    InvAt(w, c);
    InvOf(w, u);
    if w.tasks[u].onCpu { InvAt(w, w.tasks[u].home); }
    if Requeuing(w, u) {
      var d :| 0 <= d < |w.cpus| && w.cpus[d].pc == Releasing(u);
      assert w'.cpus[d].pc == Releasing(u);
    }
    hide Inv;
  }

  lemma ReleaseKept(w: World, c: nat)
    requires Inv(w) && c < |w.cpus| && Named(w) && Enabled(w, c, Release)
    ensures Inv(Do(w, c, Release)) && |Do(w, c, Release).cpus| == |w.cpus|
  {
    var w' := Do(w, c, Release);
    assert CpuInv(w, c);
    Settled(w, c);
    assert w'.cpus[c].pc == Releasing(w.cpus[c].pc.prev);
    forall u: nat | u < |w'.tasks| ensures TaskInv(w', u) {
      assert TaskInv(w, u);
      assert !Requeuing(w, u);
    }
    forall d: nat | d < |w'.cpus| ensures CpuInv(w', d) {
      assert CpuInv(w, d);
    }
  }

  lemma RequeueTask(w: World, c: nat, u: nat)
    requires Inv(w) && c < |w.cpus| && Named(w) && Enabled(w, c, Requeue) && u < |w.tasks|
    ensures TaskInv(Do(w, c, Requeue), u)
  {
    var w' := Do(w, c, Requeue);
    var p := w.cpus[c].pc.prev;
    assert TaskInv(w, u) && CpuInv(w, c);
    if u == p && w.tasks[u].onCpu {
      assert Arriving(w, u);
    }
    assert forall d | 0 <= d < |w.cpus| && w.cpus[d].pc.Releasing? :: d == c;
    assert Requeuing(w, u) ==> u == p;
    hide Inv;
  }

  lemma RequeueKept(w: World, c: nat)
    requires Inv(w) && c < |w.cpus| && Named(w) && Enabled(w, c, Requeue)
    ensures Inv(Do(w, c, Requeue)) && |Do(w, c, Requeue).cpus| == |w.cpus|
  {
    var w' := Do(w, c, Requeue);
    forall u: nat | u < |w'.tasks| ensures TaskInv(w', u) { RequeueTask(w, c, u); }
    forall d: nat | d < |w'.cpus| ensures CpuInv(w', d) {
      assert CpuInv(w, d);
    }
    hide TaskInv;
  }

  lemma OnlyReadyQueued(w: World, t: nat)
    requires Inv(w) && t < |w.tasks|
    ensures w.queue[t] <= 1 && (w.queue[t] == 1 <==> w.tasks[t].queued)
      && (w.tasks[t].queued ==> w.tasks[t].state == Ready)
  {
    assert TaskInv(w, t);
  }

  /** No task is current on two CPUs, nor taken by two. */
  predicate Apart(w: World, c: nat, d: nat)
    requires c < |w.cpus| && d < |w.cpus|
  {
    && w.cpus[c].current != w.cpus[d].current
    && !(w.cpus[c].pc.Spin? && w.cpus[d].pc.Spin? && w.cpus[c].pc.next == w.cpus[d].pc.next)
  }

  lemma CpusApart(w: World, c: nat, d: nat)
    requires Inv(w) && c < |w.cpus| && d < |w.cpus| && c != d
    ensures Apart(w, c, d)
  {
    assert CpuInv(w, c) && CpuInv(w, d);
  }

  // ---------------------------------------------------------------- runs

  lemma InvKept(w: World, c: nat, a: Act)
    requires Inv(w) && c < |w.cpus| && Named(w) && Enabled(w, c, a)
    ensures Inv(Do(w, c, a)) && |Do(w, c, a).cpus| == |w.cpus|
  {
    match a
    case Next(pick) => NextKept(w, c, pick);
    case Switch => SwitchKept(w, c);
    case Release => ReleaseKept(w, c);
    case Requeue => RequeueKept(w, c);
    case Skip(t) => OnlyReadyQueued(w, t);
    case Wake(_) => OtherKept(w, c, a);
    case Continue(_) => OtherKept(w, c, a);
    case Bury(_) => OtherKept(w, c, a);
    case Unlink(_) => OtherKept(w, c, a);
    case Reap(_) => OtherKept(w, c, a);
    case Spawn(_, _) => OtherKept(w, c, a);
    case _ => OwnKept(w, c, a);
  }

  datatype Move = Move(cpu: nat, act: Act)

  /** A schedule of steps: can it be followed, and where does it lead? */
  predicate Can(w: World, ms: seq<Move>)
    decreases |ms|
  {
    ms == [] || (Named(w) && ms[0].cpu < |w.cpus| && Enabled(w, ms[0].cpu, ms[0].act)
                 && Can(Do(w, ms[0].cpu, ms[0].act), ms[1..]))
  }

  function After(w: World, ms: seq<Move>): World
    requires Can(w, ms)
    decreases |ms|
  {
    if ms == [] then w else After(Do(w, ms[0].cpu, ms[0].act), ms[1..])
  }

  /** Every CPU runs a task of its own, the other idle tasks are waiting and no other task exists yet. */
  predicate Init(w: World) {
    && OwnIdle(w) && w.queue == multiset{}
    && (forall t: nat | t < |w.tasks| :: InitTask(w, t, w.tasks[t]))
    && (forall c: nat | c < |w.cpus| :: InitCpu(w, c, w.cpus[c]))
  }

  predicate InitTask(w: World, t: nat, k: Task) {
    && !k.queued && !k.taken && (k.onCpu || k.idle ==> k.state == Running) && (k.onCpu || k.idle || k.state == Freed)
    && (k.onCpu ==> k.home < |w.cpus| && w.cpus[k.home].current == t && (k.idle ==> w.cpus[k.home].idleTask == t))
  }

  predicate InitCpu(w: World, c: nat, cpu: Cpu) {
    && cpu.pc == Run && OnItsCpu(w, c, cpu.current)
    && cpu.idleTask < |w.tasks| && w.tasks[cpu.idleTask].idle
  }

  lemma {:induction false} RunKept(w: World, ms: seq<Move>)
    requires Inv(w) && Can(w, ms)
    ensures Inv(After(w, ms)) && |After(w, ms).cpus| == |w.cpus|
    decreases |ms|
  {
    if ms != [] {
      InvKept(w, ms[0].cpu, ms[0].act);
      RunKept(Do(w, ms[0].cpu, ms[0].act), ms[1..]);
    }
    hide Inv, Do, Enabled, Named;
  }

  /** Task t is somewhere a CPU will see it: in the queue exactly once and wanted by no CPU; or on exactly one
      CPU, which has it as current or has yet to do its sched_return; or being put back by the CPU that is in
      the middle of one. */
  ghost predicate Accounted(w: World, t: nat) {
    || (w.queue[t] == 1 && forall c | 0 <= c < |w.cpus| && w.cpus[c].pc.Spin? :: w.cpus[c].pc.next != t)
    || (w.queue[t] == 0 && exists c :: 0 <= c < |w.cpus| && OnlyOn(w, t, c))
    || (w.queue[t] == 0 && Requeuing(w, t))
  }

  predicate On(cpu: Cpu, t: nat) { cpu.current == t || cpu.pc == Returning(t) }

  predicate OnlyOn(w: World, t: nat, c: nat) {
    c < |w.cpus| && On(w.cpus[c], t) && forall d | 0 <= d < |w.cpus| && On(w.cpus[d], t) :: d == c
  }

  /** In every state of every run: no task is current on two CPUs, nor taken by two; nothing is queued twice, only
      READY tasks are queued, and every READY task except the idle ones is accounted for. */
  lemma HandOff(w: World, ms: seq<Move>)
    requires Init(w) && Can(w, ms)
    ensures var r := After(w, ms);
      && (forall c: nat, d: nat | c < |r.cpus| && d < |r.cpus| && c != d :: Apart(r, c, d))
      && (forall t: nat | t < |r.tasks| :: r.queue[t] <= 1 && (r.queue[t] == 1 ==> r.tasks[t].state == Ready))
      && (forall t: nat | t < |r.tasks| && r.tasks[t].state == Ready && !r.tasks[t].idle :: Accounted(r, t))
  {
    InitInv(w);
    RunKept(w, ms);
    var r := After(w, ms);
    forall c: nat, d: nat | c < |r.cpus| && d < |r.cpus| && c != d ensures Apart(r, c, d) {
      CpusApart(r, c, d);
    }
    forall t: nat | t < |r.tasks|
      ensures r.queue[t] <= 1 && (r.queue[t] == 1 ==> r.tasks[t].state == Ready)
    {
      OnlyReadyQueued(r, t);
    }
    forall t: nat | t < |r.tasks| && r.tasks[t].state == Ready && !r.tasks[t].idle ensures Accounted(r, t) {
      ReadyAccounted(r, t);
    }
    hide *;
  }

  lemma InitInv(w: World)
    requires Init(w)
    ensures Inv(w)
  {
    forall t: nat | t < |w.tasks| ensures TaskInv(w, t) {
      assert InitTask(w, t, w.tasks[t]);
    }
    forall c: nat | c < |w.cpus| ensures CpuInv(w, c) {
      assert InitCpu(w, c, w.cpus[c]);
    }
    forall c: nat | c < |w.cpus| ensures w.cpus[c].pc == Run {
      assert InitCpu(w, c, w.cpus[c]);
    }
  }

  lemma ReadyAccounted(w: World, t: nat)
    requires Inv(w) && t < |w.tasks| && w.tasks[t].state == Ready && !w.tasks[t].idle
    ensures Accounted(w, t)
  {
    var k := w.tasks[t];
    assert TaskInv(w, t);
    forall c: nat | c < |w.cpus|
      ensures On(w.cpus[c], t) ==> c == k.home && k.onCpu
      ensures w.cpus[c].pc.Spin? && w.cpus[c].pc.next == t ==> k.taken
    {
      assert CpuInv(w, c);
    }
    if k.onCpu && !k.queued {
      assert OnlyOn(w, t, k.home);
    }
  }

  /** ready_pop never finds a task that is not READY. */
  lemma NothingToSkip(w: World, ms: seq<Move>, c: nat, t: nat)
    requires Init(w) && Can(w, ms) && Named(After(w, ms)) && c < |After(w, ms).cpus| && t < |After(w, ms).tasks|
    ensures !Enabled(After(w, ms), c, Skip(t))
  {
    InitInv(w);
    RunKept(w, ms);
    assert TaskInv(After(w, ms), t);
    hide Do, Init;
  }

  /** Nobody has a use for task t any more. */
  predicate Nowhere(w: World, t: nat) {
    && w.queue[t] == 0
    && forall d | 0 <= d < |w.cpus| ::
         !On(w.cpus[d], t) && w.cpus[d].pc != Releasing(t) && !(w.cpus[d].pc.Spin? && w.cpus[d].pc.next == t)
  }

  /** A task that the reaper frees is on no CPU's stack, in no queue and wanted by nobody; but it is nowhere if and only
      if no CPU is between the two halves of its sched_return, which the reaper does not ask. */
  lemma ReapedIsNowhere(w: World, ms: seq<Move>, c: nat, t: nat)
    requires Init(w) && Can(w, ms) && Named(After(w, ms)) && c < |After(w, ms).cpus| && t < |After(w, ms).tasks|
    requires Enabled(After(w, ms), c, Reap(t))
    ensures var r := After(w, ms);
      && r.queue[t] == 0
      && (forall d | 0 <= d < |r.cpus| :: !On(r.cpus[d], t) && !(r.cpus[d].pc.Spin? && r.cpus[d].pc.next == t))
      && (Nowhere(r, t) <==> !Requeuing(r, t))
      && (LockFree(r) ==> Nowhere(r, t))
  {
    InitInv(w);
    RunKept(w, ms);
    var r := After(w, ms);
    assert TaskInv(r, t);
    forall d: nat | d < |r.cpus|
      ensures !On(r.cpus[d], t) && !(r.cpus[d].pc.Spin? && r.cpus[d].pc.next == t)
    {
      assert CpuInv(r, d);
    }
    hide Do, Init, Inv, TaskInv, CpuInv;
  }

  /** Task 0 runs on CPU 0 with idle task 1, and CPU 1 runs its idle task 2. */
  function Pair(state: State, onCpu: bool, idle: Task, cpu: Cpu, clock: nat): World {
    World([Task(state, onCpu, false, false, 0, false, 0), idle, Task(Running, true, false, true, 1, false, 0)],
          [cpu, Cpu(2, 2, Run)], multiset{}, clock)
  }

  /** A run in which it is not: CPU 0 has cleared on_cpu of a task that has died and has yet to look at its state, and
      CPU 1 may free it. */
  lemma ReapedTooSoon() returns (w: World, ms: seq<Move>)
    ensures Init(w) && Can(w, ms) && |After(w, ms).cpus| == 2 && |After(w, ms).tasks| == 3 && Named(After(w, ms))
    ensures Enabled(After(w, ms), 1, Reap(0)) && Requeuing(After(w, ms), 0)
  {
    hide Leads, Can, After, Init, Pair;
    var idle := Task(Running, false, false, true, 0, false, 0);
    var w1, w2 := Pair(Dead, true, idle, Cpu(0, 1, Run), 0),
      Pair(Dead, true, idle.(taken := true), Cpu(0, 1, Spin(1, 0)), 1);
    var w3 := Pair(Dead, true, idle.(onCpu := true), Cpu(1, 1, Returning(0)), 1);
    var w4 := Pair(Dead, false, idle.(onCpu := true), Cpu(1, 1, Releasing(0)), 1);
    w, ms := Pair(Running, true, idle, Cpu(0, 1, Run), 0), [];
    PairStarts(idle);
    Done(w4);
    Releases(idle);
    Before(w3, Move(0, Release), w4, ms);
    ms := [Move(0, Release)] + ms;
    Switches(idle);
    Before(w2, Move(0, Switch), w3, ms);
    ms := [Move(0, Switch)] + ms;
    Idles(idle);
    Before(w1, Move(0, Next(Nobody)), w2, ms);
    ms := [Move(0, Next(Nobody))] + ms;
    Dies(idle);
    Before(w, Move(0, Store(Dead)), w1, ms);
    ms := [Move(0, Store(Dead))] + ms;
    PairEnds(idle);
  }

  lemma Done(w: World)
    ensures Can(w, []) && After(w, []) == w
  {}

  lemma PairStarts(idle: Task)
    requires idle == Task(Running, false, false, true, 0, false, 0)
    ensures Init(Pair(Running, true, idle, Cpu(0, 1, Run), 0))
  {}

  lemma PairEnds(idle: Task)
    ensures var w := Pair(Dead, false, idle.(onCpu := true), Cpu(1, 1, Releasing(0)), 1);
      |w.cpus| == 2 && |w.tasks| == 3 && Named(w) && Enabled(w, 1, Reap(0)) && Requeuing(w, 0)
  {
    assert Pair(Dead, false, idle.(onCpu := true), Cpu(1, 1, Releasing(0)), 1).cpus[0].pc == Releasing(0);
  }

  predicate Leads(w: World, m: Move, w': World) {
    Named(w) && m.cpu < |w.cpus| && Enabled(w, m.cpu, m.act) && Do(w, m.cpu, m.act) == w'
  }

  lemma Before(w: World, m: Move, w': World, ms: seq<Move>)
    requires Leads(w, m, w') && Can(w', ms)
    ensures Can(w, [m] + ms) && After(w, [m] + ms) == After(w', ms)
  {
    assert ([m] + ms)[1..] == ms;
    hide Do, Enabled;
  }

  lemma Dies(idle: Task)
    ensures Leads(Pair(Running, true, idle, Cpu(0, 1, Run), 0), Move(0, Store(Dead)),
      Pair(Dead, true, idle, Cpu(0, 1, Run), 0))
  {}

  lemma Idles(idle: Task)
    requires idle == Task(Running, false, false, true, 0, false, 0)
    ensures Leads(Pair(Dead, true, idle, Cpu(0, 1, Run), 0), Move(0, Next(Nobody)),
                  Pair(Dead, true, idle.(taken := true), Cpu(0, 1, Spin(1, 0)), 1))
  {}

  lemma Switches(idle: Task)
    requires idle == Task(Running, false, false, true, 0, false, 0)
    ensures Leads(Pair(Dead, true, idle.(taken := true), Cpu(0, 1, Spin(1, 0)), 1), Move(0, Switch),
                  Pair(Dead, true, idle.(onCpu := true), Cpu(1, 1, Returning(0)), 1))
  {}

  lemma Releases(idle: Task)
    ensures Leads(Pair(Dead, true, idle.(onCpu := true), Cpu(1, 1, Returning(0)), 1), Move(0, Release),
                  Pair(Dead, false, idle.(onCpu := true), Cpu(1, 1, Releasing(0)), 1))
  {}

  // ---------------------------------------------------------------- the spin cannot deadlock

  function Rank(pc: Pc): nat {
    match pc
    case Run => 0
    case Spin(_, _) => 3
    case Returning(_) => 2
    case Releasing(_) => 1
  }

  function Work(cpus: seq<Cpu>): nat {
    if cpus == [] then 0 else Rank(cpus[0].pc) + Work(cpus[1..])
  }

  lemma {:induction false} WorkUpdate(cpus: seq<Cpu>, c: nat, cpu: Cpu)
    requires c < |cpus|
    ensures Work(cpus[c := cpu]) + Rank(cpus[c].pc) == Work(cpus) + Rank(cpu.pc)
  {
    if c == 0 {
      assert cpus[0 := cpu][1..] == cpus[1..];
    } else {
      assert cpus[c := cpu][1..] == cpus[1..][c - 1 := cpu];
      WorkUpdate(cpus[1..], c - 1, cpu);
    }
  }

  lemma {:induction false} WorkBound(cpus: seq<Cpu>)
    ensures Work(cpus) <= 3 * |cpus|
    ensures Work(cpus) == 0 ==> forall c | 0 <= c < |cpus| :: cpus[c].pc == Run
  {
    if cpus != [] {
      WorkBound(cpus[1..]);
      assert forall c | 0 < c < |cpus| :: cpus[c] == cpus[1..][c - 1];
    }
  }

  /** The spinning CPU whose section came first. */
  lemma {:induction false} Earliest(w: World, n: nat) returns (c: nat)
    requires n <= |w.cpus| && exists d :: 0 <= d < n && w.cpus[d].pc.Spin?
    ensures c < n && w.cpus[c].pc.Spin?
    ensures forall d | 0 <= d < n && w.cpus[d].pc.Spin? :: w.cpus[c].pc.stamp <= w.cpus[d].pc.stamp
  {
    if exists d :: 0 <= d < n - 1 && w.cpus[d].pc.Spin? {
      c := Earliest(w, n - 1);
      if w.cpus[n - 1].pc.Spin? && w.cpus[n - 1].pc.stamp < w.cpus[c].pc.stamp {
        c := n - 1;
      }
    } else {
      c := n - 1;
    }
  }

  predicate Finishing(a: Act) { a.Switch? || a.Release? || a.Requeue? }

  /** Whatever state the CPUs are in, if one of them is on its way out of a task, one of them can go on. */
  lemma SomebodyCan(w: World) returns (c: nat, a: Act)
    requires Inv(w) && Named(w) && exists d :: 0 <= d < |w.cpus| && w.cpus[d].pc != Run
    ensures c < |w.cpus| && Finishing(a) && Enabled(w, c, a)
  {
    if holder: nat :| holder < |w.cpus| && w.cpus[holder].pc.Releasing? {
      assert CpuInv(w, holder);
      c, a := holder, Requeue;
    } else if back: nat :| back < |w.cpus| && w.cpus[back].pc.Returning? {
      assert CpuInv(w, back);
      c, a := back, Release;
    } else {
      c := Earliest(w, |w.cpus|);
      a := Switch;
      assert CpuInv(w, c);
      assert TaskInv(w, w.cpus[c].pc.next);
    }
  }

  lemma FinishingWorks(w: World, c: nat, a: Act)
    requires c < |w.cpus| && Named(w) && Enabled(w, c, a) && Finishing(a)
    ensures |Do(w, c, a).cpus| == |w.cpus| && Work(Do(w, c, a).cpus) == Work(w.cpus) - 1
  {
    WorkUpdate(w.cpus, c, Do(w, c, a).cpus[c]);
    assert Do(w, c, a).cpus == w.cpus[c := Do(w, c, a).cpus[c]];
  }

  /** From every reachable state at most three steps per CPU, each of them the next step of a switch already
      begun, bring every CPU back into its task: no ring of CPUs can wait for each other's on_cpu. */
  lemma {:induction false} AllGetThrough(w: World) returns (ms: seq<Move>)
    requires Inv(w)
    ensures Can(w, ms) && |ms| == Work(w.cpus) <= 3 * |w.cpus|
    ensures forall m | m in ms :: Finishing(m.act)
    ensures forall c | 0 <= c < |After(w, ms).cpus| :: After(w, ms).cpus[c].pc == Run
    decreases Work(w.cpus)
  {
    InvNamed(w);
    WorkBound(w.cpus);
    if d: nat :| d < |w.cpus| && w.cpus[d].pc != Run {
      var c, a := SomebodyCan(w);
      FinishingWorks(w, c, a);
      InvKept(w, c, a);
      var rest := AllGetThrough(Do(w, c, a));
      ms := [Move(c, a)] + rest;
      assert ms[1..] == rest;
    } else {
      AllRunNoWork(w.cpus);
      ms := [];
    }
    hide Inv, Do, Enabled, Named;
  }

  lemma {:induction false} AllRunNoWork(cpus: seq<Cpu>)
    requires forall c | 0 <= c < |cpus| :: cpus[c].pc == Run
    ensures Work(cpus) == 0
  {
    if cpus != [] {
      AllRunNoWork(cpus[1..]);
    }
  }
}
