/** What a wake achieves in the protocol of SchedHandoff (kernel/src/sched/scheduler.c): whom sched_wake_task and
    sched_continue_task act on, which steps end a state, and that a wake which comes while its task is still leaving a
    CPU is not lost. */
module SchedWake {
  import opened SchedHandoff

  predicate InLine(w: World, u: nat) { w.queue[u] == 1 }

  /** In nobody's queue, and CPU h has the task as current, or has its sched_return to do, or is in the middle of it. */
  predicate LeftTo(w: World, u: nat, h: nat) {
    && w.queue[u] == 0 && h < |w.cpus|
    && (w.cpus[h].current == u || w.cpus[h].pc == Returning(u) || w.cpus[h].pc == Releasing(u))
  }

  /** Nothing but the state and the place in line of task u is different. */
  ghost predicate Only(w: World, w': World, u: nat) {
    && w'.cpus == w.cpus && w'.clock == w.clock && u < |w.tasks| == |w'.tasks|
    && (forall v: nat | v < |w.tasks| && v != u :: w'.tasks[v] == w.tasks[v])
    && (forall v: nat | v != u :: w'.queue[v] == w.queue[v])
    && w'.tasks[u] == w.tasks[u].(state := w'.tasks[u].state, queued := w'.tasks[u].queued)
  }

  /** The task is READY: in line if it was on no CPU, and otherwise left to the CPU it is on. */
  ghost predicate Woken(w: World, w': World, u: nat)
    requires u < |w.tasks| == |w'.tasks|
  {
    && Only(w, w', u) && w'.tasks[u].state == Ready && !w.tasks[u].idle
    && (w'.tasks[u].queued <==> InLine(w', u))
    && (if w.tasks[u].onCpu then LeftTo(w', u, w.tasks[u].home) else InLine(w', u))
  }

  /** A wake acts on BLOCKED tasks and a continue on STOPPED ones; neither does anything else. */
  lemma WakeIs(w: World, c: nat, u: nat)
    requires Inv(w) && Named(w) && c < |w.cpus| && Enabled(w, c, Wake(u)) && Enabled(w, c, Continue(u))
    ensures var w' := Do(w, c, Wake(u));
      |w'.tasks| == |w.tasks| && if w.tasks[u].state == Blocked then Woken(w, w', u) else w' == w
    ensures var w' := Do(w, c, Continue(u));
      |w'.tasks| == |w.tasks| && if w.tasks[u].state == Stopped then Woken(w, w', u) else w' == w
  {
    InvOf(w, u);
    hide Inv, GivenUp, Requeuing, LockFree;
  }

  // ---------------------------------------------------------------- which steps end a state

  /** A step that CPU c's own task takes. */
  predicate ByItself(w: World, c: nat, u: nat)
    requires c < |w.cpus|
  {
    w.cpus[c].current == u
  }

  predicate EndsReady(w: World, c: nat, a: Act, u: nat)
    requires c < |w.cpus|
  {
    a == Next(Take(u)) || (ByItself(w, c, u) && (a.Store? || a.Block? || a.SetRunning?))
  }

  predicate EndsBlocked(w: World, c: nat, a: Act, u: nat)
    requires c < |w.cpus|
  {
    || a == Wake(u) || a == Bury(u)
    || (ByItself(w, c, u) && ((a.Store? && a.state != Blocked) || a.SetRunning?))
  }

  predicate EndsStopped(w: World, c: nat, a: Act, u: nat)
    requires c < |w.cpus|
  {
    a == Continue(u) || (ByItself(w, c, u) && ((a.Store? && a.state != Stopped) || a.Block?))
  }

  predicate EndsState(w: World, c: nat, a: Act, u: nat, s: State)
    requires c < |w.cpus|
  {
    match s
    case Ready => EndsReady(w, c, a, u)
    case Blocked => EndsBlocked(w, c, a, u)
    case Stopped => EndsStopped(w, c, a, u)
    case _ => false
  }

  lemma BackState(w: World, p: nat, u: nat)
    requires p < |w.tasks| && u < |w.tasks|
    ensures |Back(w, p).tasks| == |w.tasks| && Back(w, p).cpus == w.cpus
    ensures w.tasks[u].state != Running ==> Back(w, p).tasks[u].state == w.tasks[u].state
    ensures u != p ==> Back(w, p).tasks[u] == w.tasks[u]
  {}

  lemma TakeState(w: World, c: nat, t: nat, u: nat)
    requires Named(w) && c < |w.cpus| && MayPick(w, w.cpus[c].current, Take(t)) && u < |w.tasks|
    ensures |DoNext(w, c, Take(t)).tasks| == |w.tasks|
    ensures t != u && w.tasks[u].state != Running ==> DoNext(w, c, Take(t)).tasks[u].state == w.tasks[u].state
    ensures t == u ==> w.tasks[u].state == Ready || w.tasks[u].state == Running
    ensures t == u ==> DoNext(w, c, Take(t)).tasks[u].state == Running
  {
    hide Back;
    BackState(w, w.cpus[c].current, u);
  }

  lemma NobodyState(w: World, c: nat, u: nat)
    requires Named(w) && c < |w.cpus| && MayPick(w, w.cpus[c].current, Nobody) && u < |w.tasks| && !w.tasks[u].idle
    ensures |DoNext(w, c, Nobody).tasks| == |w.tasks|
    ensures w.tasks[u].state != Running ==> DoNext(w, c, Nobody).tasks[u].state == w.tasks[u].state
  {
    hide Back;
    BackState(w, w.cpus[c].current, u);
  }

  /** Every step that ends READY, BLOCKED or STOPPED, whoever takes it: a task leaves READY only when it is popped or by
      its own hand, BLOCKED only when it is woken, buried or by its own hand, and STOPPED only when it is continued
      or by its own hand. */
  lemma StateEnds(w: World, c: nat, a: Act, u: nat)
    requires Inv(w) && Named(w) && c < |w.cpus| && Enabled(w, c, a) && u < |w.tasks| && !w.tasks[u].idle
    requires w.tasks[u].state == Ready || w.tasks[u].state == Blocked || w.tasks[u].state == Stopped
    ensures |Do(w, c, a).tasks| == |w.tasks|
    ensures Do(w, c, a).tasks[u].state != w.tasks[u].state <==> EndsState(w, c, a, u, w.tasks[u].state)
  {
    hide Inv, LockFree, MayPick, Do, Enabled, EndsState;
    match a
    case Next(Take(t)) =>
      NextStep(w, c, a.pick);
      TakeState(w, c, t, u);
      NextEnds(w, c, a, u);
    case Next(Nobody) =>
      NextStep(w, c, a.pick);
      NobodyState(w, c, u);
      NextEnds(w, c, a, u);
    case Switch => LeaveState(w, c, a, u);
    case Release => LeaveState(w, c, a, u);
    case Requeue => LeaveState(w, c, a, u);
    case Yield => OwnState(w, c, a, u);
    case Store(_) => OwnState(w, c, a, u);
    case Block => OwnState(w, c, a, u);
    case SetRunning => OwnState(w, c, a, u);
    case Wake(_) => AwakenState(w, c, a, u);
    case Continue(_) => AwakenState(w, c, a, u);
    case Unlink(_) => UnlinkState(w, c, a, u);
    case Skip(_) => UnlinkState(w, c, a, u);
    case _ => OtherState(w, c, a, u);
  }

  lemma NextStep(w: World, c: nat, pick: Pick)
    requires Named(w) && c < |w.cpus| && Enabled(w, c, Next(pick))
    ensures w.cpus[c].pc == Run && LockFree(w) && MayPick(w, w.cpus[c].current, pick)
    ensures Do(w, c, Next(pick)) == DoNext(w, c, pick)
  {
    hide DoNext, MayPick, LockFree;
  }

  lemma NextEnds(w: World, c: nat, a: Act, u: nat)
    requires c < |w.cpus| && a.Next? && u < |w.tasks|
    ensures EndsState(w, c, a, u, w.tasks[u].state) <==> w.tasks[u].state == Ready && a.pick == Take(u)
  {}

  lemma OwnState(w: World, c: nat, a: Act, u: nat)
    requires Named(w) && c < |w.cpus| && Enabled(w, c, a) && u < |w.tasks|
    requires a.Yield? || a.Store? || a.Block? || a.SetRunning?
    requires w.tasks[u].state == Ready || w.tasks[u].state == Blocked || w.tasks[u].state == Stopped
    ensures |Do(w, c, a).tasks| == |w.tasks|
    ensures Do(w, c, a).tasks[u].state != w.tasks[u].state <==> EndsState(w, c, a, u, w.tasks[u].state)
  {
    hide LockFree, DoNext, DoSwitch;
  }

  lemma AwakenState(w: World, c: nat, a: Act, u: nat)
    requires Named(w) && c < |w.cpus| && Enabled(w, c, a) && u < |w.tasks| && (a.Wake? || a.Continue?)
    requires w.tasks[u].state == Ready || w.tasks[u].state == Blocked || w.tasks[u].state == Stopped
    ensures |Do(w, c, a).tasks| == |w.tasks|
    ensures Do(w, c, a).tasks[u].state != w.tasks[u].state <==> EndsState(w, c, a, u, w.tasks[u].state)
  {
    hide LockFree, DoNext, DoSwitch;
  }

  lemma UnlinkState(w: World, c: nat, a: Act, u: nat)
    requires Named(w) && c < |w.cpus| && Enabled(w, c, a) && u < |w.tasks| && (a.Unlink? || a.Skip?)
    ensures |Do(w, c, a).tasks| == |w.tasks| && Do(w, c, a).tasks[u].state == w.tasks[u].state
    ensures !EndsState(w, c, a, u, w.tasks[u].state)
  {
    hide LockFree, DoNext, DoSwitch;
  }

  lemma OtherState(w: World, c: nat, a: Act, u: nat)
    requires Named(w) && c < |w.cpus| && Enabled(w, c, a) && u < |w.tasks|
    requires a.Bury? || a.Reap? || a.Spawn?
    requires w.tasks[u].state == Ready || w.tasks[u].state == Blocked || w.tasks[u].state == Stopped
    ensures |Do(w, c, a).tasks| == |w.tasks|
    ensures Do(w, c, a).tasks[u].state != w.tasks[u].state <==> EndsState(w, c, a, u, w.tasks[u].state)
  {
    hide LockFree, DoNext, DoSwitch;
  }

  lemma LeaveState(w: World, c: nat, a: Act, u: nat)
    requires Inv(w) && Named(w) && c < |w.cpus| && Enabled(w, c, a) && u < |w.tasks| && !w.tasks[u].idle
    requires Finishing(a) && w.tasks[u].state != Running
    ensures |Do(w, c, a).tasks| == |w.tasks| && Do(w, c, a).tasks[u].state == w.tasks[u].state
    ensures !EndsState(w, c, a, u, w.tasks[u].state)
  {
    TakenRuns(w, c, u);
    hide Inv, LockFree, DoNext;
  }

  lemma TakenRuns(w: World, c: nat, u: nat)
    requires Inv(w) && c < |w.cpus| && u < |w.tasks| && w.tasks[u].state != Running && !w.tasks[u].idle
    ensures w.cpus[c].pc.Spin? ==> w.cpus[c].pc.next != u
  {
    assert CpuInv(w, c) && TaskInv(w, u);
  }

  predicate EndsRunning(w: World, c: nat, a: Act, u: nat)
    requires c < |w.cpus|
  {
    ByItself(w, c, u) && (a.Yield? || a.Store? || a.Block? || (a.Next? && a.pick != Take(u)))
  }

  /** And a task leaves RUNNING only when it yields, blocks, stops or dies, or its own CPU picks another; yielding and
      being passed over make it READY. */
  lemma RunningEnds(w: World, c: nat, a: Act, u: nat)
    requires Named(w) && c < |w.cpus| && Enabled(w, c, a) && u < |w.tasks| && !w.tasks[u].idle
    requires w.tasks[u].state == Running
    ensures |Do(w, c, a).tasks| == |w.tasks|
    ensures Do(w, c, a).tasks[u].state != Running <==> EndsRunning(w, c, a, u)
    ensures EndsRunning(w, c, a, u) && (a.Yield? || a.Next?) ==> Do(w, c, a).tasks[u].state == Ready
  {
    hide LockFree, Do, Enabled;
    match a
    case Next(Take(t)) =>
      NextStep(w, c, a.pick);
      RunningTaken(w, c, t, u);
    case Next(Nobody) =>
      NextStep(w, c, a.pick);
      RunningPassed(w, c, u);
    case Switch => RunningElse(w, c, a, u);
    case Release => RunningElse(w, c, a, u);
    case Requeue => RunningElse(w, c, a, u);
    case Yield => RunningSelf(w, c, a, u);
    case Store(_) => RunningSelf(w, c, a, u);
    case Block => RunningSelf(w, c, a, u);
    case SetRunning => RunningSelf(w, c, a, u);
    case Unlink(_) => UnlinkState(w, c, a, u);
    case Skip(_) => UnlinkState(w, c, a, u);
    case _ => RunningOther(w, c, a, u);
  }

  lemma RunningTaken(w: World, c: nat, t: nat, u: nat)
    requires Named(w) && c < |w.cpus| && MayPick(w, w.cpus[c].current, Take(t)) && u < |w.tasks|
    requires w.tasks[u].state == Running && !w.tasks[u].idle
    ensures |DoNext(w, c, Take(t)).tasks| == |w.tasks|
    ensures DoNext(w, c, Take(t)).tasks[u].state == if t != u && ByItself(w, c, u) then Ready else Running
  {
    hide Back;
    BackState(w, w.cpus[c].current, u);
    BackReady(w, w.cpus[c].current);
  }

  lemma BackReady(w: World, p: nat)
    requires p < |w.tasks|
    ensures |Back(w, p).tasks| == |w.tasks| && (w.tasks[p].state == Running ==> Back(w, p).tasks[p].state == Ready)
  {}

  /** Nobody is picked only if the CPU's own task cannot run on. */
  lemma RunningPassed(w: World, c: nat, u: nat)
    requires Named(w) && c < |w.cpus| && MayPick(w, w.cpus[c].current, Nobody) && u < |w.tasks|
    requires w.tasks[u].state == Running && !w.tasks[u].idle
    ensures |DoNext(w, c, Nobody).tasks| == |w.tasks|
    ensures !ByItself(w, c, u) && DoNext(w, c, Nobody).tasks[u].state == Running
  {
    hide Back;
    BackState(w, w.cpus[c].current, u);
  }

  lemma RunningSelf(w: World, c: nat, a: Act, u: nat)
    requires Named(w) && c < |w.cpus| && Enabled(w, c, a) && u < |w.tasks| && w.tasks[u].state == Running
    requires a.Yield? || a.Store? || a.Block? || a.SetRunning?
    ensures |Do(w, c, a).tasks| == |w.tasks|
    ensures Do(w, c, a).tasks[u].state != Running <==> EndsRunning(w, c, a, u)
    ensures EndsRunning(w, c, a, u) && a.Yield? ==> Do(w, c, a).tasks[u].state == Ready
  {
    hide LockFree, DoNext, DoSwitch;
  }

  lemma RunningElse(w: World, c: nat, a: Act, u: nat)
    requires Named(w) && c < |w.cpus| && Enabled(w, c, a) && Finishing(a) && u < |w.tasks|
    requires w.tasks[u].state == Running
    ensures |Do(w, c, a).tasks| == |w.tasks| && Do(w, c, a).tasks[u].state == Running
  {
    hide LockFree, DoNext;
  }

  lemma RunningOther(w: World, c: nat, a: Act, u: nat)
    requires Named(w) && c < |w.cpus| && Enabled(w, c, a) && u < |w.tasks| && w.tasks[u].state == Running
    requires a.Wake? || a.Continue? || a.Bury? || a.Reap? || a.Spawn?
    ensures |Do(w, c, a).tasks| == |w.tasks| && Do(w, c, a).tasks[u].state == Running
  {
    hide LockFree, DoNext, DoSwitch;
  }

  // ---------------------------------------------------------------- no wake is lost

  /** The CPU that task u is on, if it is on any, is h. */
  predicate Where(w: World, u: nat, h: nat)
    requires u < |w.tasks|
  {
    && h < |w.cpus| && (w.tasks[u].onCpu ==> w.tasks[u].home == h)
    && forall d | 0 <= d < |w.cpus| && w.cpus[d].pc == Releasing(u) :: d == h
  }

  /** READY and, as long as it is not in line, with CPU h. */
  predicate Held(w: World, u: nat, h: nat) {
    u < |w.tasks| && w.tasks[u].state == Ready && !w.tasks[u].idle && Where(w, u, h)
  }

  lemma HeldIs(w: World, u: nat, h: nat)
    requires Inv(w) && Held(w, u, h)
    ensures InLine(w, u) || LeftTo(w, u, h)
  {
    assert TaskInv(w, u);
  }

  /** No step moves a task that is where it is in w. */
  ghost predicate InPlace(w: World, w': World, u: nat)
    requires u < |w.tasks|
  {
    && |w'.tasks| == |w.tasks| && |w'.cpus| == |w.cpus|
    && w'.tasks[u].idle == w.tasks[u].idle
    && w'.tasks[u].onCpu == w.tasks[u].onCpu && w'.tasks[u].home == w.tasks[u].home
    && (forall d | 0 <= d < |w.cpus| && w'.cpus[d].pc == Releasing(u) :: w.cpus[d].pc == Releasing(u))
  }

  lemma BackInPlace(w: World, p: nat, u: nat)
    requires p < |w.tasks| && u < |w.tasks|
    ensures InPlace(w, Back(w, p), u)
  {}

  lemma NextInPlace(w: World, c: nat, pick: Pick, u: nat)
    requires Named(w) && c < |w.cpus| && MayPick(w, w.cpus[c].current, pick) && u < |w.tasks|
    ensures InPlace(w, DoNext(w, c, pick), u)
  {
    hide Back, MayPick, Leave, InPlace;
    var p := w.cpus[c].current;
    var b := Back(w, p);
    BackInPlace(w, p, u);
    match pick
    case Take(t) =>
      PickedIn(w, p, t);
      InPlaceSize(w, b, u);
      PopInPlace(b, t, u);
      var popped := SetState(Dequeue(b, t), t, Running);
      InPlaceSize(b, popped, u);
      InPlaceOn(w, b, popped, u);
      if t != p {
        LeaveInPlace(popped, c, t, u);
        InPlaceOn(w, popped, Leave(popped, c, t), u);
      }
    case Nobody =>
      NobodyInPlace(w, b, c, u);
  }

  lemma PickedIn(w: World, p: nat, t: nat)
    requires p < |w.tasks| && MayPick(w, p, Take(t))
    ensures t < |w.tasks|
  {}

  lemma InPlaceSize(w: World, w': World, u: nat)
    requires u < |w.tasks| && InPlace(w, w', u)
    ensures |w'.tasks| == |w.tasks| && |w'.cpus| == |w.cpus|
  {}

  lemma InPlaceOn(w: World, w': World, w'': World, u: nat)
    requires u < |w.tasks| && InPlace(w, w', u) && InPlace(w', w'', u)
    ensures InPlace(w, w'', u)
  {}

  lemma PopInPlace(w: World, t: nat, u: nat)
    requires t < |w.tasks| && u < |w.tasks|
    ensures InPlace(w, SetState(Dequeue(w, t), t, Running), u)
  {}

  lemma LeaveInPlace(w: World, c: nat, t: nat, u: nat)
    requires t < |w.tasks| && u < |w.tasks| && c < |w.cpus|
    ensures InPlace(w, Leave(w, c, t), u)
  {}

  lemma NobodyInPlace(w: World, b: World, c: nat, u: nat)
    requires Named(w) && c < |w.cpus| && u < |w.tasks| && MayPick(w, w.cpus[c].current, Nobody)
    requires b == Back(w, w.cpus[c].current) && InPlace(w, b, u)
    ensures InPlace(w, DoNext(w, c, Nobody), u)
  {
    hide Back, MayPick;
  }

  lemma OwnInPlace(w: World, c: nat, a: Act, u: nat)
    requires Named(w) && c < |w.cpus| && Enabled(w, c, a) && u < |w.tasks|
    requires a.Yield? || a.Store? || a.Block? || a.SetRunning?
    ensures InPlace(w, Do(w, c, a), u)
  {
    hide LockFree, DoNext, DoSwitch;
  }

  lemma QueueInPlace(w: World, t: nat, u: nat)
    requires t < |w.tasks| && u < |w.tasks|
    ensures InPlace(w, Enqueue(w, t), u) && InPlace(w, Dequeue(w, t), u)
  {}

  lemma AwakenInPlace(w: World, t: nat, u: nat)
    requires t < |w.tasks| && u < |w.tasks|
    ensures InPlace(w, Awaken(w, t), u)
  {
    hide Enqueue, InPlace;
    var r := SetState(w, t, Ready);
    SetInPlace(w, t, Ready, u);
    QueueInPlace(r, t, u);
    InPlaceOn(w, r, Awaken(w, t), u);
  }

  lemma SetInPlace(w: World, t: nat, s: State, u: nat)
    requires t < |w.tasks| && u < |w.tasks|
    ensures InPlace(w, SetState(w, t, s), u) && InPlace(SetState(w, t, s), SetState(w, t, s), u)
  {}

  lemma OtherInPlace(w: World, c: nat, a: Act, u: nat)
    requires Named(w) && c < |w.cpus| && Enabled(w, c, a) && u < |w.tasks|
    requires a.Wake? || a.Continue? || a.Bury? || a.Unlink? || a.Reap? || a.Spawn? || a.Skip?
    ensures InPlace(w, Do(w, c, a), u)
  {
    hide LockFree, DoNext, DoSwitch, Awaken, Enqueue, Dequeue;
    QueueInPlace(w, a.task, u);
    AwakenInPlace(w, a.task, u);
    if a.Spawn? {
      QueueInPlace(SetState(w, a.task, Ready), a.task, u);
    }
  }

  lemma WhereKept(w: World, c: nat, a: Act, u: nat, h: nat)
    requires Inv(w) && Named(w) && c < |w.cpus| && Enabled(w, c, a) && Held(w, u, h)
    ensures |Do(w, c, a).tasks| == |w.tasks| && Do(w, c, a).tasks[u].idle == w.tasks[u].idle
    ensures Where(Do(w, c, a), u, h)
  {
    if a.Next? {
      hide Inv, LockFree, MayPick, Do, Enabled;
      NextStep(w, c, a.pick);
      NextInPlace(w, c, a.pick, u);
    } else if Finishing(a) {
      FinishingWhere(w, c, a, u, h);
      hide Do, Enabled, Inv;
    } else {
      hide Do, Enabled, Inv;
      if a.Yield? || a.Store? || a.Block? || a.SetRunning? {
        OwnInPlace(w, c, a, u);
      } else {
        OtherInPlace(w, c, a, u);
      }
    }
  }

  lemma FinishingWhere(w: World, c: nat, a: Act, u: nat, h: nat)
    requires Inv(w) && Named(w) && c < |w.cpus| && Enabled(w, c, a) && Finishing(a) && Held(w, u, h)
    ensures |Do(w, c, a).tasks| == |w.tasks| && Do(w, c, a).tasks[u].idle == w.tasks[u].idle
    ensures Where(Do(w, c, a), u, h)
  {
    TakenRuns(w, c, u);
    assert CpuInv(w, c);
    hide Inv, LockFree, DoNext;
  }

  lemma HeldKept(w: World, c: nat, a: Act, u: nat, h: nat)
    requires Inv(w) && Named(w) && c < |w.cpus| && Enabled(w, c, a) && Held(w, u, h) && !EndsReady(w, c, a, u)
    ensures Held(Do(w, c, a), u, h)
  {
    StateEnds(w, c, a, u);
    WhereKept(w, c, a, u, h);
    hide Inv, Do, Enabled, Where;
  }

  /** No step of the schedule ends READY for task u. */
  predicate LeftAlone(w: World, ms: seq<Move>, u: nat)
    requires Can(w, ms)
    decreases |ms|
  {
    ms == [] || (!EndsReady(w, ms[0].cpu, ms[0].act, u) && LeftAlone(Do(w, ms[0].cpu, ms[0].act), ms[1..], u))
  }

  lemma {:induction false} HeldOn(w: World, ms: seq<Move>, u: nat, h: nat)
    requires Inv(w) && Can(w, ms) && Held(w, u, h) && LeftAlone(w, ms, u)
    ensures Inv(After(w, ms)) && Held(After(w, ms), u, h)
    decreases |ms|
  {
    if ms != [] {
      InvKept(w, ms[0].cpu, ms[0].act);
      HeldKept(w, ms[0].cpu, ms[0].act, u, h);
      HeldOn(Do(w, ms[0].cpu, ms[0].act), ms[1..], u, h);
    }
    hide Inv, Held, Do, Enabled, Named, EndsReady;
  }

  /** The end of sched_return puts a READY task in line. */
  lemma RequeueIs(w: World, h: nat, u: nat)
    requires Inv(w) && Named(w) && h < |w.cpus| && u < |w.tasks| && w.tasks[u].state == Ready && !w.tasks[u].idle
    requires w.cpus[h].pc == Releasing(u)
    ensures Enabled(w, h, Requeue) && InLine(Do(w, h, Requeue), u) && !LeftTo(Do(w, h, Requeue), u, h)
  {
    assert CpuInv(w, h) && TaskInv(w, u);
    hide Inv;
  }

  lemma WakeHolds(w: World, c: nat, u: nat)
    requires Inv(w) && Named(w) && c < |w.cpus| && Enabled(w, c, Wake(u))
    requires w.tasks[u].state == Blocked && w.tasks[u].onCpu
    ensures Inv(Do(w, c, Wake(u))) && Held(Do(w, c, Wake(u)), u, w.tasks[u].home)
  {
    InvOf(w, u);
    InvKept(w, c, Wake(u));
    WakeIs(w, c, u);
    assert LockFree(w);
    hide Inv, Do;
  }

  /** A task that is woken when it is already BLOCKED but still on CPU h stays READY until it is popped or ends that
      itself, whatever else anyone does. All that time it is in line or with h, and when h has done the last step of its
      sched_return, it is in line. */
  lemma WakeNotLost(i: World, past: seq<Move>, c: nat, u: nat, ms: seq<Move>)
    requires Init(i) && Can(i, past) && Can(After(i, past), [Move(c, Wake(u))] + ms) && u < |After(i, past).tasks|
    requires After(i, past).tasks[u].state == Blocked && After(i, past).tasks[u].onCpu
    requires var w := After(i, past); Can(Do(w, c, Wake(u)), ms) && LeftAlone(Do(w, c, Wake(u)), ms, u)
    ensures var w := After(i, past);
      var h, r := w.tasks[u].home, After(w, [Move(c, Wake(u))] + ms);
      && u < |r.tasks| && r.tasks[u].state == Ready && (InLine(r, u) || LeftTo(r, u, h)) && Named(r) && h < |r.cpus|
      && (r.cpus[h].pc == Releasing(u) ==>
            Enabled(r, h, Requeue) && InLine(Do(r, h, Requeue), u) && !LeftTo(Do(r, h, Requeue), u, h))
  {
    InitInv(i);
    RunKept(i, past);
    var w := After(i, past);
    var h := w.tasks[u].home;
    WakeHolds(w, c, u);
    var r := After(Do(w, c, Wake(u)), ms);
    assert ([Move(c, Wake(u))] + ms)[1..] == ms;
    HeldOn(Do(w, c, Wake(u)), ms, u, h);
    HeldIs(r, u, h);
    InvNamed(r);
    if r.cpus[h].pc == Releasing(u) { RequeueIs(r, h, u); }
    hide Inv, Do, Enabled, Named, EndsReady, LeftAlone, Init, InLine, LeftTo;
  }

  // ---------------------------------------------------------------- and it gets through

  /** CPU h has left its section with task u still current, or is past that. */
  predicate Gone(w: World, u: nat, h: nat) {
    h < |w.cpus| && (w.cpus[h].current == u ==> w.cpus[h].pc.Spin?)
  }

  lemma {:induction false} FinishingAlone(w: World, ms: seq<Move>, u: nat, h: nat)
    requires Inv(w) && Can(w, ms) && Held(w, u, h) && Gone(w, u, h) && forall m | m in ms :: Finishing(m.act)
    ensures LeftAlone(w, ms, u) && Inv(After(w, ms)) && Held(After(w, ms), u, h) && Gone(After(w, ms), u, h)
    decreases |ms|
  {
    if ms != [] {
      var c, a := ms[0].cpu, ms[0].act;
      assert ms[0] in ms;
      InvKept(w, c, a);
      HeldKept(w, c, a, u, h);
      GoneKept(w, c, a, u, h);
      FinishingAlone(Do(w, c, a), ms[1..], u, h);
    }
    hide Inv, Held, Gone, Do, Enabled, Named;
  }

  lemma GoneKept(w: World, c: nat, a: Act, u: nat, h: nat)
    requires Inv(w) && Named(w) && c < |w.cpus| && Enabled(w, c, a) && Finishing(a) && Held(w, u, h) && Gone(w, u, h)
    ensures Gone(Do(w, c, a), u, h)
  {
    TakenRuns(w, c, u);
    hide Inv, LockFree, DoNext;
  }

  /** Whoever wakes a task whose CPU has already left its section need do no more: at most three steps per CPU, each of
      them the next step of a switch already begun, put the task in line. */
  lemma WakeGetsThrough(i: World, past: seq<Move>, c: nat, u: nat) returns (ms: seq<Move>)
    requires Init(i) && Can(i, past) && u < |After(i, past).tasks|
    requires var w := After(i, past);
      && Named(w) && c < |w.cpus| && Enabled(w, c, Wake(u)) && w.tasks[u].state == Blocked && w.tasks[u].onCpu
      && Gone(w, u, w.tasks[u].home)
    ensures var w' := Do(After(i, past), c, Wake(u));
      && Can(w', ms) && |ms| <= 3 * |w'.cpus| && (forall m | m in ms :: Finishing(m.act))
      && InLine(After(w', ms), u)
  {
    InitInv(i);
    RunKept(i, past);
    var w := After(i, past);
    var h := w.tasks[u].home;
    WakeHolds(w, c, u);
    WakeIs(w, c, u);
    var w' := Do(w, c, Wake(u));
    hide Do, Enabled, Inv, Named, Init, Can, After;
    ms := AllGetThrough(w');
    FinishingAlone(w', ms, u, h);
    HeldIs(After(w', ms), u, h);
  }

  /** A task that finds itself woken on its way into the scheduler does not go to sleep: it runs on, or it is in line
      when the section ends. */
  lemma WokenRunsOn(w: World, c: nat, pick: Pick)
    requires Inv(w) && Named(w) && c < |w.cpus| && Enabled(w, c, Next(pick))
    requires w.tasks[w.cpus[c].current].state == Ready && !w.tasks[w.cpus[c].current].idle
    ensures var u, w' := w.cpus[c].current, Do(w, c, Next(pick));
      && |w'.tasks| == |w.tasks|
      && (if pick == Take(u) then w'.cpus == w.cpus && w'.tasks[u] == w.tasks[u].(state := Running)
          else InLine(w', u) && w'.tasks[u].state == Ready && pick.Take? && w'.cpus[c].pc == Spin(pick.task, w.clock))
  {
    var u := w.cpus[c].current;
    Settled(w, c);
    NextStep(w, c, pick);
    hide Inv, Do, Enabled, LockFree;
    NextLeaves(w, c, pick);
    BackIs(w, u);
    assert pick.Take?;
    TakesOn(w, c, pick.task);
  }

  lemma TakesOn(w: World, c: nat, t: nat)
    requires Named(w) && c < |w.cpus| && MayPick(w, w.cpus[c].current, Take(t))
    requires var k := w.tasks[w.cpus[c].current];
      k.state == Ready && !k.idle && !k.queued && w.queue[w.cpus[c].current] == 0
    ensures var u, w' := w.cpus[c].current, DoNext(w, c, Take(t));
      && |w'.tasks| == |w.tasks|
      && (if t == u then w'.cpus == w.cpus && w'.tasks[u] == w.tasks[u].(state := Running)
          else InLine(w', u) && w'.tasks[u].state == Ready)
  {
    BackIs(w, w.cpus[c].current);
    hide Back;
  }
}
