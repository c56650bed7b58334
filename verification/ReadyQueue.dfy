/** The two priority arrays of the scheduler (kernel/src/sched/scheduler.c): 32 linked lists each with a bitmap of those
    that are not empty. List number x is level x % 32 of array x / 32. */
module ReadyQueue {
  import opened Collections
  import opened DList

  const LEVELS: nat := 32
  const LISTS: nat := 64
  const STARVE_TICKS: nat := 20

  datatype Rq = Rq(
    nodes: Nodes,               // ready_prev, ready_next
    ends: seq<Ends>,            // head, tail
    bits: seq<bool>,            // bitmap
    place: map<nat, nat>,       // ready_array and ready_prio, while it is in one
    active: nat,
    since: nat)                 // expired_since

  function Base(a: nat): nat { a * LEVELS }

  predicate ListOk(q: Rq, ls: seq<seq<nat>>, x: nat)
    requires x < |q.ends| == |q.bits| == |ls|
  {
    IsList(q.nodes, q.ends[x], ls[x]) && (q.bits[x] <==> ls[x] != [])
  }

  /** A task is in list x exactly if it noted x. */
  ghost predicate PlacedOk(place: map<nat, nat>, ls: seq<seq<nat>>) {
    && (forall t | t in place :: place[t] < |ls|)
    && (forall t: nat, x: nat | x < |ls| :: t in ls[x] <==> t in place && place[t] == x)
  }

  /** The state stands for these lists: links both ways, bits, and every task's own note of where it is. */
  ghost predicate Rep(q: Rq, ls: seq<seq<nat>>) {
    && |q.ends| == |q.bits| == |ls| == LISTS && q.active < 2
    && (forall x: nat | x < LISTS :: ListOk(q, ls, x))
    && PlacedOk(q.place, ls)
  }

  /** rq_enqueue at the tail of list x. */
  function Enq(q: Rq, t: nat, x: nat): Rq
    requires x < |q.ends| == |q.bits| && (q.ends[x].tail.Some? ==> q.ends[x].tail.value in q.nodes)
  {
    q.(nodes := Appended(q.nodes, q.ends[x], t),
       ends := q.ends[x := Ends(if q.ends[x].tail.Some? then q.ends[x].head else Some(t), Some(t))],
       bits := q.bits[x := true], place := q.place[t := x])
  }

  lemma EnqKept(q: Rq, ls: seq<seq<nat>>, t: nat, x: nat)
    requires Rep(q, ls) && t !in q.place && x < LISTS
    ensures q.ends[x].tail.Some? ==> q.ends[x].tail.value in q.nodes
    ensures Rep(Enq(q, t, x), ls[x := ls[x] + [t]])
  {
    assert ListOk(q, ls, x);
    TailThere(q.nodes, q.ends[x], ls[x]);
    EnqPlaced(q.place, ls, t, x);
    var q', ls' := Enq(q, t, x), ls[x := ls[x] + [t]];
    forall y: nat | y < LISTS ensures ListOk(q', ls', y) { EnqList(q, ls, t, x, y); }
    hide ListOk, PlacedOk, Appended;
  }

  lemma EnqPlaced(place: map<nat, nat>, ls: seq<seq<nat>>, t: nat, x: nat)
    requires PlacedOk(place, ls) && t !in place && x < |ls|
    ensures PlacedOk(place[t := x], ls[x := ls[x] + [t]])
  {}

  lemma EnqList(q: Rq, ls: seq<seq<nat>>, t: nat, x: nat, y: nat)
    requires Rep(q, ls) && t !in q.place && x < LISTS && y < LISTS
      && (q.ends[x].tail.Some? ==> q.ends[x].tail.value in q.nodes)
    ensures ListOk(Enq(q, t, x), ls[x := ls[x] + [t]], y)
  {
    assert ListOk(q, ls, x) && ListOk(q, ls, y);
    hide IsList, Appended, Rep;
    if y == x {
      assert t !in ls[x] by { InPlace(q, ls, t, x); }
      AppendedIs(q.nodes, q.ends[x], ls[x], t);
    } else {
      var ns := Appended(q.nodes, q.ends[x], t);
      forall u | u in ls[y] && u in q.nodes ensures u in ns && ns[u] == q.nodes[u] {
        InPlace(q, ls, u, y);
        TailIn(q, ls, x);
        AppendedElse(q.nodes, q.ends[x], t, u);
      }
      Elsewhere(q.nodes, ns, q.ends[y], ls[y]);
    }
  }

  lemma InPlace(q: Rq, ls: seq<seq<nat>>, t: nat, x: nat)
    requires Rep(q, ls) && x < LISTS
    ensures t in ls[x] <==> t in q.place && q.place[t] == x
  {}

  lemma TailIn(q: Rq, ls: seq<seq<nat>>, x: nat)
    requires Rep(q, ls) && x < LISTS
    ensures q.ends[x].tail.Some? ==> q.ends[x].tail.value in q.place && q.place[q.ends[x].tail.value] == x
  {
    assert ListOk(q, ls, x);
    TailThere(q.nodes, q.ends[x], ls[x]);
    if q.ends[x].tail.Some? {
      InPlace(q, ls, q.ends[x].tail.value, x);
    }
    hide Rep, IsList;
  }

  /** rq_dequeue: out of the list it noted, whatever its priority is by now. */
  function Deq(q: Rq, t: nat): Rq
    requires t in q.place && q.place[t] < |q.ends| == |q.bits| && Joined(q.nodes, t)
  {
    var x := q.place[t];
    var e := UnlinkedEnds(q.nodes, q.ends[x], t);
    q.(nodes := Unlinked(q.nodes, t), ends := q.ends[x := e],
       bits := if e.head == None then q.bits[x := false] else q.bits, place := q.place - {t})
  }

  lemma DeqKept(q: Rq, ls: seq<seq<nat>>, t: nat, k: nat)
    requires Rep(q, ls) && t in q.place && k < |ls[q.place[t]]| && ls[q.place[t]][k] == t
    ensures Joined(q.nodes, t) && Rep(Deq(q, t), ls[q.place[t] := Cut(ls[q.place[t]], k)])
  {
    var x := q.place[t];
    assert ListOk(q, ls, x);
    NeighboursThere(q.nodes, ls[x], k);
    DeqPlaced(q.place, ls, t, k);
    var q', ls' := Deq(q, t), ls[x := Cut(ls[x], k)];
    forall y: nat | y < LISTS ensures ListOk(q', ls', y) { DeqList(q, ls, t, k, y); }
    hide ListOk, PlacedOk, Unlinked, Cut, UnlinkedEnds;
  }

  lemma DeqPlaced(place: map<nat, nat>, ls: seq<seq<nat>>, t: nat, k: nat)
    requires PlacedOk(place, ls) && t in place && k < |ls[place[t]]| && ls[place[t]][k] == t && NoDup(ls[place[t]])
    ensures PlacedOk(place - {t}, ls[place[t] := Cut(ls[place[t]], k)])
  {
    var x := place[t];
    forall u ensures u in Cut(ls[x], k) <==> u in ls[x] && u != t { CutIn(ls[x], k, u); }
    hide Cut;
  }

  lemma DeqList(q: Rq, ls: seq<seq<nat>>, t: nat, k: nat, y: nat)
    requires Rep(q, ls) && t in q.place && k < |ls[q.place[t]]| && ls[q.place[t]][k] == t && Joined(q.nodes, t)
      && y < LISTS
    ensures ListOk(Deq(q, t), ls[q.place[t] := Cut(ls[q.place[t]], k)], y)
  {
    var x := q.place[t];
    assert ListOk(q, ls, x) && ListOk(q, ls, y);
    NeighboursThere(q.nodes, ls[x], k);
    if y == x {
      UnlinkedIs(q.nodes, q.ends[x], ls[x], k);
      TailThere(Unlinked(q.nodes, t), UnlinkedEnds(q.nodes, q.ends[x], t), Cut(ls[x], k));
    } else {
      forall u | u in ls[y] && u in q.nodes ensures u in Unlinked(q.nodes, t) && Unlinked(q.nodes, t)[u] == q.nodes[u] {
        UnlinkedElse(q.nodes, t, u);
      }
      Elsewhere(q.nodes, Unlinked(q.nodes, t), q.ends[y], ls[y]);
    }
    hide IsList, Unlinked, Cut, UnlinkedEnds;
  }

  // ---------------------------------------------------------------- who is next

  /** The lists from x on, one after the other. */
  function Flat(ls: seq<seq<nat>>, x: nat, n: nat): seq<nat>
    requires x + n <= |ls|
    decreases n
  {
    if n == 0 then [] else ls[x] + Flat(ls, x + 1, n - 1)
  }

  /** The order in which tasks come up if array a is the active one. */
  function Order(ls: seq<seq<nat>>, a: nat): seq<nat>
    requires |ls| == LISTS && a < 2
  {
    Flat(ls, Base(a), LEVELS) + Flat(ls, Base(1 - a), LEVELS)
  }

  lemma {:induction false} FlatSkip(ls: seq<seq<nat>>, x: nat, n: nat, k: nat)
    requires x + n <= |ls| && k <= n && forall y | x <= y < x + k :: ls[y] == []
    ensures Flat(ls, x, n) == Flat(ls, x + k, n - k)
    decreases n
  {
    if k > 0 {
      FlatSkip(ls, x + 1, n - 1, k - 1);
      assert [] + Flat(ls, x + 1, n - 1) == Flat(ls, x + 1, n - 1);
    }
  }

  lemma {:induction false} FlatSame(ls: seq<seq<nat>>, ls': seq<seq<nat>>, x: nat, n: nat)
    requires |ls| == |ls'| && x + n <= |ls| && forall y | x <= y < x + n :: ls'[y] == ls[y]
    ensures Flat(ls', x, n) == Flat(ls, x, n)
    decreases n
  {
    if n > 0 {
      FlatSame(ls, ls', x + 1, n - 1);
    }
  }

  /** The head of the first list that is not empty comes first; without it the others follow in the same order. */
  lemma PopsFirst(ls: seq<seq<nat>>, a: nat, x: nat)
    requires |ls| == LISTS && a < 2 && Base(a) <= x < Base(a) + LEVELS && ls[x] != [] && forall y | Base(a) <= y < x ::
      ls[y] == []
    ensures Order(ls, a) == [ls[x][0]] + Order(ls[x := Cut(ls[x], 0)], a)
  {
    hide Flat;
    var k := x - Base(a);
    var ls' := ls[x := Cut(ls[x], 0)];
    FlatSkip(ls, Base(a), LEVELS, k);
    FlatSkip(ls', Base(a), LEVELS, k);
    FlatCons(ls, x, LEVELS - k);
    FlatCons(ls', x, LEVELS - k);
    FlatSame(ls, ls', x + 1, LEVELS - k - 1);
    FlatSame(ls, ls', Base(1 - a), LEVELS);
    Regroup(ls[x], Flat(ls, x + 1, LEVELS - k - 1), Flat(ls, Base(1 - a), LEVELS));
  }

  lemma FlatCons(ls: seq<seq<nat>>, x: nat, n: nat)
    requires 0 < n && x + n <= |ls|
    ensures Flat(ls, x, n) == ls[x] + Flat(ls, x + 1, n - 1)
  {}

  lemma FlatNone(ls: seq<seq<nat>>, x: nat)
    requires x <= |ls|
    ensures Flat(ls, x, 0) == []
  {}

  lemma Regroup(l: seq<nat>, f: seq<nat>, g: seq<nat>)
    requires l != []
    ensures l + f + g == [l[0]] + (Cut(l, 0) + f + g)
  {}

  /** With nothing in the active array it does not matter which one is called that. */
  lemma SwapEmpty(ls: seq<seq<nat>>, a: nat)
    requires |ls| == LISTS && a < 2 && forall y | Base(a) <= y < Base(a) + LEVELS :: ls[y] == []
    ensures Order(ls, 1 - a) == Order(ls, a)
  {
    hide Flat;
    FlatSkip(ls, Base(a), LEVELS, LEVELS);
    FlatNone(ls, Base(a) + LEVELS);
    var g := Flat(ls, Base(1 - a), LEVELS);
    assert [] + g == g + [];
  }

  predicate AnyBit(bits: seq<bool>, a: nat)
    requires |bits| == LISTS && a < 2
  {
    exists x :: Base(a) <= x < Base(a) + LEVELS && bits[x]
  }

  /** The arrays swap before a pop when the active one is empty, or the other has waited long enough. */
  predicate Swaps(q: Rq, now: nat)
    requires |q.bits| == LISTS && q.active < 2
  {
    !AnyBit(q.bits, q.active) || (AnyBit(q.bits, 1 - q.active) && now - q.since >= STARVE_TICKS)
  }

  /** The array a pop at this time takes from first. */
  function Effective(q: Rq, now: nat): (a: nat)
    requires |q.bits| == LISTS && q.active < 2
    ensures a < 2
  {
    if Swaps(q, now) then 1 - q.active else q.active
  }

  function Swapped(q: Rq, now: nat): Rq
    requires |q.bits| == LISTS && q.active < 2
  {
    if Swaps(q, now) then q.(active := 1 - q.active, since := now) else q
  }

  lemma BitsEmpty(q: Rq, ls: seq<seq<nat>>, a: nat)
    requires Rep(q, ls) && a < 2
    ensures AnyBit(q.bits, a) <==> exists x :: Base(a) <= x < Base(a) + LEVELS && ls[x] != []
  {
    forall x: nat | x < LISTS ensures q.bits[x] <==> ls[x] != [] { assert ListOk(q, ls, x); }
  }

  /** The lowest bit that is set. */
  method Lowest(bits: seq<bool>, a: nat) returns (x: nat)
    requires |bits| == LISTS && a < 2 && AnyBit(bits, a)
    ensures Base(a) <= x < Base(a) + LEVELS && bits[x] && forall y | Base(a) <= y < x :: !bits[y]
  {
    x := Base(a);
    while x < Base(a) + LEVELS && !bits[x]
      invariant Base(a) <= x <= Base(a) + LEVELS && forall y | Base(a) <= y < x :: !bits[y]
    {
      x := x + 1;
    }
  }

  /** What rq_enqueue asks about the task its CPU is running. */
  datatype Own = Own(idle: bool, prio: nat)

  class Queue {
    var q: Rq
    ghost var lists: seq<seq<nat>>

    ghost predicate Valid()
      reads this
    {
      Rep(q, lists)
    }

    /** rq_enqueue: to the tail of its level in the active array, or in the expired one if it used up its quantum. An
        idle task is never queued. The answer is whether the CPU's own task, if it has one, has to give way. */
    method Enqueue(t: nat, idle: bool, prio: nat, spent: bool, now: nat, own: Option<Own>) returns (resched: bool)
      requires Valid() && prio < LEVELS
      modifies this
      ensures Valid()
      ensures t in old(q.place) || idle ==> q == old(q) && lists == old(lists) && !resched
      ensures t !in old(q.place) && !idle ==>
        var x := Base(if spent then 1 - q.active else q.active) + prio;
        q.active == old(q.active) && lists == old(lists)[x := old(lists)[x] + [t]] && q.place == old(q.place)[t := x]
      ensures t !in old(q.place) && !idle ==>
        (resched <==> !spent && own.Some? && (own.value.idle || prio < own.value.prio))
      ensures !idle ==> Goes(AbsOf(old(q)), DoEnqueue(t, prio, spent, now), AbsOf(q))
    {
      hide Rep, AnyBit, Occupied;
      if t in q.place || idle {
        return false;
      }
      SizesOf(q, lists);
      OccupiedIs(q, lists, 1 - q.active);
      var a := q.active;
      if spent {
        a := 1 - q.active;
        if !AnyBit(q.bits, a) {
          q := q.(since := now);
        }
      }
      SinceKept(old(q), lists, q.since);
      var x := Base(a) + prio;
      EnqKept(q, lists, t, x);
      q := Enq(q, t, x);
      lists := lists[x := lists[x] + [t]];
      resched := a == q.active && own.Some? && (own.value.idle || prio < own.value.prio);
    }

    /** rq_dequeue */
    method Dequeue(t: nat)
      requires Valid()
      modifies this
      ensures Valid() && q.active == old(q.active) && q.since == old(q.since)
      ensures t !in old(q.place) ==> q == old(q) && lists == old(lists)
      ensures t in old(q.place) ==> q.place == old(q.place) - {t}
      ensures forall x: nat | x < LISTS && !(t in old(q.place) && old(q.place)[t] == x) :: lists[x] == old(lists)[x]
      ensures forall x: nat, k: nat | x < LISTS && k < |old(lists)[x]| && old(lists)[x][k] == t ::
        lists[x] == Cut(old(lists)[x], k)
      ensures AbsOf(q) == Without(AbsOf(old(q)), t)
    {
      if t !in q.place {
        assert q.place - {t} == q.place;
        forall x: nat | x < LISTS ensures t !in lists[x] { InPlace(q, lists, t, x); }
        return;
      }
      var x := q.place[t];
      assert t in lists[x] && ListOk(q, lists, x);
      ghost var k :| 0 <= k < |lists[x]| && lists[x][k] == t;
      DeqKept(q, lists, t, k);
      forall y: nat, j: nat | y < LISTS && j < |lists[y]| && lists[y][j] == t
        ensures y == x && j == k { assert t in lists[y]; }
      q := Deq(q, t);
      lists := lists[x := Cut(lists[x], k)];
      hide Rep, Deq, Cut;
    }
  }

  lemma SinceKept(q: Rq, ls: seq<seq<nat>>, since: nat)
    requires Rep(q, ls)
    ensures Rep(q.(since := since), ls)
  {
    forall x: nat | x < LISTS ensures ListOk(q.(since := since), ls, x) { assert ListOk(q, ls, x); }
  }

  /** What the swap at the top of ready_pop leaves: the active array holds whoever is next, or nobody is left. */
  lemma Settle(q: Rq, ls: seq<seq<nat>>, now: nat)
    requires Rep(q, ls) && q.since <= now
    ensures var q' := Swapped(q, now);
      && Rep(q', ls) && q'.since <= now && q'.place == q.place && q'.active == Effective(q, now)
      && (AnyBit(q'.bits, q'.active) ==> !Swaps(q', now))
      && (!AnyBit(q'.bits, q'.active) ==> Order(ls, q'.active) == [] && q'.place == map[])
  {
    var q' := Swapped(q, now);
    forall x: nat | x < LISTS ensures ListOk(q', ls, x) { assert ListOk(q, ls, x); }
    if !AnyBit(q'.bits, q'.active) {
      NoneLeft(q', ls);
    }
    hide ListOk, PlacedOk, AnyBit, Order;
  }

  lemma NoneLeft(q: Rq, ls: seq<seq<nat>>)
    requires Rep(q, ls) && !AnyBit(q.bits, q.active) && !AnyBit(q.bits, 1 - q.active)
    ensures Order(ls, q.active) == [] && q.place == map[]
  {
    hide Flat;
    BitsEmpty(q, ls, q.active);
    BitsEmpty(q, ls, 1 - q.active);
    forall x: nat | x < LISTS ensures ls[x] == [] {
      assert Base(q.active) <= x < Base(q.active) + LEVELS || Base(1 - q.active) <= x < Base(1 - q.active) + LEVELS;
    }
    FlatSkip(ls, Base(q.active), LEVELS, LEVELS);
    FlatNone(ls, Base(q.active) + LEVELS);
    FlatSkip(ls, Base(1 - q.active), LEVELS, LEVELS);
    FlatNone(ls, Base(1 - q.active) + LEVELS);
    forall t ensures t !in q.place {
      if t in q.place {
        InPlace(q, ls, t, q.place[t]);
      }
    }
    assert q.place.Keys == {};
  }

  /** The head of the lowest list is the first in the order. */
  lemma HeadIs(q: Rq, ls: seq<seq<nat>>, x: nat)
    requires Rep(q, ls) && Base(q.active) <= x < Base(q.active) + LEVELS && q.bits[x]
      && forall y | Base(q.active) <= y < x :: !q.bits[y]
    ensures ls[x] != [] && q.ends[x].head == Some(ls[x][0]) && ls[x][0] in q.place && q.place[ls[x][0]] == x
    ensures Order(ls, q.active) == [ls[x][0]] + Order(ls[x := Cut(ls[x], 0)], q.active)
  {
    assert ListOk(q, ls, x);
    InPlace(q, ls, ls[x][0], x);
    forall y: nat | Base(q.active) <= y < x ensures ls[y] == [] { assert ListOk(q, ls, y); }
    PopsFirst(ls, q.active, x);
    hide Order, Cut;
  }

  /** After a task is taken out no swap upsets the order of the rest. */
  lemma RestOrder(q: Rq, q': Rq, ls: seq<seq<nat>>, ls': seq<seq<nat>>, x: nat, now: nat)
    requires Rep(q, ls) && Rep(q', ls') && !Swaps(q, now) && q'.active == q.active && q'.since == q.since
    requires Base(q.active) <= x < Base(q.active) + LEVELS && forall y: nat | y < LISTS && y != x :: ls'[y] == ls[y]
    ensures Order(ls', Effective(q', now)) == Order(ls', q.active)
  {
    hide Order, Rep, AnyBit;
    SizesOf(q, ls);
    SizesOf(q', ls');
    BitsEmpty(q', ls', q.active);
    BitsEmpty(q, ls, 1 - q.active);
    BitsEmpty(q', ls', 1 - q.active);
    assert AnyBit(q'.bits, 1 - q.active) <==> AnyBit(q.bits, 1 - q.active);
    if Swaps(q', now) {
      SwapEmpty(ls', q.active);
    }
  }

  ghost function OrderAt(w: Queue, now: nat): seq<nat>
    requires w.Valid()
    reads w
  {
    Order(w.lists, Effective(w.q, now))
  }

  /** One turn of the loop of ready_pop: swap if it is time, and take out whoever is first. */
  method PopOne(w: Queue, now: nat) returns (t: Option<nat>)
    requires w.Valid() && w.q.since <= now
    modifies w
    ensures w.Valid() && w.q.since <= now
    ensures t.None? ==> old(OrderAt(w, now)) == [] && w.q.place == map[]
    ensures t.Some? ==> old(OrderAt(w, now)) == [t.value] + OrderAt(w, now)
    ensures t.Some? ==> t.value in old(w.q).place && w.q.place == old(w.q).place - {t.value}
    ensures AbsOf(w.q) == if t.Some? then Turn(old(AbsOf(w.q)), now, t.value) else SwappedAbs(old(AbsOf(w.q)), now)
  {
    hide Rep, Order, Flat, Effective, AnyBit, Swaps, Cut, SwapsAbs, Occupied;
    SizesOf(w.q, w.lists);
    SwapsIs(w.q, w.lists, now);
    Settle(w.q, w.lists, now);
    w.q := Swapped(w.q, now);
    if !AnyBit(w.q.bits, w.q.active) {
      return None;
    }
    var x := Lowest(w.q.bits, w.q.active);
    HeadIs(w.q, w.lists, x);
    var task := w.q.ends[x].head.value;
    ghost var q, ls := w.q, w.lists;
    w.Dequeue(task);
    SizesOf(w.q, w.lists);
    assert w.lists == ls[x := Cut(ls[x], 0)];
    RestOrder(q, w.q, ls, w.lists, x, now);
    return Some(task);
  }

  /** ready_pop among the tasks that are READY: the first of them in the order of the arrays, which have swapped first
      if it was time. Everyone before it was not READY and is out of the queue too. */
  method Pop(w: Queue, now: nat, ready: set<nat>) returns (t: Option<nat>, ghost dropped: seq<nat>)
    requires w.Valid() && w.q.since <= now
    modifies w
    ensures w.Valid() && (forall u | u in dropped :: u !in ready)
    ensures t.None? ==> old(OrderAt(w, now)) == dropped && w.q.place == map[]
    ensures t.Some? ==> t.value in ready && old(OrderAt(w, now)) == dropped + [t.value] + OrderAt(w, now)
    ensures Goes(old(AbsOf(w.q)), DoPop(now, if t.Some? then dropped + [t.value] else dropped, t.Some?), AbsOf(w.q))
  {
    hide Rep, OrderAt, Queue.Valid, Parts, Turn, Turns, SwappedAbs, Order, Flat, AbsOf;
    dropped := [];
    ghost var order, a := OrderAt(w, now), AbsOf(w.q);
    PartsStart(order, ready);
    assert Turns(a, now, []) == a by { NoTurns(a, now); }
    while true
      invariant w.Valid() && w.q.since <= now && Parts(order, dropped, OrderAt(w, now), ready)
        && AbsOf(w.q) == Turns(a, now, dropped)
      decreases |w.q.place|
    {
      ghost var place, rest := w.q.place, OrderAt(w, now);
      t := PopOne(w, now);
      if t.Some? { OneTurn(a, now, dropped, t.value); }
      if t.None? {
        PartsEnd(order, dropped, rest, ready);
        return;
      }
      Smaller(place, t.value);
      PartsStep(order, dropped, rest, t.value, OrderAt(w, now), ready);
      if t.value in ready {
        return;
      }
      dropped := dropped + [t.value];
    }
  }

  /** What was dropped and what is left are the whole order, and nobody dropped was READY. */
  ghost predicate Parts(order: seq<nat>, dropped: seq<nat>, rest: seq<nat>, ready: set<nat>) {
    order == dropped + rest && forall u | u in dropped :: u !in ready
  }

  lemma PartsStart(order: seq<nat>, ready: set<nat>)
    ensures Parts(order, [], order, ready)
  {
    assert [] + order == order;
  }

  lemma PartsEnd(order: seq<nat>, dropped: seq<nat>, rest: seq<nat>, ready: set<nat>)
    requires Parts(order, dropped, rest, ready) && rest == []
    ensures order == dropped && forall u | u in dropped :: u !in ready
  {
    assert dropped + [] == dropped;
  }

  lemma PartsStep(order: seq<nat>, dropped: seq<nat>, rest: seq<nat>, t: nat, rest': seq<nat>, ready: set<nat>)
    requires Parts(order, dropped, rest, ready) && rest == [t] + rest'
    ensures (forall u | u in dropped :: u !in ready) && order == dropped + [t] + rest'
    ensures t !in ready ==> Parts(order, dropped + [t], rest', ready)
  {
    assert dropped + ([t] + rest') == dropped + [t] + rest';
  }

  lemma SizesOf(q: Rq, ls: seq<seq<nat>>)
    requires Rep(q, ls)
    ensures |q.ends| == |q.bits| == |ls| == LISTS && q.active < 2
  {}

  lemma Smaller(place: map<nat, nat>, t: nat)
    requires t in place
    ensures |place - {t}| < |place|
  {
    assert (place - {t}).Keys == place.Keys - {t};
  }

  // ---------------------------------------------------------------- nobody starves in the expired array

  /** What the arrays are without their order: who is in which list, and the clock of the expired one. */
  datatype Abs = Abs(place: map<nat, nat>, active: nat, since: nat)

  function AbsOf(q: Rq): Abs { Abs(q.place, q.active, q.since) }

  predicate In(a: Abs, t: nat, arr: nat) { t in a.place && Base(arr) <= a.place[t] < Base(arr) + LEVELS }

  predicate Occupied(a: Abs, arr: nat) { exists t | t in a.place :: In(a, t, arr) }

  predicate SwapsAbs(a: Abs, now: nat) {
    !Occupied(a, a.active) || (a.active < 2 && Occupied(a, 1 - a.active) && now - a.since >= STARVE_TICKS)
  }

  function SwappedAbs(a: Abs, now: nat): Abs {
    if a.active < 2 && SwapsAbs(a, now) then a.(active := 1 - a.active, since := now) else a
  }

  /** One turn of the loop of ready_pop, which takes task t. */
  function Turn(a: Abs, now: nat, t: nat): Abs {
    Without(SwappedAbs(a, now), t)
  }

  function Without(a: Abs, t: nat): Abs { a.(place := a.place - {t}) }

  function Turns(a: Abs, now: nat, ts: seq<nat>): Abs
    decreases |ts|
  {
    if ts == [] then a else Turn(Turns(a, now, ts[..|ts| - 1]), now, ts[|ts| - 1])
  }

  lemma NoTurns(a: Abs, now: nat)
    ensures Turns(a, now, []) == a
  {}

  lemma OneTurn(a: Abs, now: nat, ts: seq<nat>, t: nat)
    ensures Turns(a, now, ts + [t]) == Turn(Turns(a, now, ts), now, t)
  {
    assert (ts + [t])[..|ts|] == ts;
  }

  lemma OccupiedIs(q: Rq, ls: seq<seq<nat>>, arr: nat)
    requires Rep(q, ls) && arr < 2
    ensures Occupied(AbsOf(q), arr) <==> AnyBit(q.bits, arr)
  {
    BitsEmpty(q, ls, arr);
    hide AnyBit;
    if Occupied(AbsOf(q), arr) {
      var t :| t in q.place && In(AbsOf(q), t, arr);
      InPlace(q, ls, t, q.place[t]);
    }
    if AnyBit(q.bits, arr) {
      var x :| Base(arr) <= x < Base(arr) + LEVELS && ls[x] != [];
      InPlace(q, ls, ls[x][0], x);
      assert In(AbsOf(q), ls[x][0], arr);
    }
    hide Rep;
  }

  lemma SwapsIs(q: Rq, ls: seq<seq<nat>>, now: nat)
    requires Rep(q, ls)
    ensures |q.bits| == LISTS && q.active < 2 && (Swaps(q, now) <==> SwapsAbs(AbsOf(q), now))
  {
    OccupiedIs(q, ls, q.active);
    OccupiedIs(q, ls, 1 - q.active);
    hide Rep, AnyBit, Occupied;
  }

  datatype Op =
    | DoEnqueue(task: nat, prio: nat, spent: bool, now: nat)
    | DoDequeue(task: nat, now: nat)
    | DoPop(now: nat, taken: seq<nat>, found: bool)

  function Entered(a: Abs, t: nat, prio: nat, spent: bool, now: nat): Abs
    requires a.active < 2
  {
    Abs(a.place[t := Base(if spent then 1 - a.active else a.active) + prio], a.active,
        if spent && !Occupied(a, 1 - a.active) then now else a.since)
  }

  /** What each call does to the arrays; a pop that finds nobody looks, and swaps, once more. */
  predicate Goes(a: Abs, op: Op, b: Abs) {
    match op
    case DoEnqueue(t, prio, spent, now) =>
      b == if t in a.place || a.active >= 2 then a else Entered(a, t, prio, spent, now)
    case DoDequeue(t, _) => b == Without(a, t)
    case DoPop(now, taken, found) => b == if found then Turns(a, now, taken) else SwappedAbs(Turns(a, now, taken), now)
  }

  /** Task t is in the expired array. */
  predicate Expired(a: Abs, t: nat) { a.active < 2 && In(a, t, 1 - a.active) }

  /** It is, and the clock has been running since tick at, or longer. */
  predicate Waits(a: Abs, t: nat, at: nat) { Expired(a, t) && a.since <= at }

  /** Without a swap nothing puts the clock back while somebody waits. */
  lemma TurnWaits(a: Abs, t: nat, at: nat, now: nat, u: nat)
    requires a.active < 2 && a.since <= now
    ensures Turn(a, now, u).active < 2 && Turn(a, now, u).since <= now
    ensures Waits(a, t, at) && Expired(Turn(a, now, u), t) ==> Waits(Turn(a, now, u), t, at)
    ensures !Expired(a, t) && Expired(Turn(a, now, u), t) ==> Turn(a, now, u).since == now
  {
    hide Occupied;
  }

  lemma SwapWaits(a: Abs, t: nat, at: nat, now: nat)
    requires a.active < 2 && a.since <= now
    ensures SwappedAbs(a, now).active < 2 && SwappedAbs(a, now).since <= now
    ensures Waits(a, t, at) && Expired(SwappedAbs(a, now), t) ==> Waits(SwappedAbs(a, now), t, at)
    ensures !Expired(a, t) && Expired(SwappedAbs(a, now), t) ==> SwappedAbs(a, now).since == now
  {
    hide Occupied;
  }

  /** In the active array, with the clock just set: it stays there until it is taken. */
  predicate Active(a: Abs, t: nat, now: nat) {
    a.active < 2 && (t !in a.place || (In(a, t, a.active) && a.since == now))
  }

  lemma ActiveStays(a: Abs, t: nat, now: nat)
    requires Active(a, t, now)
    ensures Active(SwappedAbs(a, now), t, now)
    ensures forall u :: Active(Turn(a, now, u), t, now)
  {}

  lemma {:induction false} TurnsWait(a: Abs, t: nat, at: nat, now: nat, ts: seq<nat>)
    requires a.active < 2 && a.since <= now && Waits(a, t, at)
    ensures var b := Turns(a, now, ts); b.active < 2 && b.since <= now && (Waits(b, t, at) || Active(b, t, now))
    decreases |ts|
  {
    if ts != [] {
      var b, u := Turns(a, now, ts[..|ts| - 1]), ts[|ts| - 1];
      TurnsWait(a, t, at, now, ts[..|ts| - 1]);
      TurnWaits(b, t, at, now, u);
      if Active(b, t, now) { ActiveStays(b, t, now); } else { TurnLeaves(b, t, at, now, u); }
    }
    hide Turn, Waits, Active;
  }

  lemma TurnLeaves(a: Abs, t: nat, at: nat, now: nat, u: nat)
    requires Waits(a, t, at) && a.since <= now
    ensures Waits(Turn(a, now, u), t, at) || Active(Turn(a, now, u), t, now)
    ensures Waits(SwappedAbs(a, now), t, at) || Active(SwappedAbs(a, now), t, now)
  {
    hide SwapsAbs;
  }

  /** Whoever was not in the expired array and is now came there at this tick. */
  lemma {:induction false} TurnsEnter(a: Abs, t: nat, now: nat, ts: seq<nat>)
    requires a.active < 2 && a.since <= now
    ensures var b := Turns(a, now, ts);
      b.active < 2 && b.since <= now && (!Expired(a, t) && Expired(b, t) ==> b.since == now)
    decreases |ts|
  {
    if ts != [] {
      TurnsEnter(a, t, now, ts[..|ts| - 1]);
      TurnWaits(Turns(a, now, ts[..|ts| - 1]), t, 0, now, ts[|ts| - 1]);
    }
    hide Turn, Expired;
  }

  /** One call: whoever waits goes on waiting or has left the array, and whoever came into it waits from now on. */
  lemma GoesWaits(a: Abs, op: Op, b: Abs, t: nat, at: nat)
    requires a.active < 2 && a.since <= op.now && Goes(a, op, b)
    ensures b.active < 2 && b.since <= op.now
    ensures Waits(a, t, at) && Expired(b, t) ==> Waits(b, t, at)
    ensures !Expired(a, t) && Expired(b, t) ==> Waits(b, t, op.now)
  {
    match op
    case DoEnqueue(u, prio, spent, now) =>
      if Expired(a, t) { assert Occupied(a, 1 - a.active); }
    case DoDequeue(u, _) =>
    case DoPop(now, taken, found) =>
      hide Turns, SwapsAbs;
      var c := Turns(a, now, taken);
      TurnsEnter(a, t, now, taken);
      SwapWaits(c, t, at, now);
      if Waits(a, t, at) {
        TurnsWait(a, t, at, now, taken);
        if Active(c, t, now) { ActiveStays(c, t, now); } else { TurnLeaves(c, t, at, now, 0); }
      }
  }

  /** A run of calls at times that do not go back. */
  ghost predicate Run(xs: seq<Abs>, ops: seq<Op>) {
    && |xs| == |ops| + 1 && xs[0].active < 2
    && (forall i | 0 <= i < |ops| :: Goes(xs[i], ops[i], xs[i + 1]))
    && (forall i, j | 0 <= i <= j < |ops| :: ops[i].now <= ops[j].now)
    && (ops != [] ==> xs[0].since <= ops[0].now)
  }

  lemma {:induction false} RunClock(xs: seq<Abs>, ops: seq<Op>, n: nat)
    requires Run(xs, ops) && n <= |ops|
    ensures xs[n].active < 2 && forall j | n <= j < |ops| :: xs[n].since <= ops[j].now
  {
    if n > 0 {
      RunClock(xs, ops, n - 1);
      assert Goes(xs[n - 1], ops[n - 1], xs[n - 1 + 1]);
      GoesWaits(xs[n - 1], ops[n - 1], xs[n], 0, 0);
      hide Goes;
    }
  }

  lemma {:induction false} StillWaits(xs: seq<Abs>, ops: seq<Op>, t: nat, i: nat, n: nat)
    requires Run(xs, ops) && i < n <= |ops|
    requires !Expired(xs[i], t) && forall j | i < j <= n :: Expired(xs[j], t)
    ensures Waits(xs[n], t, ops[i].now)
    decreases n
  {
    hide Goes, Waits, Expired;
    RunClock(xs, ops, n - 1);
    assert Goes(xs[n - 1], ops[n - 1], xs[n - 1 + 1]);
    GoesWaits(xs[n - 1], ops[n - 1], xs[n], t, ops[i].now);
    if i < n - 1 {
      StillWaits(xs, ops, t, i, n - 1);
    }
  }

  /** Over every run of enqueues, dequeues and pops: a pop that comes STARVE_TICKS or more after a task came into the
      expired array, be it by an enqueue or by a swap, and finds it still there swaps the arrays before anything else,
      and takes from the task's array first. */
  lemma NobodyStarves(xs: seq<Abs>, ops: seq<Op>, t: nat, i: nat, n: nat)
    requires Run(xs, ops) && i < n < |ops| && ops[n].DoPop? && ops[n].now >= ops[i].now + STARVE_TICKS
    requires !Expired(xs[i], t) && forall j | i < j <= n :: Expired(xs[j], t)
    ensures SwapsAbs(xs[n], ops[n].now)
    ensures In(xs[n], t, SwappedAbs(xs[n], ops[n].now).active)
  {
    StillWaits(xs, ops, t, i, n);
    assert Occupied(xs[n], 1 - xs[n].active);
    hide Goes, Turns;
  }
}
