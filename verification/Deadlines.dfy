/** Waits with a deadline (kernel/src/sched/sched_wait.c): a sorted list that the timer tick looks at as rarely as it
    can, and still wakes everyone in time. */
module Deadlines {
  import opened Collections
  import opened DList

  const NEVER: nat := 0xFFFF_FFFF_FFFF_FFFF

  datatype Entry = Entry(task: nat, deadline: nat)

  predicate Sorted(l: seq<Entry>) { forall i, j | 0 <= i < j < |l| :: l[i].deadline <= l[j].deadline }

  /** Each task is in the list at most once: deadline_queued. */
  predicate Once(l: seq<Entry>) { forall i, j | 0 <= i < j < |l| :: l[i].task != l[j].task }

  predicate Queued(l: seq<Entry>, task: nat) { exists i :: 0 <= i < |l| && l[i].task == task }

  /** event_ticks_for, with perMs clock counts to a millisecond: half the time left, in ticks. */
  function TicksFor(left: nat, perMs: nat): (r: nat)
    requires perMs > 0
    ensures r >= 1
  {
    var ms := left / perMs;
    if ms / 2 > 0 then ms / 2 else 1
  }

  /** Half the time left is early enough, even if ticks take two milliseconds: at no tick before the one chosen will
      the time be up. */
  lemma EarlyEnough(left: nat, perMs: nat)
    requires perMs > 0
    ensures TicksFor(left, perMs) == 1 || 2 * perMs * (TicksFor(left, perMs) - 1) < left
  {
    var ms := left / perMs;
    Whole(left, perMs);
    if ms / 2 > 0 {
      Halved(ms / 2, ms, perMs);
    }
  }

  lemma Whole(left: nat, perMs: nat)
    requires perMs > 0
    ensures left / perMs * perMs <= left
  {}

  lemma Halved(h: nat, ms: nat, perMs: nat)
    requires 2 * h <= ms && perMs > 0
    ensures 2 * perMs * (h - 1) < ms * perMs
  {
    Scale(2 * h, ms, perMs);
    assert 2 * perMs * (h - 1) == 2 * h * perMs - 2 * perMs;
  }

  lemma Scale(a: int, b: int, c: nat)
    requires a <= b
    ensures a * c <= b * c
  {}

  function Inserted(l: seq<Entry>, e: Entry): (r: seq<Entry>)
    ensures |r| == |l| + 1
  {
    if l == [] || e.deadline < l[0].deadline then [e] + l else [l[0]] + Inserted(l[1..], e)
  }

  /** In its place, after everyone with the same deadline. */
  lemma {:induction false} InsertedIs(l: seq<Entry>, e: Entry)
    requires Sorted(l)
    ensures Sorted(Inserted(l, e)) && multiset(Inserted(l, e)) == multiset(l) + multiset{e}
    ensures forall x :: x in Inserted(l, e) <==> x in l || x == e
    ensures e.deadline >= (if l == [] then 0 else l[0].deadline) || Inserted(l, e)[0] == e
  {
    if l != [] && e.deadline >= l[0].deadline {
      InsertedIs(l[1..], e);
      assert l == [l[0]] + l[1..];
      forall i, j | 0 <= i < j < |Inserted(l, e)| ensures Inserted(l, e)[i].deadline <= Inserted(l, e)[j].deadline {
        if i == 0 {
          assert Inserted(l, e)[j] in Inserted(l[1..], e);
        }
      }
    } else {
      assert Inserted(l, e) == [e] + l;
    }
  }

  function Removed(l: seq<Entry>, task: nat): (r: seq<Entry>) {
    if l == [] then [] else if l[0].task == task then l[1..] else [l[0]] + Removed(l[1..], task)
  }

  lemma {:induction false} RemovedIn(l: seq<Entry>, task: nat, x: Entry)
    requires Once(l)
    ensures x in Removed(l, task) <==> x in l && x.task != task
  {
    if l != [] {
      assert l == [l[0]] + l[1..];
      RemovedIn(l[1..], task, x);
      if l[0].task == task && x in l[1..] {
        var i :| 0 <= i < |l| - 1 && l[1..][i] == x;
        assert l[i + 1] == x;
      }
    }
  }

  lemma {:induction false} RemovedIs(l: seq<Entry>, task: nat)
    requires Sorted(l) && Once(l)
    ensures Sorted(Removed(l, task)) && Once(Removed(l, task))
  {
    if l != [] && l[0].task != task {
      RemovedIs(l[1..], task);
      var r := Removed(l[1..], task);
      forall j | 0 <= j < |r| ensures l[0].deadline <= r[j].deadline && l[0].task != r[j].task {
        RemovedIn(l[1..], task, r[j]);
        var i :| 0 <= i < |l| - 1 && l[1..][i] == r[j];
        assert l[i + 1] == r[j];
      }
    }
  }

  /** Everyone whose time is up, and the rest. */
  function Expired(l: seq<Entry>, now: nat): nat
    ensures Expired(l, now) <= |l|
  {
    if l == [] || now < l[0].deadline then 0 else 1 + Expired(l[1..], now)
  }

  lemma {:induction false} ExpiredIs(l: seq<Entry>, now: nat)
    requires Sorted(l)
    ensures forall i | 0 <= i < |l| :: l[i].deadline <= now <==> i < Expired(l, now)
  {
    if l != [] && now >= l[0].deadline {
      ExpiredIs(l[1..], now);
      assert forall i | 0 < i < |l| :: l[i] == l[1..][i - 1];
    }
  }

  // ---------------------------------------------------------------- the links

  function Tasks(l: seq<Entry>): (r: seq<nat>)
    ensures |r| == |l|
  {
    seq(|l|, i requires 0 <= i < |l| => l[i].task)
  }

  /** deadline_prev and deadline_next, both ways, and deadline_head. */
  ghost predicate Links(nodes: Nodes, head: Option<nat>, ts: seq<nat>) {
    IsList(nodes, EndsOf(ts), ts) && head == HeadOf(ts)
  }

  /** Exactly those in the list have deadline_queued set, and their event_deadline is the one in the list. */
  ghost predicate DueOk(due: map<nat, nat>, l: seq<Entry>) {
    && (forall i | 0 <= i < |l| :: l[i].task in due && due[l[i].task] == l[i].deadline)
    && (forall t | t in due :: t in Tasks(l))
  }

  ghost predicate Rep(nodes: Nodes, head: Option<nat>, due: map<nat, nat>, l: seq<Entry>) {
    Links(nodes, head, Tasks(l)) && DueOk(due, l)
  }

  lemma OnceNoDup(l: seq<Entry>)
    requires NoDup(Tasks(l))
    ensures Once(l)
  {
    forall i, j | 0 <= i < j < |l| ensures l[i].task != l[j].task { assert Tasks(l)[i] != Tasks(l)[j]; }
  }

  /** How many come before e. */
  function Place(l: seq<Entry>, e: Entry): (k: nat)
    ensures k <= |l|
  {
    if l == [] || e.deadline < l[0].deadline then 0 else 1 + Place(l[1..], e)
  }

  lemma {:induction false} InsertedAt(l: seq<Entry>, e: Entry)
    ensures Inserted(l, e) == l[..Place(l, e)] + [e] + l[Place(l, e)..]
  {
    if l != [] && e.deadline >= l[0].deadline {
      InsertedAt(l[1..], e);
      var k := Place(l[1..], e);
      assert [l[0]] + (l[1..][..k] + [e] + l[1..][k..]) == l[..k + 1] + [e] + l[k + 1..];
    } else {
      assert l[..0] + [e] + l[0..] == [e] + l;
    }
  }

  lemma {:induction false} PlaceFrom(l: seq<Entry>, e: Entry, k: nat)
    requires k <= |l| && (forall i | 0 <= i < k :: l[i].deadline <= e.deadline)
    ensures Place(l, e) == k + Place(l[k..], e)
    decreases k
  {
    if k > 0 {
      assert l[1..][k - 1..] == l[k..];
      PlaceFrom(l[1..], e, k - 1);
    } else {
      assert l[0..] == l;
    }
  }

  /** Linked in where it belongs. */
  lemma InsertKept(nodes: Nodes, head: Option<nat>, due: map<nat, nat>, l: seq<Entry>, e: Entry, k: nat)
    requires Rep(nodes, head, due, l) && e.task !in due && k == Place(l, e)
    ensures var prev, next := Before(Tasks(l), k), From(Tasks(l), k);
      && (prev.Some? ==> prev.value in nodes) && (next.Some? ==> next.value in nodes)
      && Rep(Between(nodes, prev, next, e.task), if prev.Some? then head else Some(e.task), due[e.task := e.deadline],
             Inserted(l, e))
  {
    InsertedAt(l, e);
    TasksSpliced(l, e, k);
    AbsentTask(due, l, e.task);
    InsertLinks(nodes, head, Tasks(l), k, e.task);
    InsertDue(due, l, e, k);
    hide Links, DueOk, Between, Place, Inserted, Spliced, Tasks;
  }

  lemma AbsentTask(due: map<nat, nat>, l: seq<Entry>, task: nat)
    requires DueOk(due, l) && task !in due
    ensures task !in Tasks(l)
  {}

  lemma TasksSpliced(l: seq<Entry>, e: Entry, k: nat)
    requires k <= |l|
    ensures Tasks(l[..k] + [e] + l[k..]) == Spliced(Tasks(l), k, e.task)
  {}

  lemma InsertLinks(nodes: Nodes, head: Option<nat>, ts: seq<nat>, k: nat, t: nat)
    requires Links(nodes, head, ts) && k <= |ts| && t !in ts
    ensures var prev, next := Before(ts, k), From(ts, k);
      && (prev.Some? ==> prev.value in nodes) && (next.Some? ==> next.value in nodes)
      && Links(Between(nodes, prev, next, t), if prev.Some? then head else Some(t), Spliced(ts, k, t))
  {
    GapThere(nodes, ts, k);
    BetweenIs(nodes, ts, k, t);
    SplicedAt(ts, k, t, 0);
    hide IsList, Between, Spliced;
  }

  lemma InsertDue(due: map<nat, nat>, l: seq<Entry>, e: Entry, k: nat)
    requires DueOk(due, l) && e.task !in due && k <= |l|
    ensures DueOk(due[e.task := e.deadline], l[..k] + [e] + l[k..])
  {
    var l' := l[..k] + [e] + l[k..];
    var due' := due[e.task := e.deadline];
    forall i | 0 <= i < |l'| ensures l'[i].task in due' && due'[l'[i].task] == l'[i].deadline {
      if i != k {
        assert l'[i] == l[if i < k then i else i - 1];
      }
    }
    forall t | t in due' ensures t in Tasks(l') {
      if t == e.task {
        assert Tasks(l')[k] == t;
      } else {
        var j :| 0 <= j < |l| && Tasks(l)[j] == t;
        assert Tasks(l')[if j < k then j else j + 1] == t;
      }
    }
  }

  lemma {:induction false} RemovedAt(l: seq<Entry>, k: nat)
    requires k < |l| && Once(l)
    ensures Removed(l, l[k].task) == l[..k] + l[k + 1..]
    decreases k
  {
    if k > 0 {
      assert l[0].task != l[k].task;
      RemovedAt(l[1..], k - 1);
      assert [l[0]] + (l[1..][..k - 1] + l[1..][k..]) == l[..k] + l[k + 1..];
    } else {
      assert l[..0] + l[1..] == l[1..];
    }
  }

  /** Taken out, from wherever it is. */
  lemma RemoveKept(nodes: Nodes, head: Option<nat>, due: map<nat, nat>, l: seq<Entry>, k: nat)
    requires Rep(nodes, head, due, l) && k < |l|
    ensures var t := l[k].task;
      && Joined(nodes, t) && t in due
      && Rep(Unlinked(nodes, t), if nodes[t].prev.Some? then head else nodes[t].next, due - {t}, Removed(l, t))
  {
    LinksOnce(nodes, head, l);
    RemovedAt(l, k);
    TasksCut(l, k);
    RemoveLinks(nodes, head, Tasks(l), k);
    RemoveDue(due, l, k);
    hide Links, DueOk, Unlinked, Removed, Cut, Tasks, Once;
  }

  lemma LinksOnce(nodes: Nodes, head: Option<nat>, l: seq<Entry>)
    requires Links(nodes, head, Tasks(l))
    ensures Once(l) && NoDup(Tasks(l))
  {
    OnceNoDup(l);
  }

  lemma TasksCut(l: seq<Entry>, k: nat)
    requires k < |l|
    ensures Tasks(l[..k] + l[k + 1..]) == Cut(Tasks(l), k) && Tasks(l)[k] == l[k].task
  {}

  lemma RemoveLinks(nodes: Nodes, head: Option<nat>, ts: seq<nat>, k: nat)
    requires Links(nodes, head, ts) && k < |ts|
    ensures Joined(nodes, ts[k])
    ensures Links(Unlinked(nodes, ts[k]), if nodes[ts[k]].prev.Some? then head else nodes[ts[k]].next, Cut(ts, k))
  {
    NeighboursThere(nodes, ts, k);
    UnlinkedIs(nodes, EndsOf(ts), ts, k);
    CutEnds(ts, k);
    hide Threaded, NoDup, Unlinked, Cut;
  }

  lemma RemoveDue(due: map<nat, nat>, l: seq<Entry>, k: nat)
    requires k < |l| && Once(l) && DueOk(due, l)
    ensures l[k].task in due && DueOk(due - {l[k].task}, l[..k] + l[k + 1..])
  {
    var l' := l[..k] + l[k + 1..];
    var due' := due - {l[k].task};
    forall i | 0 <= i < |l'| ensures l'[i].task in due' && due'[l'[i].task] == l'[i].deadline {
      var j := if i < k then i else i + 1;
      assert l'[i] == l[j] && l[j].task != l[k].task;
    }
    forall t | t in due' ensures t in Tasks(l') {
      var j :| 0 <= j < |l| && Tasks(l)[j] == t;
      assert Tasks(l')[if j < k then j else j - 1] == t;
    }
  }

  class Waits {
    var nodes: Nodes             // deadline_prev, deadline_next
    var head: Option<nat>        // deadline_head
    var due: map<nat, nat>       // event_deadline, of those with deadline_queued set
    var check: nat               // event_check_tick
    const perMs: nat
    ghost var list: seq<Entry>

    ghost predicate Valid()
      reads this
    {
      Rep(nodes, head, due, list) && Sorted(list) && Once(list) && perMs > 0
    }

    /** The walk of deadline_insert: past everyone whose deadline is no later. */
    method Walk(e: Entry) returns (prev: Option<nat>, cur: Option<nat>, ghost k: nat)
      requires Valid()
      ensures k == Place(list, e)
      ensures prev == Before(Tasks(list), Place(list, e)) && cur == From(Tasks(list), Place(list, e))
    {
      hide Rep, Sorted, Once, Tasks, Place;
      prev, cur, k := None, head, 0;
      At(nodes, head, due, list, 0);
      while cur.Some? && due[cur.value] <= e.deadline
        invariant k <= |list| && prev == Before(Tasks(list), k) && cur == From(Tasks(list), k)
        invariant forall i | 0 <= i < k :: list[i].deadline <= e.deadline
        invariant cur.Some? ==> cur.value in due && due[cur.value] == list[k].deadline && cur.value in nodes
        decreases |list| - k
      {
        At(nodes, head, due, list, k);
        At(nodes, head, due, list, k + 1);
        prev, cur := cur, nodes[cur.value].next;
        k := k + 1;
      }
      PlaceHere(list, e, k);
    }

    /** deadline_insert */
    method Insert(e: Entry)
      requires Valid() && e.task !in due
      modifies this`nodes, this`head, this`due, this`list
      ensures Valid() && list == Inserted(old(list), e)
    {
      hide Rep, Inserted, Between, Sorted, Once, Tasks, Place;
      var prev, cur, k := Walk(e);
      InsertKept(nodes, head, due, list, e, k);
      InsertedIs(list, e);
      nodes := Between(nodes, prev, cur, e.task);
      if prev.None? {
        head := Some(e.task);
      }
      due := due[e.task := e.deadline];
      list := Inserted(list, e);
      RepOnce(nodes, head, due, list);
    }

    /** deadline_remove: nothing, unless it is queued. */
    method Remove(task: nat)
      requires Valid()
      modifies this`nodes, this`head, this`due, this`list
      ensures Valid() && list == Removed(old(list), task) && due == old(due) - {task}
    {
      hide Rep, Removed, Unlinked, Sorted, Once, Tasks;
      RemovedIs(list, task);
      if task !in due {
        NotThere(nodes, head, due, list, task);
        assert due - {task} == due;
        return;
      }
      ghost var k := Index(nodes, head, due, list, task);
      RemoveKept(nodes, head, due, list, k);
      if nodes[task].prev.None? {
        head := nodes[task].next;
      }
      nodes := Unlinked(nodes, task);
      due := due - {task};
      list := Removed(list, task);
    }

    /** The part of sched_prepare_wait that is about the deadline, zero being none. */
    method Prepare(task: nat, deadline: nat, tick: nat, now: nat)
      requires Valid() && task !in due
      modifies this
      ensures Valid()
      ensures deadline == 0 ==> list == old(list) && check == old(check)
      ensures deadline != 0 ==> list == Inserted(old(list), Entry(task, deadline))
      ensures deadline != 0 ==> check == Prepared(old(check), deadline, tick, now, perMs)
    {
      if deadline == 0 {
        return;
      }
      Insert(Entry(task, deadline));
      var at := tick + TicksFor(if deadline > now then deadline - now else 0, perMs);
      if at < check {
        check := at;
      }
    }

    /** sched_event_tick: looks only when it is time to, and then wakes exactly those whose deadline has come. */
    method EventTick(tick: nat, now: nat) returns (woken: seq<nat>)
      requires Valid()
      modifies this
      ensures Valid()
      ensures tick < old(check) ==> list == old(list) && check == old(check) && woken == []
      ensures tick >= old(check) ==> woken == Tasks(old(list))[..Expired(old(list), now)]
      ensures tick >= old(check) ==>
        list == old(list)[Expired(old(list), now)..] && check == NextCheck(list, tick, now, perMs)
    {
      hide Rep, Sorted, Once, Tasks, Expired, TicksFor;
      woken := [];
      if tick < check {
        return;
      }
      woken := WakeExpired(now);
      At(nodes, head, due, list, 0);
      check := if head.Some? then tick + TicksFor(due[head.value] - now, perMs) else NEVER;
    }

    /** The loop of sched_event_tick. */
    method WakeExpired(now: nat) returns (woken: seq<nat>)
      requires Valid()
      modifies this`nodes, this`head, this`due, this`list
      ensures Valid() && woken == Tasks(old(list))[..Expired(old(list), now)]
      ensures list == old(list)[Expired(old(list), now)..] && (list != [] ==> now < list[0].deadline)
    {
      hide Rep, Sorted, Once, Tasks, Removed, Expired;
      ghost var l := list;
      woken := [];
      WokenStart(l, now);
      At(nodes, head, due, list, 0);
      while head.Some? && now >= due[head.value]
        invariant Valid() && Woken(l, woken, list, now)
        invariant (head.Some? <==> list != []) && (head.Some? ==> head.value in due && head.value == list[0].task)
        invariant head.Some? ==> due[head.value] == list[0].deadline
        decreases |list|
      {
        WokenNext(l, woken, list, now);
        woken := woken + [head.value];
        Remove(head.value);
        At(nodes, head, due, list, 0);
      }
      WokenAll(l, woken, list, now);
    }
  }

  /** Those in front have been woken, and it goes on with the rest. */
  ghost predicate Woken(l: seq<Entry>, woken: seq<nat>, rest: seq<Entry>, now: nat) {
    && |woken| <= |l| && woken == Tasks(l)[..|woken|] && rest == l[|woken|..]
    && Expired(l, now) == |woken| + Expired(rest, now)
  }

  lemma RepOnce(nodes: Nodes, head: Option<nat>, due: map<nat, nat>, l: seq<Entry>)
    requires Rep(nodes, head, due, l)
    ensures Once(l)
  {
    OnceNoDup(l);
  }

  /** What a pointer to the k-th of the list leads to. */
  lemma At(nodes: Nodes, head: Option<nat>, due: map<nat, nat>, l: seq<Entry>, k: nat)
    requires Rep(nodes, head, due, l) && k <= |l|
    ensures k == 0 ==> head == From(Tasks(l), 0) && Before(Tasks(l), 0) == None
    ensures k > 0 ==> Before(Tasks(l), k) == Some(l[k - 1].task)
    ensures k < |l| ==> From(Tasks(l), k) == Some(l[k].task) && l[k].task in due && due[l[k].task] == l[k].deadline
    ensures k < |l| ==> l[k].task in nodes && nodes[l[k].task].next == From(Tasks(l), k + 1)
    ensures k == |l| ==> From(Tasks(l), k) == None
  {
    if k < |l| {
      NeighboursThere(nodes, Tasks(l), k);
    }
  }

  lemma PlaceHere(l: seq<Entry>, e: Entry, k: nat)
    requires k <= |l| && (forall i | 0 <= i < k :: l[i].deadline <= e.deadline)
      && (k < |l| ==> e.deadline < l[k].deadline)
    ensures Place(l, e) == k
  {
    PlaceFrom(l, e, k);
  }

  lemma Index(nodes: Nodes, head: Option<nat>, due: map<nat, nat>, l: seq<Entry>, task: nat) returns (k: nat)
    requires Rep(nodes, head, due, l) && task in due
    ensures k < |l| && l[k].task == task
  {
    k :| 0 <= k < |Tasks(l)| && Tasks(l)[k] == task;
  }

  lemma WokenStart(l: seq<Entry>, now: nat)
    ensures Woken(l, [], l, now)
  {
    assert Tasks(l)[..0] == [] && l[0..] == l;
  }

  lemma WokenNext(l: seq<Entry>, woken: seq<nat>, rest: seq<Entry>, now: nat)
    requires Woken(l, woken, rest, now) && rest != [] && now >= rest[0].deadline
    ensures Removed(rest, rest[0].task) == rest[1..] && Woken(l, woken + [rest[0].task], rest[1..], now)
  {
    var i := |woken|;
    assert Tasks(l)[..i] + [l[i].task] == Tasks(l)[..i + 1] && l[i..][1..] == l[i + 1..];
    hide Tasks;
  }

  lemma WokenAll(l: seq<Entry>, woken: seq<nat>, rest: seq<Entry>, now: nat)
    requires Woken(l, woken, rest, now) && (rest != [] ==> now < rest[0].deadline)
    ensures woken == Tasks(l)[..Expired(l, now)] && rest == l[Expired(l, now)..]
  {}

  lemma {:induction false} NotQueued(l: seq<Entry>, task: nat)
    requires forall i | 0 <= i < |l| :: l[i].task != task
    ensures Removed(l, task) == l
  {
    if l != [] {
      NotQueued(l[1..], task);
    }
  }

  lemma NotThere(nodes: Nodes, head: Option<nat>, due: map<nat, nat>, l: seq<Entry>, task: nat)
    requires Rep(nodes, head, due, l) && task !in due
    ensures Removed(l, task) == l
  {
    NotQueued(l, task);
  }

  lemma OnceInserted(l: seq<Entry>, e: Entry)
    requires Once(l) && !Queued(l, e.task)
    ensures Once(Inserted(l, e))
    ensures forall x :: x in Inserted(l, e) <==> x in l || x == e
    decreases |l|
  {
    if l != [] && e.deadline >= l[0].deadline {
      assert l == [l[0]] + l[1..];
      forall i | 0 <= i < |l| - 1 ensures l[1..][i].task != e.task { assert l[1..][i] == l[i + 1]; }
      OnceInserted(l[1..], e);
      var r := Inserted(l[1..], e);
      forall j | 0 <= j < |r| ensures r[j].task != l[0].task {
        assert r[j] in r;
        if r[j] != e {
          var i :| 0 <= i < |l| - 1 && l[1..][i] == r[j];
          assert l[i + 1].task != l[0].task;
        }
      }
    } else {
      assert Inserted(l, e) == [e] + l;
      forall j | 0 <= j < |l| ensures l[j].task != e.task {}
    }
  }

  function Prepared(check: nat, deadline: nat, tick: nat, now: nat, perMs: nat): nat
    requires perMs > 0
  {
    var at := tick + TicksFor(if deadline > now then deadline - now else 0, perMs);
    if at < check then at else check
  }

  function NextCheck(l: seq<Entry>, tick: nat, now: nat, perMs: nat): nat
    requires perMs > 0
  {
    if l != [] then tick + TicksFor(if l[0].deadline > now then l[0].deadline - now else 0, perMs) else NEVER
  }

  // ---------------------------------------------------------------- runs

  /** The waits, the tick counter, and the clock now and when the last tick came. */
  datatype World = World(list: seq<Entry>, check: nat, tick: nat, last: nat, now: nat)

  datatype Op =
    | Wait(task: nat, deadline: nat)    // sched_prepare_wait
    | Finish(task: nat)                 // sched_finish_wait, whoever woke it
    | Pass(counts: nat)                 // time passes
    | Tick(counts: nat)                 // time passes, then the timer interrupt comes

  /** Ticks are at most two milliseconds apart. */
  predicate Allowed(w: World, op: Op, perMs: nat) {
    match op
    case Wait(task, _) => !Queued(w.list, task)
    case Finish(_) => true
    case Pass(d) => w.now + d - w.last <= 2 * perMs
    case Tick(d) => w.now + d - w.last <= 2 * perMs
  }

  function Ticked(w: World, perMs: nat): World
    requires perMs > 0
  {
    if w.tick < w.check then w
    else
      var list := w.list[Expired(w.list, w.now)..];
      w.(list := list, check := NextCheck(list, w.tick, w.now, perMs))
  }

  function Do(w: World, op: Op, perMs: nat): World
    requires perMs > 0
  {
    match op
    case Wait(task, deadline) =>
      w.(list := Inserted(w.list, Entry(task, deadline)), check := Prepared(w.check, deadline, w.tick, w.now, perMs))
    case Finish(task) => w.(list := Removed(w.list, task))
    case Pass(d) => w.(now := w.now + d)
    case Tick(d) => Ticked(w.(now := w.now + d, last := w.now + d, tick := w.tick + 1), perMs)
  }

  /** Whatever happens, at no tick before the next look will e's time be up. */
  predicate Safe(w: World, e: Entry, perMs: nat) {
    w.check <= w.tick + 1 || w.last + 2 * perMs * (w.check - 1 - w.tick) < e.deadline
  }

  predicate Inv(w: World, perMs: nat) {
    && perMs > 0 && Sorted(w.list) && Once(w.list) && w.last <= w.now <= w.last + 2 * perMs
    && forall e | e in w.list :: Safe(w, e, perMs)
  }

  lemma WaitKept(w: World, task: nat, deadline: nat, perMs: nat)
    requires Inv(w, perMs) && !Queued(w.list, task)
    ensures Inv(Do(w, Wait(task, deadline), perMs), perMs)
  {
    var e := Entry(task, deadline);
    var w' := Do(w, Wait(task, deadline), perMs);
    InsertedIs(w.list, e);
    OnceInserted(w.list, e);
    EarlyEnough(if deadline > w.now then deadline - w.now else 0, perMs);
    forall x | x in w'.list ensures Safe(w', x, perMs) {
      if x in w.list {
        SaferSooner(w, w', x, perMs);
      } else {
        var c := TicksFor(if deadline > w.now then deadline - w.now else 0, perMs);
        assert w'.check <= w.tick + c;
        Scale(w'.check - 1 - w.tick, c - 1, 2 * perMs);
      }
    }
  }

  /** An earlier look is as safe. */
  lemma SaferSooner(w: World, w': World, e: Entry, perMs: nat)
    requires Safe(w, e, perMs) && w'.check <= w.check && w'.tick == w.tick && w'.last == w.last
    ensures Safe(w', e, perMs)
  {
    Scale(w'.check - 1 - w.tick, w.check - 1 - w.tick, 2 * perMs);
  }

  /** After a tick nobody whose deadline has come is still in the list, whether the tick looked or not. */
  lemma TickKept(w: World, d: nat, perMs: nat)
    requires Inv(w, perMs) && Allowed(w, Tick(d), perMs)
    ensures Inv(Do(w, Tick(d), perMs), perMs)
    ensures forall e | e in Do(w, Tick(d), perMs).list :: e.deadline > w.now + d
  {
    var t := w.(now := w.now + d, last := w.now + d, tick := w.tick + 1);
    if t.tick < t.check {
      forall e | e in w.list ensures Safe(t, e, perMs) && e.deadline > t.now {
        assert Safe(w, e, perMs);
        Skipped(w, t, e, perMs);
      }
    } else {
      Looked(t, perMs);
    }
    hide Safe, Expired, Sorted, Once;
  }

  /** A tick that looks. */
  lemma Looked(t: World, perMs: nat)
    requires perMs > 0 && Sorted(t.list) && Once(t.list) && t.last == t.now && t.tick >= t.check
    ensures Inv(Ticked(t, perMs), perMs) && forall e | e in Ticked(t, perMs).list :: e.deadline > t.now
  {
    var w' := Ticked(t, perMs);
    var n := Expired(t.list, t.now);
    ExpiredIs(t.list, t.now);
    assert Sorted(w'.list) && Once(w'.list);
    if w'.list != [] {
      EarlyEnough(w'.list[0].deadline - t.now, perMs);
      forall e | e in w'.list ensures Safe(w', e, perMs) && e.deadline > t.now {
        var i :| 0 <= i < |w'.list| && w'.list[i] == e;
        assert t.list[n + i] == e;
        LaterSafe(w', w'.list[0], e, perMs);
      }
    }
    hide Safe, Expired;
  }

  lemma LaterSafe(w: World, first: Entry, e: Entry, perMs: nat)
    requires perMs > 0 && w.last == w.now < first.deadline <= e.deadline
      && w.check == w.tick + TicksFor(first.deadline - w.now, perMs)
    ensures Safe(w, e, perMs)
  {
    EarlyEnough(first.deadline - w.now, perMs);
  }

  lemma Skipped(w: World, t: World, e: Entry, perMs: nat)
    requires Safe(w, e, perMs) && t.tick == w.tick + 1 < t.check == w.check && t.last == t.now <= w.last + 2 * perMs
    ensures Safe(t, e, perMs) && e.deadline > t.now
  {
    assert 2 * perMs * (w.check - 1 - w.tick) == 2 * perMs * (t.check - 1 - t.tick) + 2 * perMs;
    Scale(0, t.check - 1 - t.tick, 2 * perMs);
  }

  lemma StepKept(w: World, op: Op, perMs: nat)
    requires Inv(w, perMs) && Allowed(w, op, perMs)
    ensures Inv(Do(w, op, perMs), perMs)
  {
    match op
    case Wait(task, deadline) => WaitKept(w, task, deadline, perMs);
    case Finish(task) =>
      RemovedIs(w.list, task);
      forall e | e in Removed(w.list, task) ensures e in w.list { RemovedIn(w.list, task, e); }
    case Pass(_) =>
    case Tick(d) => TickKept(w, d, perMs);
  }

  predicate Can(w: World, ops: seq<Op>, perMs: nat)
    requires perMs > 0
    decreases |ops|
  {
    ops == [] || (Allowed(w, ops[0], perMs) && Can(Do(w, ops[0], perMs), ops[1..], perMs))
  }

  function After(w: World, ops: seq<Op>, perMs: nat): World
    requires perMs > 0
    decreases |ops|
  {
    if ops == [] then w else After(Do(w, ops[0], perMs), ops[1..], perMs)
  }

  lemma {:induction false} RunKept(w: World, ops: seq<Op>, perMs: nat)
    requires Inv(w, perMs) && Can(w, ops, perMs)
    ensures Inv(After(w, ops, perMs), perMs)
    decreases |ops|
  {
    if ops != [] {
      StepKept(w, ops[0], perMs);
      RunKept(Do(w, ops[0], perMs), ops[1..], perMs);
    }
    hide Inv, Do;
  }

  /** In every run, at the end of every tick, everyone still in the list has a deadline that lies ahead: each wait whose
      time came since the tick before has been woken by this one. */
  lemma NobodyLate(w: World, before: seq<Op>, d: nat, perMs: nat)
    requires perMs > 0 && w.list == [] && w.last == w.now && Can(w, before, perMs)
    requires Allowed(After(w, before, perMs), Tick(d), perMs)
    ensures var t := Do(After(w, before, perMs), Tick(d), perMs);
      Sorted(t.list) && Once(t.list)
      && forall e | e in t.list :: e.deadline > t.now
  {
    RunKept(w, before, perMs);
    TickKept(After(w, before, perMs), d, perMs);
  }
}
