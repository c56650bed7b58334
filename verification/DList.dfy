/** Doubly linked lists threaded through the entries themselves, as the ready queues of kernel/src/sched/scheduler.c
    are: the links, and the sequence they stand for. */
module DList {
  import opened Collections

  datatype Node = Node(prev: Option<nat>, next: Option<nat>)

  type Nodes = map<nat, Node>

  datatype Ends = Ends(head: Option<nat>, tail: Option<nat>)

  function PrevOf(l: seq<nat>, i: nat): Option<nat>
    requires i < |l|
  {
    if i == 0 then None else Some(l[i - 1])
  }

  function NextOf(l: seq<nat>, i: nat): Option<nat>
    requires i < |l|
  {
    if i + 1 == |l| then None else Some(l[i + 1])
  }

  predicate Threaded(ns: Nodes, l: seq<nat>) {
    forall i: nat | i < |l| :: l[i] in ns && ns[l[i]] == Node(PrevOf(l, i), NextOf(l, i))
  }

  /** The links from head to tail, and those back, are those of l. */
  predicate IsList(ns: Nodes, e: Ends, l: seq<nat>) {
    && NoDup(l) && Threaded(ns, l)
    && e == if l == [] then Ends(None, None) else Ends(Some(l[0]), Some(l[|l| - 1]))
  }

  function HeadOf(l: seq<nat>): Option<nat> { if l == [] then None else Some(l[0]) }

  function EndsOf(l: seq<nat>): Ends { Ends(HeadOf(l), if l == [] then None else Some(l[|l| - 1])) }

  function SetNext(ns: Nodes, o: Option<nat>, next: Option<nat>): Nodes
    requires o.Some? ==> o.value in ns
  {
    if o.Some? then ns[o.value := ns[o.value].(next := next)] else ns
  }

  function SetPrev(ns: Nodes, o: Option<nat>, prev: Option<nat>): Nodes
    requires o.Some? ==> o.value in ns
  {
    if o.Some? then ns[o.value := ns[o.value].(prev := prev)] else ns
  }

  lemma TailThere(ns: Nodes, e: Ends, l: seq<nat>)
    requires IsList(ns, e, l)
    ensures e.tail.Some? ==> e.tail.value in ns && e.tail.value in l
    ensures e.head.Some? <==> l != []
  {
    if l != [] {
      assert l[|l| - 1] in ns;
    }
  }

  /** Linking t in at the tail. */
  function Appended(ns: Nodes, e: Ends, t: nat): Nodes
    requires e.tail.Some? ==> e.tail.value in ns
  {
    SetNext(ns, e.tail, Some(t))[t := Node(e.tail, None)]
  }

  lemma AppendedIs(ns: Nodes, e: Ends, l: seq<nat>, t: nat)
    requires IsList(ns, e, l) && t !in l && (e.tail.Some? ==> e.tail.value in ns)
    ensures IsList(Appended(ns, e, t), Ends(if e.tail.Some? then e.head else Some(t), Some(t)), l + [t])
  {
    var ns' := Appended(ns, e, t);
    var l' := l + [t];
    forall i: nat | i < |l'| ensures l'[i] in ns' && ns'[l'[i]] == Node(PrevOf(l', i), NextOf(l', i)) {
      if i < |l| {
        assert l'[i] == l[i] && l[i] in ns && ns[l[i]] == Node(PrevOf(l, i), NextOf(l, i));
      }
    }
  }

  /** Linking t in at the head. */
  function Prepended(ns: Nodes, head: Option<nat>, t: nat): Nodes
    requires head.Some? ==> head.value in ns
  {
    SetPrev(ns, head, Some(t))[t := Node(None, head)]
  }

  lemma PrependedIs(ns: Nodes, e: Ends, l: seq<nat>, t: nat)
    requires IsList(ns, e, l) && t !in l && (e.head.Some? ==> e.head.value in ns)
    ensures IsList(Prepended(ns, e.head, t), Ends(Some(t), if e.tail.Some? then e.tail else Some(t)), [t] + l)
  {
    var ns' := Prepended(ns, e.head, t);
    var l' := [t] + l;
    forall i: nat | i < |l'| ensures l'[i] in ns' && ns'[l'[i]] == Node(PrevOf(l', i), NextOf(l', i)) {
      if i > 0 {
        assert l'[i] == l[i - 1] && l[i - 1] in ns && ns[l[i - 1]] == Node(PrevOf(l, i - 1), NextOf(l, i - 1));
      }
    }
  }

  /** Only the node linked in and the old head are touched. */
  lemma PrependedElse(ns: Nodes, head: Option<nat>, t: nat, u: nat)
    requires (head.Some? ==> head.value in ns) && u in ns && u != t && head != Some(u)
    ensures u in Prepended(ns, head, t) && Prepended(ns, head, t)[u] == ns[u]
  {}

  lemma HeadThere(ns: Nodes, e: Ends, l: seq<nat>)
    requires IsList(ns, e, l)
    ensures e.head.Some? ==> e.head.value in ns && e.head.value in l
  {
    if l != [] {
      assert l[0] in ns;
    }
  }

  /** Linking t in between two neighbours, either of which may be missing. */
  function Between(ns: Nodes, prev: Option<nat>, next: Option<nat>, t: nat): Nodes
    requires (prev.Some? ==> prev.value in ns) && (next.Some? ==> next.value in ns)
  {
    SetPrev(SetNext(ns, prev, Some(t)), next, Some(t))[t := Node(prev, next)]
  }

  function Before(l: seq<nat>, k: nat): Option<nat>
    requires k <= |l|
  {
    if k == 0 then None else Some(l[k - 1])
  }

  function From(l: seq<nat>, k: nat): Option<nat>
    requires k <= |l|
  {
    if k == |l| then None else Some(l[k])
  }

  lemma GapThere(ns: Nodes, l: seq<nat>, k: nat)
    requires Threaded(ns, l) && k <= |l|
    ensures Before(l, k).Some? ==> Before(l, k).value in ns
    ensures From(l, k).Some? ==> From(l, k).value in ns
  {
    if k > 0 { assert l[k - 1] in ns; }
    if k < |l| { assert l[k] in ns; }
  }

  lemma BetweenAt(ns: Nodes, l: seq<nat>, k: nat, t: nat, i: nat)
    requires NoDup(l) && Threaded(ns, l) && k <= |l| && t !in l && i < |l|
    requires (Before(l, k).Some? ==> Before(l, k).value in ns) && (From(l, k).Some? ==> From(l, k).value in ns)
    ensures var ns' := Between(ns, Before(l, k), From(l, k), t);
      l[i] in ns' && ns'[l[i]] ==
        Node(if i == k then Some(t) else PrevOf(l, i), if i + 1 == k then Some(t) else NextOf(l, i))
  {
    assert l[i] in ns && ns[l[i]] == Node(PrevOf(l, i), NextOf(l, i));
    assert l[i] != t;
  }

  /** t in at place k. */
  function Spliced(l: seq<nat>, k: nat, t: nat): seq<nat>
    requires k <= |l|
  {
    l[..k] + [t] + l[k..]
  }

  lemma SplicedAt(l: seq<nat>, k: nat, t: nat, i: nat)
    requires k <= |l| && i <= |l|
    ensures |Spliced(l, k, t)| == |l| + 1
      && Spliced(l, k, t)[i] == if i < k then l[i] else if i == k then t else l[i - 1]
  {}

  lemma SplicedNeighbours(l: seq<nat>, k: nat, t: nat, i: nat)
    requires k <= |l| && i <= |l|
    ensures |Spliced(l, k, t)| == |l| + 1
    ensures PrevOf(Spliced(l, k, t), i) ==
      if i == k then Before(l, k) else if i == k + 1 then Some(t) else if i < k then PrevOf(l, i) else PrevOf(l, i - 1)
    ensures NextOf(Spliced(l, k, t), i) ==
      if i == k then From(l, k) else if i + 1 == k then Some(t) else if i < k then NextOf(l, i) else NextOf(l, i - 1)
  {
    SplicedAt(l, k, t, i);
    if i > 0 { SplicedAt(l, k, t, i - 1); }
    if i < |l| { SplicedAt(l, k, t, i + 1); }
    hide Spliced;
  }

  lemma SplicedNoDup(l: seq<nat>, k: nat, t: nat)
    requires NoDup(l) && k <= |l| && t !in l
    ensures NoDup(Spliced(l, k, t))
  {
    forall i: nat, j: nat | i < j <= |l| ensures Spliced(l, k, t)[i] != Spliced(l, k, t)[j] {
      SplicedAt(l, k, t, i);
      SplicedAt(l, k, t, j);
    }
    SplicedAt(l, k, t, 0);
    hide Spliced;
  }

  lemma SplicedNode(ns: Nodes, l: seq<nat>, k: nat, t: nat, i: nat)
    requires NoDup(l) && Threaded(ns, l) && k <= |l| && t !in l && i <= |l|
    requires (Before(l, k).Some? ==> Before(l, k).value in ns) && (From(l, k).Some? ==> From(l, k).value in ns)
    ensures |Spliced(l, k, t)| == |l| + 1
    ensures var ns' := Between(ns, Before(l, k), From(l, k), t); var l' := Spliced(l, k, t);
      l'[i] in ns' && ns'[l'[i]] == Node(PrevOf(l', i), NextOf(l', i))
  {
    SplicedAt(l, k, t, i);
    SplicedNeighbours(l, k, t, i);
    if i == k {
      JustLinked(ns, Before(l, k), From(l, k), t);
    } else {
      BetweenAt(ns, l, k, t, if i < k then i else i - 1);
    }
    hide Spliced, Between, Threaded, NoDup, PrevOf, NextOf, Before, From;
  }

  lemma JustLinked(ns: Nodes, prev: Option<nat>, next: Option<nat>, t: nat)
    requires (prev.Some? ==> prev.value in ns) && (next.Some? ==> next.value in ns)
    ensures t in Between(ns, prev, next, t) && Between(ns, prev, next, t)[t] == Node(prev, next)
  {}

  lemma BetweenIs(ns: Nodes, l: seq<nat>, k: nat, t: nat)
    requires IsList(ns, EndsOf(l), l) && k <= |l| && t !in l
    requires (Before(l, k).Some? ==> Before(l, k).value in ns) && (From(l, k).Some? ==> From(l, k).value in ns)
    ensures var l' := Spliced(l, k, t); IsList(Between(ns, Before(l, k), From(l, k), t), EndsOf(l'), l')
  {
    var l' := Spliced(l, k, t);
    var ns' := Between(ns, Before(l, k), From(l, k), t);
    SplicedAt(l, k, t, 0);
    SplicedNoDup(l, k, t);
    forall i: nat | i < |l'| ensures l'[i] in ns' && ns'[l'[i]] == Node(PrevOf(l', i), NextOf(l', i)) {
      SplicedNode(ns, l, k, t, i);
    }
    hide Spliced, Between, NoDup, PrevOf, NextOf, Before, From;
  }

  lemma NeighboursThere(ns: Nodes, l: seq<nat>, k: nat)
    requires Threaded(ns, l) && k < |l|
    ensures l[k] in ns && ns[l[k]] == Node(PrevOf(l, k), NextOf(l, k))
    ensures PrevOf(l, k).Some? ==> PrevOf(l, k).value in ns && PrevOf(l, k).value in l
    ensures NextOf(l, k).Some? ==> NextOf(l, k).value in ns && NextOf(l, k).value in l
  {
    assert l[k] in ns;
    if k > 0 { assert l[k - 1] in ns; }
    if k + 1 < |l| { assert l[k + 1] in ns; }
  }

  /** The neighbours of t are nodes as well. */
  predicate Joined(ns: Nodes, t: nat) {
    t in ns && (ns[t].prev.Some? ==> ns[t].prev.value in ns) && (ns[t].next.Some? ==> ns[t].next.value in ns)
  }

  /** Taking node t out: its neighbours are linked to each other. */
  function Unlinked(ns: Nodes, t: nat): Nodes
    requires Joined(ns, t)
  {
    SetPrev(SetNext(ns, ns[t].prev, ns[t].next), ns[t].next, ns[t].prev)[t := Node(None, None)]
  }

  function UnlinkedEnds(ns: Nodes, e: Ends, t: nat): Ends
    requires t in ns
  {
    Ends(if ns[t].prev.Some? then e.head else ns[t].next, if ns[t].next.Some? then e.tail else ns[t].prev)
  }

  function Cut(l: seq<nat>, k: nat): seq<nat>
    requires k < |l|
  {
    l[..k] + l[k + 1..]
  }

  lemma CutAt(l: seq<nat>, k: nat, i: nat)
    requires k < |l| && i < |l| - 1
    ensures |Cut(l, k)| == |l| - 1 && Cut(l, k)[i] == l[if i < k then i else i + 1]
  {}

  lemma CutIn(l: seq<nat>, k: nat, u: nat)
    requires NoDup(l) && k < |l|
    ensures u in Cut(l, k) <==> u in l && u != l[k]
  {
    if u in l && u != l[k] {
      var i :| 0 <= i < |l| && l[i] == u;
      CutAt(l, k, if i < k then i else i - 1);
      assert Cut(l, k)[if i < k then i else i - 1] == u;
    }
    if u in Cut(l, k) {
      var i :| 0 <= i < |Cut(l, k)| && Cut(l, k)[i] == u;
      CutAt(l, k, i);
    }
  }

  lemma UnlinkedAt(ns: Nodes, t: nat, u: nat)
    requires Joined(ns, t)
    requires u in ns && u != t
    ensures u in Unlinked(ns, t)
    ensures Unlinked(ns, t)[u] == Node(if ns[t].next == Some(u) then ns[t].prev else ns[u].prev,
                                       if ns[t].prev == Some(u) then ns[t].next else ns[u].next)
  {}

  lemma UnlinkedIs(ns: Nodes, e: Ends, l: seq<nat>, k: nat)
    requires IsList(ns, e, l) && k < |l| && Joined(ns, l[k])
    ensures IsList(Unlinked(ns, l[k]), UnlinkedEnds(ns, e, l[k]), Cut(l, k))
  {
    hide Cut, Unlinked, Threaded, NoDup;
    NeighboursThere(ns, l, k);
    CutThreaded(ns, l, k);
    CutNoDup(l, k);
    CutEnds(l, k);
  }

  lemma CutNoDup(l: seq<nat>, k: nat)
    requires NoDup(l) && k < |l|
    ensures NoDup(Cut(l, k))
  {
    forall i, j | 0 <= i < j < |Cut(l, k)| ensures Cut(l, k)[i] != Cut(l, k)[j] {
      CutAt(l, k, i);
      CutAt(l, k, j);
    }
  }

  lemma CutEnds(l: seq<nat>, k: nat)
    requires k < |l|
    ensures |Cut(l, k)| == |l| - 1
    ensures |l| > 1 ==>
      Cut(l, k)[0] == (if k == 0 then l[1] else l[0])
      && Cut(l, k)[|l| - 2] == if k + 1 == |l| then l[|l| - 2] else l[|l| - 1]
  {}

  lemma CutThreaded(ns: Nodes, l: seq<nat>, k: nat)
    requires NoDup(l) && Threaded(ns, l) && k < |l| && Joined(ns, l[k])
    ensures Threaded(Unlinked(ns, l[k]), Cut(l, k))
  {
    var ns' := Unlinked(ns, l[k]);
    var l' := Cut(l, k);
    forall i: nat | i < |l'| ensures l'[i] in ns' && ns'[l'[i]] == Node(PrevOf(l', i), NextOf(l', i)) {
      UnlinkedNode(ns, l, k, i);
    }
    hide Cut, Unlinked;
  }

  lemma UnlinkedNode(ns: Nodes, l: seq<nat>, k: nat, i: nat)
    requires NoDup(l) && Threaded(ns, l) && k < |l| && Joined(ns, l[k]) && i < |l| - 1
    ensures |Cut(l, k)| == |l| - 1
    ensures var ns' := Unlinked(ns, l[k]); var l' := Cut(l, k);
      l'[i] in ns' && ns'[l'[i]] == Node(PrevOf(l', i), NextOf(l', i))
  {
    hide Cut, Unlinked, Threaded;
    var j := if i < k then i else i + 1;
    CutAt(l, k, i);
    NeighboursThere(ns, l, k);
    NeighboursThere(ns, l, j);
    UnlinkedAt(ns, l[k], l[j]);
    CutPrev(l, k, i);
    CutNext(l, k, i);
    assert PrevOf(l, k) == Some(l[j]) <==> j + 1 == k;
    assert NextOf(l, k) == Some(l[j]) <==> j == k + 1;
  }

  lemma CutPrev(l: seq<nat>, k: nat, i: nat)
    requires k < |l| && i < |l| - 1
    ensures |Cut(l, k)| == |l| - 1
    ensures PrevOf(Cut(l, k), i) == var j := if i < k then i else i + 1;
      if j == k + 1 then PrevOf(l, k) else PrevOf(l, j)
  {}

  lemma CutNext(l: seq<nat>, k: nat, i: nat)
    requires k < |l| && i < |l| - 1
    ensures |Cut(l, k)| == |l| - 1
    ensures NextOf(Cut(l, k), i) == var j := if i < k then i else i + 1;
      if j + 1 == k then NextOf(l, k) else NextOf(l, j)
  {}

  /** A list that shares no node with what changed is still there. */
  lemma Elsewhere(ns: Nodes, ns': Nodes, e: Ends, l: seq<nat>)
    requires IsList(ns, e, l) && forall t | t in l && t in ns :: t in ns' && ns'[t] == ns[t]
    ensures IsList(ns', e, l)
  {
    forall i: nat | i < |l| ensures l[i] in ns' && ns'[l[i]] == Node(PrevOf(l, i), NextOf(l, i)) {
      assert l[i] in l && l[i] in ns;
    }
  }

  /** Only the node linked in and the old tail are touched. */
  lemma AppendedElse(ns: Nodes, e: Ends, t: nat, u: nat)
    requires (e.tail.Some? ==> e.tail.value in ns) && u in ns && u != t && e.tail != Some(u)
    ensures u in Appended(ns, e, t) && Appended(ns, e, t)[u] == ns[u]
  {}

  /** Only the node taken out and its neighbours are touched. */
  lemma UnlinkedElse(ns: Nodes, t: nat, u: nat)
    requires Joined(ns, t)
    requires u in ns && u != t && ns[t].prev != Some(u) && ns[t].next != Some(u)
    ensures u in Unlinked(ns, t) && Unlinked(ns, t)[u] == ns[u]
  {}
}
