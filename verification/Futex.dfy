/** Futexes (kernel/src/sched/futex.c): waiters in hash buckets, waking and requeueing. Each method below is one section
    under futex_lock. */
module Futex {
  import opened Collections
  import opened DList

  const FUTEX_BUCKETS: nat := 64
  const MATCH_ANY: bv32 := 0xFFFF_FFFF

  datatype Key = Key(space: bv64, addr: bv64)

  datatype Waiter = Waiter(key: Key, bitset: bv32, woken: bool)

  type Waiters = map<nat, Waiter>      // by the number of the wait; a wait that has returned is not in it

  /** bucket_of */
  function Bucket(k: Key): (b: nat)
    ensures b < FUTEX_BUCKETS
  {
    var h := (k.addr >> 2) ^ (k.space >> 12);
    var g := h ^ (h >> 17);
    (g % 64) as nat
  }

  predicate Linked(ws: Waiters, id: nat, b: nat) { id in ws && !ws[id].woken && Bucket(ws[id].key) == b }

  /** Bucket b holds exactly the sleeping waiters whose key hashes to it, each once. */
  ghost predicate BucketInv(ws: Waiters, l: seq<nat>, b: nat) {
    NoDup(l) && forall id: nat :: id in l <==> Linked(ws, id, b)
  }

  ghost predicate Inv(buckets: seq<seq<nat>>, ws: Waiters) {
    && (forall id | id in ws :: ws[id].bitset != 0)
    && |buckets| == FUTEX_BUCKETS && forall b: nat | b < FUTEX_BUCKETS :: BucketInv(ws, buckets[b], b)
  }

  /** key_eq, and a bit in common */
  predicate Wanted(w: Waiter, key: Key, bitset: bv32) { w.key == key && w.bitset & bitset != 0 }

  // ---------------------------------------------------------------- bits in common

  /** Bit i of a set. */
  predicate HasBit(x: bv32, i: nat)
    decreases i
  {
    if i == 0 then x & 1 == 1 else HasBit(x >> 1, i - 1)
  }

  predicate BothHave(x: bv32, y: bv32, i: nat) { HasBit(x, i) && HasBit(y, i) }

  /** The waiter waits on that key, and some bit is in its set and in the one asked for. */
  ghost predicate Called(w: Waiter, key: Key, bitset: bv32) {
    w.key == key && exists i: nat :: BothHave(w.bitset, bitset, i)
  }

  lemma {:induction false} SomeBit(x: bv32) returns (i: nat)
    requires x != 0
    ensures HasBit(x, i)
    decreases x
  {
    if x & 1 == 1 {
      i := 0;
    } else {
      ShiftNotZero(x);
      i := SomeBit(x >> 1);
      i := i + 1;
    }
  }

  lemma ShiftNotZero(x: bv32)
    requires x != 0
    ensures x >> 1 < x && (x & 1 != 1 ==> x >> 1 != 0)
  {}

  lemma {:induction false} BothBits(x: bv32, y: bv32, i: nat)
    ensures HasBit(x & y, i) <==> HasBit(x, i) && HasBit(y, i)
    decreases i
  {
    ShiftBoth(x, y);
    if i > 0 {
      BothBits(x >> 1, y >> 1, i - 1);
    }
  }

  lemma ShiftBoth(x: bv32, y: bv32)
    ensures (x & y) >> 1 == (x >> 1) & (y >> 1) && (x & y & 1 == 1 <==> x & 1 == 1 && y & 1 == 1)
  {}

  lemma {:induction false} NoBits(i: nat)
    ensures !HasBit(0, i)
    decreases i
  {
    if i > 0 {
      NoBits(i - 1);
    }
  }

  lemma Common(x: bv32, y: bv32)
    ensures x & y != 0 <==> exists i: nat :: BothHave(x, y, i)
  {
    hide HasBit;
    if x & y != 0 {
      var i := SomeBit(x & y);
      BothBits(x, y, i);
      assert BothHave(x, y, i);
    } else {
      forall i: nat ensures !BothHave(x, y, i) {
        BothBits(x, y, i);
        NoBits(i);
      }
    }
  }

  /** The test of wake_key is that of a bit in common. */
  lemma WantedIs(w: Waiter, key: Key, bitset: bv32)
    ensures Wanted(w, key, bitset) <==> Called(w, key, bitset)
  {
    hide BothHave;
    Common(w.bitset, bitset);
  }

  // ---------------------------------------------------------------- who goes

  predicate Match(ws: Waiters, id: nat, key: Key, bitset: bv32) { id in ws && Wanted(ws[id], key, bitset) }

  /** Those of a list that a wake is for, in order. */
  function Matches(ws: Waiters, l: seq<nat>, key: Key, bitset: bv32): seq<nat> {
    if l == [] then []
    else (if Match(ws, l[0], key, bitset) then [l[0]] else []) + Matches(ws, l[1..], key, bitset)
  }

  /** The first n, or all if there are not that many. */
  function Take(l: seq<nat>, n: int): seq<nat> { if n <= 0 then [] else if n >= |l| then l else l[..n] }

  /** The list without those in out. */
  function Without(l: seq<nat>, out: seq<nat>): seq<nat> {
    if l == [] then [] else (if l[0] in out then [] else [l[0]]) + Without(l[1..], out)
  }

  function Woken(ws: Waiters, out: seq<nat>): Waiters {
    map id | id in ws :: if id in out then ws[id].(woken := true) else ws[id]
  }

  function Moved(ws: Waiters, out: seq<nat>, key: Key): Waiters {
    map id | id in ws :: if id in out then ws[id].(key := key) else ws[id]
  }

  /** Picking the first n matching ones out of a list: who is picked, and who stays. */
  function Pick(ws: Waiters, l: seq<nat>, key: Key, bitset: bv32, n: int): (seq<nat>, seq<nat>) {
    if l == [] || n <= 0 then ([], l)
    else if Match(ws, l[0], key, bitset) then
      var (out, kept) := Pick(ws, l[1..], key, bitset, n - 1);
      ([l[0]] + out, kept)
    else
      var (out, kept) := Pick(ws, l[1..], key, bitset, n);
      (out, [l[0]] + kept)
  }

  /** They are the first n that match, in order, and nobody else goes. */
  lemma {:induction false} PickIs(ws: Waiters, l: seq<nat>, key: Key, bitset: bv32, n: int)
    requires NoDup(l)
    ensures var (out, kept) := Pick(ws, l, key, bitset, n);
      out == Take(Matches(ws, l, key, bitset), n) && kept == Without(l, out)
  {
    if l == [] || n <= 0 {
      WithoutNone(l);
    } else {
      var m := if Match(ws, l[0], key, bitset) then n - 1 else n;
      PickIs(ws, l[1..], key, bitset, m);
      var out := Pick(ws, l[1..], key, bitset, m).0;
      assert l[0] !in l[1..];
      if Match(ws, l[0], key, bitset) {
        WithoutSame(l[1..], out, l[0]);
        assert Matches(ws, l, key, bitset) == [l[0]] + Matches(ws, l[1..], key, bitset);
      } else {
        PickIn(ws, l[1..], key, bitset, n, l[0]);
        assert Matches(ws, l, key, bitset) == Matches(ws, l[1..], key, bitset);
      }
    }
  }

  lemma {:induction false} WithoutNone(l: seq<nat>)
    ensures Without(l, []) == l
  {
    if l != [] {
      WithoutNone(l[1..]);
    }
  }

  lemma {:induction false} WithoutSame(l: seq<nat>, out: seq<nat>, x: nat)
    requires x !in l
    ensures Without(l, [x] + out) == Without(l, out)
  {
    if l != [] {
      WithoutSame(l[1..], out, x);
    }
  }

  /** Everyone picked was in the list and matches; everyone is picked or stays. */
  lemma {:induction false} PickIn(ws: Waiters, l: seq<nat>, key: Key, bitset: bv32, n: int, id: nat)
    ensures var (out, kept) := Pick(ws, l, key, bitset, n);
      && (id in out ==> id in l && Match(ws, id, key, bitset))
      && (id in kept ==> id in l) && (id in l ==> id in out || id in kept)
      && |out| <= (if n < 0 then 0 else n) && |out| + |kept| == |l|
  {
    if l != [] && n > 0 {
      PickIn(ws, l[1..], key, bitset, if Match(ws, l[0], key, bitset) then n - 1 else n, id);
      assert l == [l[0]] + l[1..];
    }
  }

  lemma {:induction false} PickNoDup(ws: Waiters, l: seq<nat>, key: Key, bitset: bv32, n: int)
    requires NoDup(l)
    ensures var (out, kept) := Pick(ws, l, key, bitset, n);
      NoDup(out) && NoDup(kept) && forall id | id in out :: id !in kept
  {
    if l != [] && n > 0 {
      var m := if Match(ws, l[0], key, bitset) then n - 1 else n;
      PickNoDup(ws, l[1..], key, bitset, m);
      PickIn(ws, l[1..], key, bitset, m, l[0]);
      assert l[0] !in l[1..];
    }
  }

  /** What a wake does, on the waiters alone. Whoever is woken was asleep in the bucket and is called; all who are
      called are woken if that is not as many as asked for; and whoever is woken stood before every sleeper called that
      is not. */
  ghost predicate Wakes(ws: Waiters, l: seq<nat>, key: Key, bitset: bv32, count: int, out: seq<nat>, ws': Waiters) {
    && (forall id :: id in ws' <==> id in ws) && (forall id | id in ws && id !in out :: ws'[id] == ws[id])
    && NoDup(out) && |out| <= (if count < 0 then 0 else count)
    && (forall id | id in out ::
          id in ws && id in l && !ws[id].woken && Called(ws[id], key, bitset) && ws'[id] == ws[id].(woken := true))
    && (|out| < count ==> forall id | id in ws && !ws[id].woken && Called(ws[id], key, bitset) :: id in out)
    && (forall i, j | 0 <= i < j < |l| && l[i] in ws && Called(ws[l[i]], key, bitset) && l[j] in out :: l[i] in out)
  }

  /** Nobody is left who matches unless enough have been picked. */
  lemma {:induction false} PickAll(ws: Waiters, l: seq<nat>, key: Key, bitset: bv32, n: int, id: nat)
    requires id in l && Match(ws, id, key, bitset) && |Pick(ws, l, key, bitset, n).0| < n
    ensures id in Pick(ws, l, key, bitset, n).0
  {
    hide Match;
    if id != l[0] {
      PickAll(ws, l[1..], key, bitset, if Match(ws, l[0], key, bitset) then n - 1 else n, id);
    }
  }

  /** The first that match are picked first. */
  lemma {:induction false} PickFirst(ws: Waiters, l: seq<nat>, key: Key, bitset: bv32, n: int, i: nat, j: nat)
    requires NoDup(l) && i < j < |l| && Match(ws, l[i], key, bitset) && l[j] in Pick(ws, l, key, bitset, n).0
    ensures l[i] in Pick(ws, l, key, bitset, n).0
  {
    hide Match;
    var m := if Match(ws, l[0], key, bitset) then n - 1 else n;
    if i > 0 {
      assert l[j] != l[0];
      PickFirst(ws, l[1..], key, bitset, m, i - 1, j - 1);
    }
  }

  lemma MatchIs(ws: Waiters, id: nat, key: Key, bitset: bv32)
    ensures Match(ws, id, key, bitset) <==> id in ws && Called(ws[id], key, bitset)
  {
    hide Called;
    if id in ws {
      WantedIs(ws[id], key, bitset);
    }
  }

  lemma PickWakes(bs: seq<seq<nat>>, ws: Waiters, key: Key, bitset: bv32, count: int)
    requires Inv(bs, ws)
    ensures var l := bs[Bucket(key)]; var (out, kept) := Pick(ws, l, key, bitset, count);
      Wakes(ws, l, key, bitset, count, out, Woken(ws, out)) && (out == [] ==> kept == l && Woken(ws, out) == ws)
  {
    hide Bucket, Pick, Match, Called;
    var l := bs[Bucket(key)];
    var (out, kept) := Pick(ws, l, key, bitset, count);
    assert BucketInv(ws, l, Bucket(key));
    PickNoDup(ws, l, key, bitset, count);
    PickIn(ws, l, key, bitset, count, 0);
    PickIs(ws, l, key, bitset, count);
    WithoutNone(l);
    forall id | id in out ensures id in ws && id in l && !ws[id].woken && Called(ws[id], key, bitset) {
      PickIn(ws, l, key, bitset, count, id);
      MatchIs(ws, id, key, bitset);
    }
    if |out| < count {
      forall id | id in ws && !ws[id].woken && Called(ws[id], key, bitset) ensures id in out {
        MatchIs(ws, id, key, bitset);
        CalledHere(ws, id, key, bitset);
        PickAll(ws, l, key, bitset, count, id);
      }
    }
    forall i, j | 0 <= i < j < |l| && l[i] in ws && Called(ws[l[i]], key, bitset) && l[j] in out ensures l[i] in out {
      MatchIs(ws, l[i], key, bitset);
      PickFirst(ws, l, key, bitset, count, i, j);
    }
  }

  /** What a requeue does to those it does not wake, in the same way: whoever moves was asleep on the first key and is
      on the second one now. */
  ghost predicate Requeues(ws: Waiters, l: seq<nat>, key: Key, key2: Key, n: nat, out: seq<nat>, ws': Waiters) {
    && (forall id :: id in ws' <==> id in ws) && (forall id | id in ws && id !in out :: ws'[id] == ws[id])
    && NoDup(out) && |out| <= n
    && (forall id | id in out ::
          id in ws && id in l && !ws[id].woken && ws[id].key == key && ws'[id] == ws[id].(key := key2))
    && (|out| < n ==> forall id | id in ws && !ws[id].woken && ws[id].key == key :: id in out)
    && (forall i, j | 0 <= i < j < |l| && l[i] in ws && ws[l[i]].key == key && l[j] in out :: l[i] in out)
  }

  lemma PickMoves(bs: seq<seq<nat>>, ws: Waiters, key: Key, key2: Key, n: nat)
    requires Inv(bs, ws)
    ensures var l := bs[Bucket(key)]; var out := Pick(ws, l, key, MATCH_ANY, n).0;
      Requeues(ws, l, key, key2, n, out, Moved(ws, out, key2))
  {
    hide Bucket, Pick;
    var l := bs[Bucket(key)];
    var out := Pick(ws, l, key, MATCH_ANY, n).0;
    assert BucketInv(ws, l, Bucket(key));
    PickNoDup(ws, l, key, MATCH_ANY, n);
    PickIn(ws, l, key, MATCH_ANY, n, 0);
    forall id | id in ws ensures Match(ws, id, key, MATCH_ANY) <==> ws[id].key == key { AnyBit(ws[id], key); }
    hide Match;
    forall id | id in out ensures id in ws && id in l && !ws[id].woken && ws[id].key == key {
      PickIn(ws, l, key, MATCH_ANY, n, id);
    }
    if |out| < n {
      forall id | id in ws && !ws[id].woken && ws[id].key == key ensures id in out {
        assert Linked(ws, id, Bucket(key));
        PickAll(ws, l, key, MATCH_ANY, n, id);
      }
    }
    forall i, j | 0 <= i < j < |l| && l[i] in ws && ws[l[i]].key == key && l[j] in out ensures l[i] in out {
      PickFirst(ws, l, key, MATCH_ANY, n, i, j);
    }
  }

  /** Whoever is called sleeps in the bucket that is looked at. */
  lemma CalledHere(ws: Waiters, id: nat, key: Key, bitset: bv32)
    requires id in ws && !ws[id].woken && Called(ws[id], key, bitset)
    ensures Linked(ws, id, Bucket(key))
  {
    hide Bucket;
  }

  lemma WokenMore(ws: Waiters, out: seq<nat>, w: nat)
    requires w in ws && w !in out
    ensures w in Woken(ws, out) && Woken(ws, out)[w] == ws[w]
    ensures Woken(ws, out)[w := ws[w].(woken := true)] == Woken(ws, out + [w])
  {}

  lemma MovedMore(ws: Waiters, out: seq<nat>, key: Key, w: nat)
    requires w in ws && w !in out
    ensures w in Moved(ws, out, key) && Moved(ws, out, key)[w] == ws[w]
    ensures Moved(ws, out, key)[w := ws[w].(key := key)] == Moved(ws, out + [w], key)
  {}

  /** What has been picked and kept so far, and what is still to be looked at, together are the whole pick. */
  ghost predicate Going(ws: Waiters, l: seq<nat>, key: Key, bitset: bv32, n: int, out: seq<nat>, kept: seq<nat>,
                        rest: seq<nat>) {
    && Pick(ws, l, key, bitset, n) ==
       (out + Pick(ws, rest, key, bitset, n - |out|).0, kept + Pick(ws, rest, key, bitset, n - |out|).1)
    && (forall id | id in rest :: id in l && id !in out) && NoDup(rest)
  }

  lemma GoingOn(ws: Waiters, l: seq<nat>, key: Key, bitset: bv32, n: int, out: seq<nat>, kept: seq<nat>, rest: seq<nat>)
    requires Going(ws, l, key, bitset, n, out, kept, rest) && rest != [] && |out| < n
    ensures rest[0] in l && rest[0] !in out
    ensures Match(ws, rest[0], key, bitset) ==> Going(ws, l, key, bitset, n, out + [rest[0]], kept, rest[1..])
    ensures !Match(ws, rest[0], key, bitset) ==> Going(ws, l, key, bitset, n, out, kept + [rest[0]], rest[1..])
  {
    assert rest[0] !in rest[1..];
    assert forall o: seq<nat> :: out + ([rest[0]] + o) == out + [rest[0]] + o;
    assert forall k: seq<nat> :: kept + ([rest[0]] + k) == kept + [rest[0]] + k;
  }

  lemma GoingStart(ws: Waiters, l: seq<nat>, key: Key, bitset: bv32, n: int)
    requires NoDup(l)
    ensures Going(ws, l, key, bitset, n, [], [], l)
  {
    var (o, k) := Pick(ws, l, key, bitset, n);
    assert [] + o == o && [] + k == k;
  }

  lemma GoingDone(ws: Waiters, l: seq<nat>, key: Key, bitset: bv32, n: int, out: seq<nat>, kept: seq<nat>,
                  rest: seq<nat>)
    requires Going(ws, l, key, bitset, n, out, kept, rest) && (rest == [] || n <= |out|)
    ensures Pick(ws, l, key, bitset, n) == (out, kept + rest)
  {
    assert out + [] == out;
  }

  // ---------------------------------------------------------------- the links

  /** The prev and next of every waiter, and the heads of the buckets. */
  datatype Links = Links(nodes: Nodes, heads: seq<Option<nat>>)

  /** Each bucket's links, both ways, are those of its list, and no waiter is in two. */
  ghost predicate Rep(lk: Links, ls: seq<seq<nat>>) {
    && |lk.heads| == |ls| == FUTEX_BUCKETS
    && (forall b: nat | b < FUTEX_BUCKETS :: ListRep(lk, ls, b))
    && (forall b: nat, c: nat, id: nat | b < c < FUTEX_BUCKETS && id in ls[b] :: id !in ls[c])
  }

  predicate ListRep(lk: Links, ls: seq<seq<nat>>, b: nat)
    requires b < |lk.heads| == |ls|
  {
    IsList(lk.nodes, EndsOf(ls[b]), ls[b]) && lk.heads[b] == HeadOf(ls[b])
  }

  predicate Nowhere(ls: seq<seq<nat>>, id: nat) { forall c: nat | c < |ls| :: id !in ls[c] }

  /** waiter_link at the head of bucket b. */
  function Link(lk: Links, b: nat, w: nat): Links
    requires b < |lk.heads| && (lk.heads[b].Some? ==> lk.heads[b].value in lk.nodes)
  {
    Links(Prepended(lk.nodes, lk.heads[b], w), lk.heads[b := Some(w)])
  }

  /** waiter_unlink, with b the bucket of its key: its head changes if nobody comes before. */
  function Unlink(lk: Links, b: nat, w: nat): Links
    requires b < |lk.heads| && Joined(lk.nodes, w)
  {
    Links(Unlinked(lk.nodes, w), if lk.nodes[w].prev.Some? then lk.heads else lk.heads[b := lk.nodes[w].next])
  }

  lemma HeadIn(lk: Links, ls: seq<seq<nat>>, b: nat)
    requires Rep(lk, ls) && b < FUTEX_BUCKETS
    ensures |lk.heads| == |ls| == FUTEX_BUCKETS && lk.heads[b] == HeadOf(ls[b])
    ensures lk.heads[b].Some? ==> lk.heads[b].value in lk.nodes && lk.heads[b].value in ls[b]
  {
    assert ListRep(lk, ls, b);
    HeadThere(lk.nodes, EndsOf(ls[b]), ls[b]);
    hide Rep, IsList;
  }

  lemma Distinct(lk: Links, ls: seq<seq<nat>>, b: nat, c: nat, id: nat)
    requires Rep(lk, ls) && b < FUTEX_BUCKETS && c < FUTEX_BUCKETS && b != c && id in ls[b]
    ensures id !in ls[c]
  {}

  lemma LinkKept(lk: Links, ls: seq<seq<nat>>, b: nat, w: nat)
    requires Rep(lk, ls) && b < FUTEX_BUCKETS && Nowhere(ls, w)
    ensures |lk.heads| == |ls| == FUTEX_BUCKETS && (lk.heads[b].Some? ==> lk.heads[b].value in lk.nodes)
    ensures Rep(Link(lk, b, w), ls[b := [w] + ls[b]])
  {
    HeadIn(lk, ls, b);
    var lk', ls' := Link(lk, b, w), ls[b := [w] + ls[b]];
    forall c: nat | c < FUTEX_BUCKETS ensures ListRep(lk', ls', c) { LinkList(lk, ls, b, w, c); }
    hide ListRep, Prepended;
  }

  lemma LinkList(lk: Links, ls: seq<seq<nat>>, b: nat, w: nat, c: nat)
    requires Rep(lk, ls) && b < FUTEX_BUCKETS && c < FUTEX_BUCKETS && Nowhere(ls, w)
    requires lk.heads[b].Some? ==> lk.heads[b].value in lk.nodes
    ensures ListRep(Link(lk, b, w), ls[b := [w] + ls[b]], c)
  {
    assert ListRep(lk, ls, b) && ListRep(lk, ls, c);
    HeadIn(lk, ls, b);
    hide IsList, Prepended;
    if c == b {
      PrependedIs(lk.nodes, EndsOf(ls[b]), ls[b], w);
    } else {
      var ns := Prepended(lk.nodes, lk.heads[b], w);
      forall u | u in ls[c] && u in lk.nodes ensures u in ns && ns[u] == lk.nodes[u] {
        Distinct(lk, ls, c, b, u);
        PrependedElse(lk.nodes, lk.heads[b], w, u);
      }
      Elsewhere(lk.nodes, ns, EndsOf(ls[c]), ls[c]);
    }
  }

  lemma UnlinkKept(lk: Links, ls: seq<seq<nat>>, b: nat, k: nat)
    requires Rep(lk, ls) && b < FUTEX_BUCKETS && k < |ls[b]|
    ensures |lk.heads| == |ls| == FUTEX_BUCKETS && Joined(lk.nodes, ls[b][k])
      && lk.nodes[ls[b][k]].next == NextOf(ls[b], k)
    ensures Rep(Unlink(lk, b, ls[b][k]), ls[b := Cut(ls[b], k)])
    ensures Nowhere(ls[b := Cut(ls[b], k)], ls[b][k])
  {
    assert ListRep(lk, ls, b);
    NeighboursThere(lk.nodes, ls[b], k);
    CutApart(ls, b, k);
    var lk', ls' := Unlink(lk, b, ls[b][k]), ls[b := Cut(ls[b], k)];
    hide ListRep, Unlinked, Cut, Nowhere, IsList;
    forall c: nat | c < FUTEX_BUCKETS ensures ListRep(lk', ls', c) { UnlinkList(lk, ls, b, k, c); }
  }

  /** Without entry k of list b the lists are still apart, and that entry is in none. */
  lemma CutApart(ls: seq<seq<nat>>, b: nat, k: nat)
    requires b < FUTEX_BUCKETS == |ls| && k < |ls[b]| && NoDup(ls[b])
    requires forall b: nat, c: nat, id: nat | b < c < FUTEX_BUCKETS && id in ls[b] :: id !in ls[c]
    ensures var ls' := ls[b := Cut(ls[b], k)];
      && (forall b: nat, c: nat, id: nat | b < c < FUTEX_BUCKETS && id in ls'[b] :: id !in ls'[c])
      && Nowhere(ls', ls[b][k])
  {
    forall id: nat ensures id in Cut(ls[b], k) <==> id in ls[b] && id != ls[b][k] { CutIn(ls[b], k, id); }
    hide Cut;
    assert ls[b][k] in ls[b];
  }

  lemma UnlinkList(lk: Links, ls: seq<seq<nat>>, b: nat, k: nat, c: nat)
    requires Rep(lk, ls) && b < FUTEX_BUCKETS && k < |ls[b]| && c < FUTEX_BUCKETS && Joined(lk.nodes, ls[b][k])
    ensures ListRep(Unlink(lk, b, ls[b][k]), ls[b := Cut(ls[b], k)], c)
  {
    assert ListRep(lk, ls, b) && ListRep(lk, ls, c);
    NeighboursThere(lk.nodes, ls[b], k);
    var w := ls[b][k];
    if c == b {
      UnlinkedIs(lk.nodes, EndsOf(ls[b]), ls[b], k);
      CutEnds(ls[b], k);
    } else {
      forall u | u in ls[c] && u in lk.nodes
        ensures u in Unlinked(lk.nodes, w) && Unlinked(lk.nodes, w)[u] == lk.nodes[u]
      {
        Distinct(lk, ls, c, b, u);
        UnlinkedElse(lk.nodes, w, u);
      }
      Elsewhere(lk.nodes, Unlinked(lk.nodes, w), EndsOf(ls[c]), ls[c]);
    }
    hide IsList, Unlinked, Cut, Rep;
  }

  // ---------------------------------------------------------------- the walk of a wake

  /** wake_key: the walk along one bucket, which takes waiters out of the list it is walking. */
  method WakeList(lk0: Links, ghost bs: seq<seq<nat>>, ws: Waiters, key: Key, count: int, bitset: bv32)
    returns (lk: Links, sleepers: Waiters, woken: nat, ghost out: seq<nat>)
    requires Inv(bs, ws) && Rep(lk0, bs)
    ensures var b := Bucket(key); var (gone, list) := Pick(ws, bs[b], key, bitset, count);
      out == gone && Rep(lk, bs[b := list]) && sleepers == Woken(ws, gone) && woken == |gone|
  {
    hide Going, Woken, Wanted, Pick, Rep, Inv, Bucket, Unlink, NextOf, Cut, BucketInv, Linked;
    var b := Bucket(key);
    WalkStart(lk0, bs, ws, b, key, bitset, count);
    ghost var l, kept: seq<nat>, rest := bs[b], [], bs[b];
    lk, sleepers, woken, out := lk0, ws, 0, [];
    var w := lk.heads[b];
    while w.Some? && woken < count
      invariant Going(ws, l, key, bitset, count, out, kept, rest) && w == HeadOf(rest)
      invariant sleepers == Woken(ws, out) && woken == |out| && Rep(lk, bs[b := kept + rest])
      decreases |rest|
    {
      var id := w.value;
      GoingOn(ws, l, key, bitset, count, out, kept, rest);
      BucketHas(ws, l, b, id);
      WokenMore(ws, out, id);
      WakeOne(lk, bs, b, kept, rest);
      var next := lk.nodes[id].next;
      if Wanted(sleepers[id], key, bitset) {
        lk := Unlink(lk, b, id);
        sleepers := sleepers[id := sleepers[id].(woken := true)];
        out := out + [id];
        woken := woken + 1;
      } else {
        kept := kept + [id];
      }
      rest, w := rest[1..], next;
    }
    GoingDone(ws, l, key, bitset, count, out, kept, rest);
  }

  lemma WalkStart(lk: Links, bs: seq<seq<nat>>, ws: Waiters, b: nat, key: Key, bitset: bv32, n: int)
    requires Inv(bs, ws) && Rep(lk, bs) && b < FUTEX_BUCKETS
    ensures |lk.heads| == |bs| == FUTEX_BUCKETS
    ensures lk.heads[b] == HeadOf(bs[b]) && BucketInv(ws, bs[b], b)
    ensures Going(ws, bs[b], key, bitset, n, [], [], bs[b]) && Woken(ws, []) == ws && bs[b := [] + bs[b]] == bs
  {
    HeadIn(lk, bs, b);
    assert BucketInv(ws, bs[b], b);
    GoingStart(ws, bs[b], key, bitset, n);
    assert [] + bs[b] == bs[b];
    hide Going, Rep;
  }

  lemma BucketHas(ws: Waiters, l: seq<nat>, b: nat, id: nat)
    requires BucketInv(ws, l, b) && id in l
    ensures id in ws && !ws[id].woken && Linked(ws, id, b)
  {}

  /** The waiter looked at, and what the list is without it. */
  lemma WakeOne(lk: Links, bs: seq<seq<nat>>, b: nat, kept: seq<nat>, rest: seq<nat>)
    requires b < FUTEX_BUCKETS == |bs| && rest != [] && Rep(lk, bs[b := kept + rest])
    ensures |lk.heads| == FUTEX_BUCKETS && Joined(lk.nodes, rest[0]) && lk.nodes[rest[0]].next == HeadOf(rest[1..])
    ensures Rep(Unlink(lk, b, rest[0]), bs[b := kept + rest[1..]])
    ensures kept + [rest[0]] + rest[1..] == kept + rest
  {
    hide Rep, Unlink;
    CutMiddle(kept, rest);
    UnlinkKept(lk, bs[b := kept + rest], b, |kept|);
    assert bs[b := kept + rest][b := kept + rest[1..]] == bs[b := kept + rest[1..]];
  }

  /** The one looked at is where kept ends; without it the others follow in order. */
  lemma CutMiddle(kept: seq<nat>, rest: seq<nat>)
    requires rest != []
    ensures (kept + rest)[|kept|] == rest[0] && Cut(kept + rest, |kept|) == kept + rest[1..]
    ensures NextOf(kept + rest, |kept|) == HeadOf(rest[1..])
  {}

  function Reversed(l: seq<nat>): seq<nat> { if l == [] then [] else Reversed(l[1..]) + [l[0]] }

  lemma {:induction false} ReversedMore(l: seq<nat>, x: nat)
    ensures Reversed(l + [x]) == [x] + Reversed(l)
  {
    if l != [] {
      ReversedMore(l[1..], x);
      assert (l + [x])[1..] == l[1..] + [x];
    }
  }

  lemma {:induction false} ReversedIn(l: seq<nat>, x: nat)
    ensures x in Reversed(l) <==> x in l
  {
    if l != [] {
      ReversedIn(l[1..], x);
      assert l == [l[0]] + l[1..];
    }
  }

  lemma {:induction false} ReversedNoDup(l: seq<nat>)
    requires NoDup(l)
    ensures NoDup(Reversed(l))
  {
    if l != [] {
      ReversedNoDup(l[1..]);
      ReversedIn(l[1..], l[0]);
      assert l[0] !in l[1..];
    }
  }

  lemma AnyBit(w: Waiter, key: Key)
    requires w.bitset != 0
    ensures Wanted(w, key, MATCH_ANY) <==> w.key == key
  {}

  /** The walk of futex_requeue along the first key's bucket. A waiter that moves is taken out of the list being walked
      and linked in at the head of its new bucket, which may be the same list; the walk goes on with the one that came
      after it before. */
  method MoveList(lk0: Links, ghost bs: seq<seq<nat>>, ws: Waiters, key: Key, key2: Key, requeue: nat)
    returns (lk: Links, sleepers: Waiters, moved: nat, ghost out: seq<nat>)
    requires Inv(bs, ws) && Rep(lk0, bs)
    ensures var b := Bucket(key); var (gone, list) := Pick(ws, bs[b], key, MATCH_ANY, requeue);
      && out == gone && Rep(lk, Relinked(bs, b, Bucket(key2), Reversed(gone), list))
      && sleepers == Moved(ws, gone, key2) && moved == |gone|
  {
    hide Going, Moved, Wanted, Pick, Rep, Inv, Bucket, Unlink, Link, Relinked, Reversed, BucketInv, Linked;
    var b, b2 := Bucket(key), Bucket(key2);
    WalkStart(lk0, bs, ws, b, key, MATCH_ANY, requeue);
    ghost var l, kept: seq<nat>, rest := bs[b], [], bs[b];
    RelinkedStart(bs, b, b2, ws, key2);
    BitsSet(bs, ws);
    lk, sleepers, moved, out := lk0, ws, 0, [];
    var w := lk.heads[b];
    while w.Some? && moved < requeue
      invariant Going(ws, l, key, MATCH_ANY, requeue, out, kept, rest) && w == HeadOf(rest)
      invariant sleepers == Moved(ws, out, key2) && moved == |out|
      invariant Rep(lk, Relinked(bs, b, b2, Reversed(out), kept + rest))
      decreases |rest|
    {
      var id := w.value;
      GoingOn(ws, l, key, MATCH_ANY, requeue, out, kept, rest);
      BucketHas(ws, l, b, id);
      MovedMore(ws, out, key2, id);
      AnyBit(ws[id], key);
      NextHere(lk, bs, b, b2, Reversed(out), kept, rest);
      var next := lk.nodes[id].next;
      if sleepers[id].key == key {
        MoveOne(lk, bs, b, b2, out, kept, rest);
        lk := Link(Unlink(lk, b, id), b2, id);
        sleepers := sleepers[id := sleepers[id].(key := key2)];
        out := out + [id];
        moved := moved + 1;
      } else {
        kept := kept + [id];
      }
      rest, w := rest[1..], next;
    }
    GoingDone(ws, l, key, MATCH_ANY, requeue, out, kept, rest);
  }

  lemma BitsSet(bs: seq<seq<nat>>, ws: Waiters)
    requires Inv(bs, ws)
    ensures forall id | id in ws :: ws[id].bitset != 0
  {}

  lemma RelinkedStart(bs: seq<seq<nat>>, b: nat, b2: nat, ws: Waiters, key2: Key)
    requires b < |bs| && b2 < |bs|
    ensures Relinked(bs, b, b2, Reversed([]), [] + bs[b]) == bs && Moved(ws, [], key2) == ws
  {
    assert [] + bs[b2] == bs[b2] && [] + bs[b] == bs[b];
  }

  /** Where the walk is, in the list as it is by then. */
  function Passed(b: nat, b2: nat, front: seq<nat>, kept: seq<nat>): seq<nat> { if b == b2 then front + kept else kept }

  lemma RelinkedAt(bs: seq<seq<nat>>, b: nat, b2: nat, front: seq<nat>, kept: seq<nat>, rest: seq<nat>)
    requires b < |bs| && b2 < |bs|
    ensures Relinked(bs, b, b2, front, kept + rest)[b] == Passed(b, b2, front, kept) + rest
  {
    assert front + (kept + rest) == front + kept + rest;
  }

  lemma NextHere(lk: Links, bs: seq<seq<nat>>, b: nat, b2: nat, front: seq<nat>, kept: seq<nat>, rest: seq<nat>)
    requires b < |bs| == FUTEX_BUCKETS && b2 < |bs| && rest != [] && Rep(lk, Relinked(bs, b, b2, front, kept + rest))
    ensures Joined(lk.nodes, rest[0]) && lk.nodes[rest[0]].next == HeadOf(rest[1..]) && |lk.heads| == FUTEX_BUCKETS
    ensures kept + [rest[0]] + rest[1..] == kept + rest
  {
    hide Rep, Relinked;
    RelinkedAt(bs, b, b2, front, kept, rest);
    CutMiddle(Passed(b, b2, front, kept), rest);
    UnlinkKept(lk, Relinked(bs, b, b2, front, kept + rest), b, |Passed(b, b2, front, kept)|);
  }

  /** One waiter moves: out of where it is and in at the front of its new bucket. */
  lemma MoveOne(lk: Links, bs: seq<seq<nat>>, b: nat, b2: nat, out: seq<nat>, kept: seq<nat>, rest: seq<nat>)
    requires b < |bs| == FUTEX_BUCKETS && b2 < |bs| && rest != []
    requires Rep(lk, Relinked(bs, b, b2, Reversed(out), kept + rest)) && Joined(lk.nodes, rest[0])
      && |lk.heads| == FUTEX_BUCKETS
    ensures var mid := Unlink(lk, b, rest[0]);
      |mid.heads| == FUTEX_BUCKETS && (mid.heads[b2].Some? ==> mid.heads[b2].value in mid.nodes)
    ensures Rep(Link(Unlink(lk, b, rest[0]), b2, rest[0]),
      Relinked(bs, b, b2, Reversed(out + [rest[0]]), kept + rest[1..]))
  {
    hide Rep, Relinked, Reversed, Unlink, Link, Joined;
    var ls, at := Relinked(bs, b, b2, Reversed(out), kept + rest), Passed(b, b2, Reversed(out), kept);
    RelinkedAt(bs, b, b2, Reversed(out), kept, rest);
    CutMiddle(at, rest);
    UnlinkKept(lk, ls, b, |at|);
    RelinkedSize(bs, b, b2, Reversed(out), kept + rest);
    var ls1 := ls[b := at + rest[1..]];
    LinkKept(Unlink(lk, b, rest[0]), ls1, b2, rest[0]);
    ReversedMore(out, rest[0]);
    RelinkedNext(bs, b, b2, Reversed(out), kept, rest);
  }

  lemma RelinkedSize(bs: seq<seq<nat>>, b: nat, b2: nat, front: seq<nat>, list: seq<nat>)
    requires b < |bs| && b2 < |bs|
    ensures |Relinked(bs, b, b2, front, list)| == |bs|
  {}

  lemma RelinkedNext(bs: seq<seq<nat>>, b: nat, b2: nat, front: seq<nat>, kept: seq<nat>, rest: seq<nat>)
    requires b < |bs| && b2 < |bs| && rest != []
    ensures var ls1 := Relinked(bs, b, b2, front, kept + rest)[b := Passed(b, b2, front, kept) + rest[1..]];
      ls1[b2 := [rest[0]] + ls1[b2]] == Relinked(bs, b, b2, [rest[0]] + front, kept + rest[1..])
  {
    var ls1 := Relinked(bs, b, b2, front, kept + rest)[b := Passed(b, b2, front, kept) + rest[1..]];
    var ls2 := Relinked(bs, b, b2, [rest[0]] + front, kept + rest[1..]);
    if b == b2 {
      assert [rest[0]] + (front + kept + rest[1..]) == [rest[0]] + front + (kept + rest[1..]);
    } else {
      assert [rest[0]] + (front + bs[b2]) == [rest[0]] + front + bs[b2];
    }
    assert ls1[b2 := [rest[0]] + ls1[b2]] == ls2;
  }

  /** Picking sleepers of one key out of their bucket and marking them as woken keeps every list right. */
  lemma WakeKept(buckets: seq<seq<nat>>, ws: Waiters, key: Key, bitset: bv32, n: int)
    requires Inv(buckets, ws)
    ensures var b := Bucket(key); var (out, list) := Pick(ws, buckets[b], key, bitset, n);
      Inv(buckets[b := list], Woken(ws, out))
  {
    var b := Bucket(key);
    var (out, list) := Pick(ws, buckets[b], key, bitset, n);
    var ws' := Woken(ws, out);
    assert BucketInv(ws, buckets[b], b);
    PickNoDup(ws, buckets[b], key, bitset, n);
    forall id: nat
      ensures id in list <==> Linked(ws', id, b)
      ensures id in out ==> Linked(ws, id, b)
    {
      PickIn(ws, buckets[b], key, bitset, n, id);
    }
    forall c: nat | c < FUTEX_BUCKETS && c != b ensures BucketInv(ws', buckets[c], c) {
      assert BucketInv(ws, buckets[c], c);
    }
    hide Pick, Bucket;
  }

  /** The lists after waiters have moved from bucket b to the front of bucket b2. */
  function Relinked(buckets: seq<seq<nat>>, b: nat, b2: nat, front: seq<nat>, list: seq<nat>): seq<seq<nat>>
    requires b < |buckets| && b2 < |buckets|
  {
    var without := buckets[b := list];
    without[b2 := front + without[b2]]
  }

  /** Moving them loses nobody and puts nobody in two places, also when both keys share a bucket. */
  lemma MoveKept(buckets: seq<seq<nat>>, ws: Waiters, key: Key, key2: Key, n: int)
    requires Inv(buckets, ws)
    ensures var b := Bucket(key); var (out, list) := Pick(ws, buckets[b], key, MATCH_ANY, n);
      Inv(Relinked(buckets, b, Bucket(key2), Reversed(out), list), Moved(ws, out, key2))
  {
    var b, b2 := Bucket(key), Bucket(key2);
    var (out, list) := Pick(ws, buckets[b], key, MATCH_ANY, n);
    var ws' := Moved(ws, out, key2);
    var front := Reversed(out);
    var bs' := Relinked(buckets, b, b2, front, list);
    assert BucketInv(ws, buckets[b], b) && BucketInv(ws, buckets[b2], b2);
    PickNoDup(ws, buckets[b], key, MATCH_ANY, n);
    ReversedNoDup(out);
    forall id: nat
      ensures id in front <==> id in out
      ensures id in list <==> id in buckets[b] && id !in out
      ensures id in out ==> Linked(ws, id, b)
    {
      ReversedIn(out, id);
      PickIn(ws, buckets[b], key, MATCH_ANY, n, id);
    }
    forall c: nat | c < FUTEX_BUCKETS ensures BucketInv(ws', bs'[c], c) {
      assert BucketInv(ws, buckets[c], c);
      MovedBucket(buckets, ws, b, b2, out, list, key2, c);
    }
    hide Pick, Bucket, Reversed, BucketInv;
  }

  lemma MovedBucket(buckets: seq<seq<nat>>, ws: Waiters, b: nat, b2: nat, out: seq<nat>, list: seq<nat>, key2: Key,
                    c: nat)
    requires |buckets| == FUTEX_BUCKETS && b < FUTEX_BUCKETS && b2 == Bucket(key2) && c < FUTEX_BUCKETS
    requires BucketInv(ws, buckets[b], b) && BucketInv(ws, buckets[b2], b2) && BucketInv(ws, buckets[c], c)
    requires NoDup(Reversed(out)) && NoDup(list)
    requires forall id: nat :: id in Reversed(out) <==> id in out
    requires forall id: nat :: id in list <==> id in buckets[b] && id !in out
    requires forall id: nat | id in out :: Linked(ws, id, b)
    ensures BucketInv(Moved(ws, out, key2), Relinked(buckets, b, b2, Reversed(out), list)[c], c)
  {
    var ws' := Moved(ws, out, key2);
    var l := Relinked(buckets, b, b2, Reversed(out), list)[c];
    var rest := if c == b then list else buckets[c];
    assert l == if c == b2 then Reversed(out) + rest else rest;
    forall id: nat ensures id in l <==> Linked(ws', id, c) {}
    forall id: nat | id in out ensures id !in rest {
      assert c == b || !Linked(ws, id, c);
    }
    NoDupAppend(Reversed(out), rest);
    hide Bucket, Reversed;
  }

  /** futex_wait up to the point where it sleeps. */
  lemma EnterKept(buckets: seq<seq<nat>>, ws: Waiters, id: nat, key: Key, bitset: bv32)
    requires Inv(buckets, ws) && id !in ws && bitset != 0
    ensures Inv(buckets[Bucket(key) := [id] + buckets[Bucket(key)]], ws[id := Waiter(key, bitset, false)])
  {
    var b, ws' := Bucket(key), ws[id := Waiter(key, bitset, false)];
    forall c: nat | c < FUTEX_BUCKETS ensures BucketInv(ws', if c == b then [id] + buckets[c] else buckets[c], c) {
      assert BucketInv(ws, buckets[c], c);
      if c == b {
        assert !Linked(ws, id, b);
        NoDupAppend([id], buckets[b]);
      }
    }
    hide Bucket;
  }

  /** futex_wait after it slept: out of its bucket, which is that of its present key, unless it was woken. */
  lemma LeaveKept(buckets: seq<seq<nat>>, ws: Waiters, id: nat)
    requires Inv(buckets, ws) && id in ws
    ensures var b := Bucket(ws[id].key);
      Inv(if ws[id].woken then buckets else buckets[b := Without(buckets[b], [id])], ws - {id})
  {
    var b := Bucket(ws[id].key);
    var ws' := ws - {id};
    forall c: nat | c < FUTEX_BUCKETS
      ensures BucketInv(ws', if c == b && !ws[id].woken then Without(buckets[c], [id]) else buckets[c], c)
    {
      assert BucketInv(ws, buckets[c], c);
      if c == b && !ws[id].woken {
        WithoutNoDup(buckets[b], [id]);
        forall x: nat ensures x in Without(buckets[b], [id]) <==> Linked(ws', x, b) { WithoutIn(buckets[b], [id], x); }
      }
    }
    hide Bucket;
  }

  lemma {:induction false} WithoutIn(l: seq<nat>, out: seq<nat>, id: nat)
    ensures id in Without(l, out) <==> id in l && id !in out
  {
    if l != [] {
      WithoutIn(l[1..], out, id);
      assert l == [l[0]] + l[1..];
    }
  }

  lemma {:induction false} WithoutNoDup(l: seq<nat>, out: seq<nat>)
    requires NoDup(l)
    ensures NoDup(Without(l, out))
  {
    if l != [] {
      WithoutNoDup(l[1..], out);
      WithoutIn(l[1..], out, l[0]);
      assert l[0] !in l[1..];
    }
  }

  class Table {
    var links: Links
    var waiters: Waiters
    ghost var buckets: seq<seq<nat>>

    ghost predicate Valid()
      reads this
    {
      Inv(buckets, waiters) && Rep(links, buckets)
    }

    /** The first section of futex_wait: the value is compared and the waiter linked under one lock. */
    method Enter(id: nat, key: Key, bitset: bv32, same: bool) returns (asleep: bool)
      requires Valid() && id !in waiters
      modifies this
      ensures Valid() && (asleep <==> bitset != 0 && same)
      ensures waiters == if asleep then old(waiters)[id := Waiter(key, bitset, false)] else old(waiters)
      ensures buckets == if asleep then old(buckets)[Bucket(key) := [id] + old(buckets)[Bucket(key)]] else old(buckets)
    {
      if bitset == 0 || !same {
        return false;
      }
      var b := Bucket(key);
      forall c: nat | c < FUTEX_BUCKETS ensures id !in buckets[c] { assert BucketInv(waiters, buckets[c], c); }
      LinkKept(links, buckets, b, id);
      EnterKept(buckets, waiters, id, key, bitset);
      hide Rep, Inv, Bucket, Link;
      links := Link(links, b, id);
      waiters := waiters[id := Waiter(key, bitset, false)];
      buckets := buckets[b := [id] + buckets[b]];
      return true;
    }

    /** The second section of futex_wait; zero is what the wait returns if it was woken. */
    method Leave(id: nat) returns (zero: bool)
      requires Valid() && id in waiters
      modifies this
      ensures Valid() && waiters == old(waiters) - {id} && zero == old(waiters[id].woken)
      ensures var b := Bucket(old(waiters)[id].key);
        buckets == if zero then old(buckets) else old(buckets)[b := Without(old(buckets)[b], [id])]
    {
      zero := waiters[id].woken;
      LeaveKept(buckets, waiters, id);
      if !zero {
        var b := Bucket(waiters[id].key);
        assert BucketInv(waiters, buckets[b], b) && Linked(waiters, id, b);
        ghost var k :| 0 <= k < |buckets[b]| && buckets[b][k] == id;
        UnlinkKept(links, buckets, b, k);
        WithoutOne(buckets[b], k);
        hide Rep, Inv, Bucket, Unlink, Without, Cut;
        links := Unlink(links, b, id);
        buckets := buckets[b := Cut(buckets[b], k)];
      }
      waiters := waiters - {id};
    }

    /** wake_key */
    method Wake(key: Key, count: int, bitset: bv32) returns (woken: nat, ghost out: seq<nat>)
      requires Valid()
      modifies this
      ensures Valid() && woken == |out| && out == Pick(old(waiters), old(buckets)[Bucket(key)], key, bitset, count).0
      ensures Wakes(old(waiters), old(buckets)[Bucket(key)], key, bitset, count, out, waiters)
      ensures woken == 0 ==> waiters == old(waiters) && buckets == old(buckets)
      ensures waiters == Woken(old(waiters), out)
      ensures buckets == old(buckets)[Bucket(key) :=
        Pick(old(waiters), old(buckets)[Bucket(key)], key, bitset, count).1]
    {
      hide Bucket, Pick, Woken, Rep, Wakes;
      WakeKept(buckets, waiters, key, bitset, count);
      PickWakes(buckets, waiters, key, bitset, count);
      ghost var list := Pick(waiters, buckets[Bucket(key)], key, bitset, count).1;
      links, waiters, woken, out := WakeList(links, buckets, waiters, key, count, bitset);
      buckets := buckets[Bucket(key) := list];
    }

    /** futex_requeue past its checks: wake count waiters on key, then relink at most requeue others under key2. */
    method Requeue(key: Key, key2: Key, count: int, requeue: nat)
      returns (n: nat, ghost woken: seq<nat>, ghost moved: seq<nat>)
      requires Valid()
      modifies this
      ensures Valid() && n == |woken| + |moved| && |moved| <= requeue
      ensures woken == Pick(old(waiters), old(buckets)[Bucket(key)], key, MATCH_ANY, count).0
      ensures var ws, list :=
        Woken(old(waiters), woken), Pick(old(waiters), old(buckets)[Bucket(key)], key, MATCH_ANY, count).1;
        && Wakes(old(waiters), old(buckets)[Bucket(key)], key, MATCH_ANY, count, woken, ws)
        && Requeues(ws, list, key, key2, requeue, moved, waiters)
        && moved == Pick(ws, list, key, MATCH_ANY, requeue).0 && waiters == Moved(ws, moved, key2)
    {
      hide Bucket, Pick, Woken, Moved, Rep, Wakes, Requeues;
      var done, gone := Wake(key, count, MATCH_ANY);
      MoveKept(buckets, waiters, key, key2, requeue);
      PickMoves(buckets, waiters, key, key2, requeue);
      PickIn(waiters, buckets[Bucket(key)], key, MATCH_ANY, requeue, 0);
      ghost var list := Pick(waiters, buckets[Bucket(key)], key, MATCH_ANY, requeue).1;
      var m;
      links, waiters, m, moved := MoveList(links, buckets, waiters, key, key2, requeue);
      buckets := Relinked(buckets, Bucket(key), Bucket(key2), Reversed(moved), list);
      return done + m, gone, moved;
    }
  }

  lemma WithoutOne(l: seq<nat>, k: nat)
    requires NoDup(l) && k < |l|
    ensures Without(l, [l[k]]) == Cut(l, k)
    decreases k
  {
    if k == 0 {
      WithoutAbsent(l[1..], l[0]);
      assert Cut(l, 0) == l[1..];
    } else {
      WithoutOne(l[1..], k - 1);
      assert Cut(l, k) == [l[0]] + Cut(l[1..], k - 1);
    }
  }

  lemma {:induction false} WithoutAbsent(l: seq<nat>, x: nat)
    requires x !in l
    ensures Without(l, [x]) == l
  {
    if l != [] {
      WithoutAbsent(l[1..], x);
    }
  }

  // ---------------------------------------------------------------- runs

  datatype Op =
    | Enter(id: nat, key: Key, bitset: bv32)
    | Leave(id: nat)
    | Wake(key: Key, count: int, bitset: bv32)
    | Requeue(key: Key, key2: Key, count: int, requeue: nat)

  /** The table, everyone ever counted by a wake in the order they were, the sum of what wakes have counted, the waits
      that have returned zero and all waits there have been. */
  datatype World = World(buckets: seq<seq<nat>>, ws: Waiters, counted: seq<nat>, total: nat, zeros: set<nat>,
                         ever: set<nat>)

  ghost predicate Allowed(w: World, op: Op) {
    match op
    case Enter(id, _, bitset) => id !in w.ever && bitset != 0
    case Leave(id) => id in w.ws
    case _ => true
  }

  function WakeIn(w: World, key: Key, count: int, bitset: bv32): World
    requires |w.buckets| == FUTEX_BUCKETS
  {
    var b := Bucket(key);
    var (out, list) := Pick(w.ws, w.buckets[b], key, bitset, count);
    w.(buckets := w.buckets[b := list], ws := Woken(w.ws, out), counted := w.counted + out, total := w.total + |out|)
  }

  function MoveIn(w: World, key: Key, key2: Key, n: nat): World
    requires |w.buckets| == FUTEX_BUCKETS
  {
    var b := Bucket(key);
    var (out, list) := Pick(w.ws, w.buckets[b], key, MATCH_ANY, n);
    w.(buckets := Relinked(w.buckets, b, Bucket(key2), Reversed(out), list), ws := Moved(w.ws, out, key2))
  }

  ghost function Do(w: World, op: Op): World
    requires |w.buckets| == FUTEX_BUCKETS && Allowed(w, op)
  {
    match op
    case Enter(id, key, bitset) =>
      w.(buckets := w.buckets[Bucket(key) := [id] + w.buckets[Bucket(key)]],
         ws := w.ws[id := Waiter(key, bitset, false)],
         ever := w.ever + {id})
    case Leave(id) =>
      var b := Bucket(w.ws[id].key);
      if w.ws[id].woken then w.(ws := w.ws - {id}, zeros := w.zeros + {id})
      else w.(ws := w.ws - {id}, buckets := w.buckets[b := Without(w.buckets[b], [id])])
    case Wake(key, count, bitset) => WakeIn(w, key, count, bitset)
    case Requeue(key, key2, count, n) => MoveIn(WakeIn(w, key, count, MATCH_ANY), key, key2, n)
  }

  /** Everyone counted is a waiter that is awake but has not returned, or a wait that returned zero, and was counted
      once; nobody else is awake or returned zero. */
  ghost predicate Conserved(w: World) {
    && Inv(w.buckets, w.ws) && NoDup(w.counted) && w.total == |w.counted|
    && w.ws.Keys !! w.zeros && w.ws.Keys + w.zeros <= w.ever
    && forall id: nat :: id in w.counted <==> id in w.zeros || (id in w.ws && w.ws[id].woken)
  }

  lemma WakeConserves(w: World, key: Key, count: int, bitset: bv32)
    requires Conserved(w)
    ensures Conserved(WakeIn(w, key, count, bitset))
  {
    var b := Bucket(key);
    var (out, list) := Pick(w.ws, w.buckets[b], key, bitset, count);
    WakeKept(w.buckets, w.ws, key, bitset, count);
    assert BucketInv(w.ws, w.buckets[b], b);
    PickNoDup(w.ws, w.buckets[b], key, bitset, count);
    forall id: nat | id in out ensures Linked(w.ws, id, b) { PickIn(w.ws, w.buckets[b], key, bitset, count, id); }
    NoDupAppend(w.counted, out);
    hide Bucket, Pick;
  }

  lemma MoveConserves(w: World, key: Key, key2: Key, n: nat)
    requires Conserved(w)
    ensures Conserved(MoveIn(w, key, key2, n))
  {
    MoveKept(w.buckets, w.ws, key, key2, n);
    hide Bucket, Pick, Reversed, Relinked;
  }

  lemma StepConserves(w: World, op: Op)
    requires Conserved(w) && Allowed(w, op)
    ensures Conserved(Do(w, op))
  {
    match op
    case Enter(id, key, bitset) => EnterKept(w.buckets, w.ws, id, key, bitset);
    case Leave(id) => LeaveKept(w.buckets, w.ws, id);
    case Wake(key, count, bitset) => WakeConserves(w, key, count, bitset);
    case Requeue(key, key2, count, n) =>
      WakeConserves(w, key, count, MATCH_ANY);
      MoveConserves(WakeIn(w, key, count, MATCH_ANY), key, key2, n);
  }

  lemma ConservedSize(w: World)
    requires Conserved(w)
    ensures |w.buckets| == FUTEX_BUCKETS
  {}

  ghost predicate Can(w: World, ops: seq<Op>)
    requires Conserved(w)
    decreases |ops|
  {
    ops == [] || (Allowed(w, ops[0]) && (ConservedSize(w); StepConserves(w, ops[0]); Can(Do(w, ops[0]), ops[1..])))
  }

  ghost function After(w: World, ops: seq<Op>): World
    requires Conserved(w) && Can(w, ops)
    decreases |ops|
  {
    if ops == [] then w else (ConservedSize(w); StepConserves(w, ops[0]); After(Do(w, ops[0]), ops[1..]))
  }

  lemma {:induction false} RunConserves(w: World, ops: seq<Op>)
    requires Conserved(w) && Can(w, ops)
    ensures Conserved(After(w, ops))
    decreases |ops|
  {
    hide Conserved, Do;
    if ops != [] {
      ConservedSize(w);
      StepConserves(w, ops[0]);
      RunConserves(Do(w, ops[0]), ops[1..]);
    }
  }

  /** An empty table. */
  ghost predicate Init(w: World) {
    && |w.buckets| == FUTEX_BUCKETS && (forall b | 0 <= b < FUTEX_BUCKETS :: w.buckets[b] == [])
    && w.ws == map[] && w.counted == [] && w.total == 0 && w.zeros == {}
  }

  lemma InitConserved(w: World)
    requires Init(w)
    ensures Conserved(w)
  {
    forall b: nat | b < FUTEX_BUCKETS ensures BucketInv(w.ws, w.buckets[b], b) {}
  }

  /** A run that starts with an empty table. */
  ghost predicate CanFrom(w: World, ops: seq<Op>) { Init(w) && (InitConserved(w); Can(w, ops)) }

  /** Over every run of waits, wakes, requeues, timeouts and signals: each sleeping waiter is in exactly the bucket of
      its present key, once, and in no other; each wait that returned zero was counted by a wake, once; and the wakes
      have counted no more than those and the ones about to return. */
  lemma Conservation(w: World, ops: seq<Op>, id: nat, b: nat)
    requires CanFrom(w, ops) && b < FUTEX_BUCKETS
    ensures Conserved(w)
    ensures var r := After(w, ops);
      && |r.buckets| == FUTEX_BUCKETS && r.total == |r.counted| && NoDup(r.counted)
      && (id in r.zeros ==> id in r.counted)
      && (id in r.counted ==> id in r.zeros || (id in r.ws && r.ws[id].woken))
      && NoDup(r.buckets[b]) && (id in r.buckets[b] <==> Linked(r.ws, id, b))
  {
    InitConserved(w);
    RunConserves(w, ops);
    var r := After(w, ops);
    assert BucketInv(r.ws, r.buckets[b], b);
    hide Do, Bucket;
  }
}
