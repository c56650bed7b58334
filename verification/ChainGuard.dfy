/** The guard against looping cluster chains, an instance of Brent's algorithm (kernel/include/fs/chain_guard.h), and a
    walk that it stops (kernel/src/fs/fat32/fat32.c). */
module ChainGuard {
  import opened Collections

  const TOP: nat := 0x8000_0000        // where power stops doubling
  const TWO32: nat := 0x1_0000_0000

  type u32 = n: nat | n < TWO32

  datatype Mark = Mark(mark: u32, power: u32, len: u32)

  type Chain = nat -> u32              // the k-th cluster of a chain

  class Guard {
    var mark: u32
    var power: u32
    var len: u32

    ghost function State(): Mark
      reads this
    {
      Mark(mark, power, len)
    }

    /** chain_guard_init */
    constructor (first: u32)
      ensures State() == Start(first)
    {
      mark, power, len := first, 1, 0;
    }

    /** chain_guard_step: false if next is the cluster marked. The counters never wrap. */
    method Step(next: u32) returns (ok: bool)
      requires Sound(State())
      modifies this
      ensures ok <==> next != old(mark)
      ensures State() == if ok then Advance(old(State()), next) else old(State())
      ensures Sound(State())
    {
      if next == mark {
        return false;
      }
      Doubled(power);
      len := len + 1;
      if len == power {
        mark := next;
        power := if power < TOP then power * 2 else power;
        len := 0;
      }
      return true;
    }
  }

  predicate Sound(g: Mark) { g.len < g.power <= TOP && PowerOfTwo(g.power) }

  function Start(first: u32): Mark { Mark(first, 1, 0) }

  function Double(power: nat): nat { if power < TOP then power * 2 else power }

  function Advance(g: Mark, next: u32): Mark
    requires Sound(g)
  {
    if g.len + 1 == g.power then Mark(next, if g.power < TOP then g.power * 2 else g.power, 0) else g.(len := g.len + 1)
  }

  // ---------------------------------------------------------------- when marks are set

  /** After k steps: where the mark was set, and power. Both depend on k alone. */
  function Clock(k: nat): (r: (nat, nat)) {
    if k == 0 then (0, 1)
    else
      var (pos, power) := Clock(k - 1);
      if k - pos == power then (k, Double(power)) else (pos, power)
  }

  predicate PowerOfTwo(n: nat) {
    n == 1 || (n > 1 && n % 2 == 0 && PowerOfTwo(n / 2))
  }

  function Exp(n: nat): nat { if n == 0 then 1 else 2 * Exp(n - 1) }

  /** A power of two below another is at most half of it. */
  lemma {:induction false} BelowExp(n: nat, e: nat)
    requires PowerOfTwo(n) && n < Exp(e)
    ensures 2 * n <= Exp(e)
  {
    if n > 1 && e > 0 {
      BelowExp(n / 2, e - 1);
    }
  }

  lemma Exp4(n: nat)
    ensures Exp(n + 4) == 16 * Exp(n)
  {
    assert Exp(n + 2) == 4 * Exp(n);
    assert Exp(n + 2 + 2) == 4 * Exp(n + 2);
  }

  lemma ExpTop()
    ensures Exp(31) == TOP
  {
    assert Exp(3) == 8;
    Exp4(3);
    Exp4(7);
    Exp4(11);
    Exp4(15);
    Exp4(19);
    Exp4(23);
    Exp4(27);
  }

  lemma Doubled(power: nat)
    requires PowerOfTwo(power) && power <= TOP
    ensures PowerOfTwo(Double(power)) && Double(power) <= TOP
  {
    ExpTop();
    if power < TOP {
      BelowExp(power, 31);
      assert (power * 2) / 2 == power;
    }
  }

  /** The mark is less than power steps back; until power stops doubling it sits at power - 1. */
  lemma {:induction false} ClockIs(k: nat)
    ensures var (pos, power) := Clock(k);
      pos <= k < pos + power && power <= TOP && PowerOfTwo(power) && pos + 1 >= power
        && (power < TOP ==> pos + 1 == power)
  {
    if k > 0 {
      ClockIs(k - 1);
      Doubled(Clock(k - 1).1);
    }
  }

  predicate Set(t: nat, power: nat) { Clock(t) == (t, power) }

  lemma {:induction false} ClockStays(t: nat, power: nat, i: nat)
    requires Set(t, power) && i < power
    ensures Clock(t + i) == (t, power)
  {
    if i > 0 {
      ClockStays(t, power, i - 1);
      assert Clock(t + i) == if t + i - t == power then (t + i, Double(power)) else (t, power);
    }
  }

  lemma SetAgain(t: nat, power: nat)
    requires Set(t, power) && power > 0
    ensures Set(t + power, Double(power))
  {
    ClockStays(t, power, power - 1);
    assert Clock(t + power - 1) == (t, power);
    assert Clock(t + power) == (t + power, Double(power));
  }

  /** A mark is set at or after step m, with power at least p, early enough. */
  lemma {:induction false} MarkInTime(m: nat, p: nat, t: nat, power: nat) returns (t': nat, power': nat)
    requires 1 <= p <= TOP && Set(t, power) && t + p <= 3 * (m + p)
    ensures Set(t', power') && m <= t' && p <= power' && t' + p <= 3 * (m + p)
    decreases if t < m then m - t else 0, TOP - power
  {
    ClockIs(t);
    if m <= t && p <= power {
      t', power' := t, power;
    } else {
      SetAgain(t, power);
      Doubled(power);
      t', power' := MarkInTime(m, p, t + power, Double(power));
    }
  }

  // ---------------------------------------------------------------- chains

  /** The guard after k steps along the chain. */
  ghost function After(c: Chain, k: nat): (g: Mark)
    ensures Sound(g)
  {
    if k == 0 then Start(c(0))
    else
      var g := After(c, k - 1);
      Doubled(g.power);
      if c(k) == g.mark then g else Advance(g, c(k))
  }

  /** Step k, the one to cluster c(k), returns false. */
  ghost predicate Fires(c: Chain, k: nat) { k > 0 && c(k) == After(c, k - 1).mark }

  lemma {:induction false} AfterIs(c: Chain, k: nat)
    requires forall i | 0 <= i <= k :: !Fires(c, i)
    ensures var (pos, power) := Clock(k);
      pos <= k && After(c, k).mark == c(pos) && After(c, k).power == power
      && After(c, k).len == k - pos
  {
    ClockIs(k);
    if k > 0 {
      AfterIs(c, k - 1);
      ClockIs(k - 1);
      assert !Fires(c, k);
    }
  }

  /** A step returns false only for a cluster the chain has been to. */
  lemma OnlyRepeats(c: Chain, k: nat)
    requires Fires(c, k) && forall i | 0 <= i < k :: !Fires(c, i)
    ensures exists j :: 0 <= j < k && c(j) == c(k)
  {
    AfterIs(c, k - 1);
    assert c(Clock(k - 1).0) == c(k);
  }

  /** The first n clusters are all different. */
  ghost predicate Distinct(c: Chain, n: nat) {
    forall i, j | 0 <= i < j < n :: c(i) != c(j)
  }

  /** On a chain of distinct clusters no step returns false. */
  lemma {:induction false} NoFalseAlarm(c: Chain, n: nat)
    requires Distinct(c, n + 1)
    ensures forall k | 0 <= k <= n :: !Fires(c, k)
  {
    if n > 0 {
      NoFalseAlarm(c, n - 1);
      if Fires(c, n) {
        OnlyRepeats(c, n);
      }
    }
  }

  /** After m clusters the chain repeats every p. */
  ghost predicate Periodic(c: Chain, m: nat, p: nat) {
    p > 0 && forall i: nat | m <= i :: c(i + p) == c(i)
  }

  ghost predicate FiresBy(c: Chain, n: nat) { exists k :: 0 <= k <= n && Fires(c, k) }

  /** A chain with a tail of m clusters and a period of p is stopped within 3(m + p) steps. */
  lemma Caught(c: Chain, m: nat, p: nat)
    requires Periodic(c, m, p) && p <= TOP
    ensures FiresBy(c, 3 * (m + p))
  {
    var t, power := MarkInTime(m, p, 0, 1);
    if forall i | 0 <= i <= t + p - 1 :: !Fires(c, i) {
      ClockStays(t, power, p - 1);
      AfterIs(c, t + p - 1);
      assert c(t + p) == c(t);
      assert Fires(c, t + p);
    }
  }

  lemma {:induction false} Laps(c: Chain, m: nat, p: nat, i: nat, n: nat)
    requires Periodic(c, m, p) && m <= i
    ensures c(i + n * p) == c(i)
  {
    if n > 0 {
      Laps(c, m, p, i, n - 1);
      assert i + n * p == (i + (n - 1) * p) + p;
    }
  }

  /** A chain whose first m + p clusters are distinct and that then repeats is caught if and only if the period is
      at most 2^31. */
  lemma CaughtExactly(c: Chain, m: nat, p: nat)
    requires Periodic(c, m, p) && Distinct(c, m + p)
    ensures (exists k: nat :: Fires(c, k)) <==> p <= TOP
  {
    if p <= TOP {
      Caught(c, m, p);
      var k :| 0 <= k <= 3 * (m + p) && Fires(c, k);
      var n: nat := k;
      assert Fires(c, n);
    } else {
      forall k: nat ensures !Fires(c, k) { NeverCaught(c, m, p, k); }
    }
  }

  /** Two places less than a period apart hold different clusters. */
  lemma Different(c: Chain, m: nat, p: nat, i: nat, j: nat)
    requires Periodic(c, m, p) && Distinct(c, m + p)
    requires i < j < i + p
    ensures c(i) != c(j)
  {
    var a, b := Fold(m, p, i), Fold(m, p, j);
    Folded(c, m, p, i);
    Folded(c, m, p, j);
    assert a != b by { FoldApart(m, p, i, j); }
  }

  /** The first place with the same cluster. */
  function Fold(m: nat, p: nat, i: nat): nat
    requires p > 0
  {
    if i < m then i else m + (i - m) % p
  }

  lemma Folded(c: Chain, m: nat, p: nat, i: nat)
    requires Periodic(c, m, p)
    ensures Fold(m, p, i) < m + p && c(Fold(m, p, i)) == c(i)
  {
    if i >= m {
      Laps(c, m, p, Fold(m, p, i), (i - m) / p);
      assert Fold(m, p, i) + (i - m) / p * p == i;
    }
  }

  lemma FoldApart(m: nat, p: nat, i: nat, j: nat)
    requires p > 0 && i < j < i + p
    ensures Fold(m, p, i) != Fold(m, p, j)
  {
    if i >= m {
      var x, y := i - m, j - m;
      if x % p == y % p {
        assert y - x == (y / p - x / p) * p;
        MultipleGap(y / p - x / p, p);
        assert false;
      }
    }
  }

  lemma MultipleGap(n: int, p: nat)
    requires p > 0
    ensures n * p <= 0 || n * p >= p
  {
    if n >= 1 {
      assert n * p == p + (n - 1) * p && (n - 1) * p >= 0;
    }
  }

  lemma {:induction false} NeverCaught(c: Chain, m: nat, p: nat, k: nat)
    requires Periodic(c, m, p) && p > TOP && Distinct(c, m + p)
    ensures !Fires(c, k) && forall i | 0 <= i <= k :: !Fires(c, i)
  {
    hide Periodic, After, Clock, PowerOfTwo, Distinct;
    if k > 0 {
      NeverCaught(c, m, p, k - 1);
      AfterIs(c, k - 1);
      ClockIs(k - 1);
      Different(c, m, p, Clock(k - 1).0, k);
    }
  }

  // ---------------------------------------------------------------- walking a file allocation table

  /** fat[x] is the cluster after x; there are |fat| - 2 clusters, numbered from 2. */
  predicate Ok(fat: seq<u32>, x: u32) { 2 <= x < |fat| }

  ghost function Follow(fat: seq<u32>, first: u32, k: nat): u32 {
    if k == 0 then first
    else
      var x := Follow(fat, first, k - 1);
      if Ok(fat, x) then fat[x] else x
  }

  ghost function ChainOf(fat: seq<u32>, first: u32): Chain { k => Follow(fat, first, k) }

  /** The chain leaves the clusters after n of them. */
  ghost predicate EndsAt(fat: seq<u32>, first: u32, n: nat) {
    !Ok(fat, Follow(fat, first, n)) && forall i | 0 <= i < n :: Ok(fat, Follow(fat, first, i))
  }

  ghost predicate AllOk(fat: seq<u32>, first: u32, n: nat) {
    forall i | 0 <= i < n :: Ok(fat, Follow(fat, first, i))
  }

  /** Once at a cluster it has been to, a chain goes round for ever. */
  lemma {:induction false} GoesRound(fat: seq<u32>, first: u32, i: nat, j: nat, k: nat)
    requires i < j && Follow(fat, first, i) == Follow(fat, first, j)
    ensures Follow(fat, first, i + k) == Follow(fat, first, j + k)
  {
    if k > 0 {
      GoesRound(fat, first, i, j, k - 1);
    }
  }

  lemma RoundIsPeriodic(fat: seq<u32>, first: u32, i: nat, j: nat)
    requires i < j && Follow(fat, first, i) == Follow(fat, first, j)
    ensures Periodic(ChainOf(fat, first), i, j - i)
  {
    forall k: nat | i <= k ensures Follow(fat, first, k + (j - i)) == Follow(fat, first, k) {
      GoesRound(fat, first, i, j, k - i);
    }
  }

  lemma {:induction false} StaysOk(fat: seq<u32>, first: u32, i: nat, j: nat, k: nat)
    requires i < j && Follow(fat, first, i) == Follow(fat, first, j) && AllOk(fat, first, j)
    ensures Ok(fat, Follow(fat, first, k))
  {
    if k >= j {
      GoesRound(fat, first, i, j, k - j);
      StaysOk(fat, first, i, j, i + (k - j));
    }
  }

  ghost predicate At(fat: seq<u32>, first: u32, n: nat, x: int) {
    exists i :: 0 <= i < n && Follow(fat, first, i) == x
  }

  /** Among n clusters one occurs twice, or there are n of them. */
  lemma {:induction false} Repeats(fat: seq<u32>, first: u32, n: nat) returns (i: nat, j: nat, seen: set<int>)
    requires AllOk(fat, first, n)
    ensures (i < j < n && Follow(fat, first, i) == Follow(fat, first, j)) || |seen| == n
    ensures forall x | x in seen :: At(fat, first, n, x) && 2 <= x < |fat|
  {
    i, j, seen := 0, 0, {};
    if n > 0 {
      i, j, seen := Repeats(fat, first, n - 1);
      assert forall x | At(fat, first, n - 1, x) :: At(fat, first, n, x);
      var last := Follow(fat, first, n - 1);
      if last in seen {
        assert At(fat, first, n - 1, last);
        i :| 0 <= i < n - 1 && Follow(fat, first, i) == last;
        j := n - 1;
      } else {
        assert At(fat, first, n, last);
        seen := seen + {last};
      }
    }
  }

  /** As many clusters as the table has, and one more: the chain goes round. */
  lemma MustRepeat(fat: seq<u32>, first: u32) returns (i: nat, j: nat)
    requires |fat| >= 2 && AllOk(fat, first, |fat| - 1)
    ensures i < j < |fat| - 1 && Follow(fat, first, i) == Follow(fat, first, j)
  {
    var seen;
    i, j, seen := Repeats(fat, first, |fat| - 1);
    assert |seen + {0, 1}| == |seen| + 2;
    SubsetSize(seen + {0, 1}, Below(|fat|));
  }

  /** The walk can go no further than this without the guard having stopped it. */
  lemma Bounded(fat: seq<u32>, first: u32, k: nat)
    requires 2 <= |fat| <= TOP && AllOk(fat, first, k) && forall i | 0 <= i <= k :: !Fires(ChainOf(fat, first), i)
    ensures k < 3 * |fat|
  {
    if k >= 3 * |fat| {
      var i, j := MustRepeat(fat, first);
      RoundIsPeriodic(fat, first, i, j);
      Caught(ChainOf(fat, first), i, j - i);
    }
  }

  /** If the guard stops the walk the chain never ends. */
  lemma StoppedIsLooped(fat: seq<u32>, first: u32, k: nat, n: nat)
    requires AllOk(fat, first, k) && Fires(ChainOf(fat, first), k) && forall i | 0 <= i < k ::
      !Fires(ChainOf(fat, first), i)
    ensures !EndsAt(fat, first, n)
  {
    OnlyRepeats(ChainOf(fat, first), k);
    var j :| 0 <= j < k && ChainOf(fat, first)(j) == ChainOf(fat, first)(k);
    StaysOk(fat, first, j, k, n);
  }

  /** The first k steps all return true. */
  ghost predicate Quiet(c: Chain, k: nat) { forall i | 0 <= i <= k :: !Fires(c, i) }

  /** The clusters visited are the first ones of the chain, and all of them are clusters. */
  ghost predicate Trail(fat: seq<u32>, first: u32, visited: seq<u32>) {
    AllOk(fat, first, |visited|) && forall i | 0 <= i < |visited| :: visited[i] == Follow(fat, first, i)
  }

  lemma TrailGrows(fat: seq<u32>, first: u32, visited: seq<u32>, x: u32)
    requires Trail(fat, first, visited) && x == Follow(fat, first, |visited|) && Ok(fat, x)
    ensures Trail(fat, first, visited + [x]) && Follow(fat, first, |visited| + 1) == fat[x]
  {}

  lemma Looped(fat: seq<u32>, first: u32, visited: seq<u32>)
    requires Trail(fat, first, visited) && visited != [] && Quiet(ChainOf(fat, first), |visited| - 1)
    requires Fires(ChainOf(fat, first), |visited|)
    ensures forall n: nat :: !EndsAt(fat, first, n)
  {
    forall n: nat ensures !EndsAt(fat, first, n) { StoppedIsLooped(fat, first, |visited|, n); }
  }

  /** Where a new directory entry goes: a free place in a cluster, or a cluster to be added after the last one. */
  datatype Place = Slot(cluster: u32) | Grow(last: u32) | Broken

  /** The walk of fat32_create_entry along a directory, spare being the clusters with a free entry. It always comes to
      an end, stops at the first cluster with a free entry, and reports an error only if the chain never ends; in a
      directory without one it does so exactly then, and else has been to every cluster of the chain once, in order. */
  method Walk(fat: seq<u32>, first: u32, spare: set<u32>) returns (r: Place, visited: seq<u32>)
    requires 2 <= |fat| <= TOP
    ensures forall i | 0 <= i < |visited| :: visited[i] == Follow(fat, first, i)
    ensures r == Broken ==> forall n: nat :: !EndsAt(fat, first, n)
    ensures r.Slot? ==> AllOk(fat, first, |visited|) && FirstIn(visited, spare) && r.cluster == visited[|visited| - 1]
    ensures r.Grow? ==> EndsAt(fat, first, |visited|) && NoneIn(visited, spare)
    ensures r.Grow? ==> r.last == if visited == [] then 0 else visited[|visited| - 1]
    ensures r.Grow? ==> forall i, j | 0 <= i < j < |visited| :: visited[i] != visited[j]
    ensures NoSpare(fat, first, spare) ==> (r.Grow? <==> exists n: nat :: EndsAt(fat, first, n))
  {
    hide Sound, Start, After, Advance, Follow, ChainOf, EndsAt, NoneIn, FirstIn, AllOk, NoSpare, Walked;
    ghost var c := ChainOf(fat, first);
    var cluster, prev, found := first, 0, false;
    var guard := new Guard(cluster);
    visited := [];
    WalkedNone(fat, first, spare);
    while Ok(fat, cluster) && !found
      invariant Walked(fat, first, spare, visited, cluster, found)
      invariant guard.State() == After(c, |visited|) && fresh(guard)
      invariant prev == if visited == [] then 0 else visited[|visited| - 1]
      decreases 3 * |fat| - |visited|
    {
      WalkedOn(fat, first, spare, visited, cluster);
      found := cluster in spare;
      visited, prev := visited + [cluster], cluster;
      cluster := fat[cluster];
      var going := guard.Step(cluster);
      if !going {
        return Broken, visited;
      }
    }
    WalkedAll(fat, first, spare, visited, cluster, found);
    return if found then Slot(prev) else Grow(prev), visited;
  }

  /** Where the walk is before it looks at a cluster, if it has not found a free entry in the last one. */
  ghost predicate Walked(fat: seq<u32>, first: u32, spare: set<u32>, visited: seq<u32>, cluster: u32, found: bool) {
    && cluster == Follow(fat, first, |visited|) && Trail(fat, first, visited)
    && Quiet(ChainOf(fat, first), |visited|) && if found then FirstIn(visited, spare) else NoneIn(visited, spare)
  }

  lemma WalkedNone(fat: seq<u32>, first: u32, spare: set<u32>)
    ensures Walked(fat, first, spare, [], first, false) && Start(first) == After(ChainOf(fat, first), 0)
  {}

  lemma WalkedOn(fat: seq<u32>, first: u32, spare: set<u32>, visited: seq<u32>, x: u32)
    requires 2 <= |fat| <= TOP && Walked(fat, first, spare, visited, x, false) && Ok(fat, x)
    ensures |visited| < 3 * |fat|
    ensures var c, k, l := ChainOf(fat, first), |visited|, visited + [x];
      && Sound(After(c, k))
      && (fat[x] != After(c, k).mark ==> After(c, k + 1) == Advance(After(c, k), fat[x])
                                         && Walked(fat, first, spare, l, fat[x], x in spare))
      && (fat[x] == After(c, k).mark ==> forall n: nat :: !EndsAt(fat, first, n))
      && forall i | 0 <= i < |l| :: l[i] == Follow(fat, first, i)
  {
    var c, k, l := ChainOf(fat, first), |visited|, visited + [x];
    InTime(fat, first, visited);
    AfterStep(c, k);
    TrailGrows(fat, first, visited, x);
    Looked(visited, x, spare);
    TrailIs(fat, first, l);
    hide Trail, Quiet, After, Advance, Fires, NoneIn, FirstIn, Follow, EndsAt, AllOk;
    if fat[x] == After(c, k).mark {
      Looped(fat, first, l);
    }
  }

  lemma WalkedAll(fat: seq<u32>, first: u32, spare: set<u32>, visited: seq<u32>, cluster: u32, found: bool)
    requires Walked(fat, first, spare, visited, cluster, found) && (found || !Ok(fat, cluster))
    ensures forall i | 0 <= i < |visited| :: visited[i] == Follow(fat, first, i)
    ensures found ==> visited != [] && AllOk(fat, first, |visited|) && FirstIn(visited, spare)
    ensures found ==> !NoSpare(fat, first, spare)
    ensures !found ==> EndsAt(fat, first, |visited|) && NoneIn(visited, spare)
    ensures !found ==> forall i, j | 0 <= i < j < |visited| :: visited[i] != visited[j]
  {
    TrailIs(fat, first, visited);
    if found {
      FoundSpare(fat, first, spare, visited);
    } else {
      Arrived(fat, first, visited);
    }
    hide Trail, Quiet, NoneIn, Follow, EndsAt, AllOk, NoSpare;
  }

  /** No cluster of the chain has a free entry. */
  ghost predicate NoSpare(fat: seq<u32>, first: u32, spare: set<u32>) {
    forall i: nat :: Follow(fat, first, i) !in spare
  }

  lemma FoundSpare(fat: seq<u32>, first: u32, spare: set<u32>, visited: seq<u32>)
    requires Trail(fat, first, visited) && FirstIn(visited, spare)
    ensures !NoSpare(fat, first, spare)
  {
    assert visited[|visited| - 1] == Follow(fat, first, |visited| - 1);
  }

  predicate NoneIn(visited: seq<u32>, spare: set<u32>) { forall i | 0 <= i < |visited| :: visited[i] !in spare }

  /** The last one is in the set, and none before it. */
  predicate FirstIn(visited: seq<u32>, spare: set<u32>) {
    visited != [] && visited[|visited| - 1] in spare && NoneIn(visited[..|visited| - 1], spare)
  }

  lemma Looked(visited: seq<u32>, x: u32, spare: set<u32>)
    requires NoneIn(visited, spare)
    ensures if x in spare then FirstIn(visited + [x], spare) else NoneIn(visited + [x], spare)
  {
    assert (visited + [x])[..|visited|] == visited;
  }

  lemma TrailIs(fat: seq<u32>, first: u32, visited: seq<u32>)
    requires Trail(fat, first, visited)
    ensures AllOk(fat, first, |visited|) && forall i | 0 <= i < |visited| :: visited[i] == Follow(fat, first, i)
  {}

  lemma InTime(fat: seq<u32>, first: u32, visited: seq<u32>)
    requires 2 <= |fat| <= TOP && Trail(fat, first, visited) && Quiet(ChainOf(fat, first), |visited|)
    ensures |visited| < 3 * |fat|
  {
    Bounded(fat, first, |visited|);
  }

  lemma Arrived(fat: seq<u32>, first: u32, visited: seq<u32>)
    requires Trail(fat, first, visited) && !Ok(fat, Follow(fat, first, |visited|))
    ensures EndsAt(fat, first, |visited|) && forall i | 0 <= i < |visited| :: visited[i] == Follow(fat, first, i)
    ensures forall i, j | 0 <= i < j < |visited| :: visited[i] != visited[j]
  {
    NoRepeat(fat, first, |visited|);
  }

  lemma AfterStep(c: Chain, k: nat)
    ensures Sound(After(c, k)) && (Fires(c, k + 1) <==> c(k + 1) == After(c, k).mark)
    ensures !Fires(c, k + 1) ==> After(c, k + 1) == Advance(After(c, k), c(k + 1)) && (Quiet(c, k) ==> Quiet(c, k + 1))
  {}

  lemma NoRepeat(fat: seq<u32>, first: u32, n: nat)
    requires EndsAt(fat, first, n)
    ensures forall i, j | 0 <= i < j < n :: Follow(fat, first, i) != Follow(fat, first, j)
  {
    forall i, j | 0 <= i < j < n ensures Follow(fat, first, i) != Follow(fat, first, j) {
      if Follow(fat, first, i) == Follow(fat, first, j) {
        StaysOk(fat, first, i, j, n);
        assert false;
      }
    }
  }
}
