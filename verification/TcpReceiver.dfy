/** The receiving half of a TCP connection (kernel/src/net/tcp_input.c, tcp.c): a ring that
    takes bytes out of order straight to their place, and a table of at most eight ranges
    past the hole. */
module TcpReceiver {
  import opened Collections
  import opened TcpSeq
  import Ring

  const RX_BUF: nat := 262144
  const OOO_MAX: nat := 8

  // ---------------------------------------------------------------- specification

  /** What a receiver knows, free of rings and of 32-bit numbers.  Stream positions count
      data bytes from 0; the peer's FIN, once taken, occupies position `data`. */
  datatype Rcv = Rcv(
    read: nat,              // bytes handed to the application
    data: nat,              // first position not received in order
    known: map<int, byte>,  // every byte held: read..data, and islands beyond
    fin: Option<int>,       // where the peer said its stream ends
    peerFin: bool           // ... and everything before that has arrived
  )

  function Nxt(r: Rcv): int {
    if r.peerFin then r.data + 1 else r.data
  }

  function Room(r: Rcv): int {
    RX_BUF - (r.data - r.read)
  }

  ghost predicate FirstGap(known: map<int, byte>, from: int, to: int) {
    && from <= to
    && to !in known
    && forall p | from <= p < to :: p in known
  }

  /** The bytes of a segment, keyed by position. */
  function Stored(at: int, body: seq<byte>): map<int, byte>
    decreases |body|
  {
    if body == [] then map[] else Stored(at + 1, body[1..])[at := body[0]]
  }

  lemma {:induction false} StoredIs(at: int, body: seq<byte>)
    ensures forall p :: p in Stored(at, body) <==> at <= p < at + |body|
    ensures forall p | p in Stored(at, body) :: Stored(at, body)[p] == body[p - at]
    decreases |body|
  {
    if body != [] {
      StoredIs(at + 1, body[1..]);
    }
  }

  ghost predicate RcvOk(r: Rcv) {
    && r.read <= r.data <= r.read + RX_BUF
    && r.data !in r.known
    && (forall p | r.read <= p < r.data :: p in r.known)
    && (forall p | p in r.known :: r.read <= p < r.read + RX_BUF)
  }

  /** What a segment at position s does: the part before the reader's position is cut off,
      and after the peer's FIN nothing counts. */
  ghost predicate Absorb(r: Rcv, s: int, body: seq<byte>, fin: bool, dropped: bool, r': Rcv) {
    var skip := if s < Nxt(r) then Nxt(r) - s else 0;
    if skip > |body| || r.peerFin then r' == r
    else AbsorbAt(r, s + skip, body[skip..], fin, dropped, r')
  }

  /** The same at a position not yet passed.  What does not fit the buffer is cut off; the FIN
      counts only with the last byte.  `dropped` is the one choice the range table makes: an
      island that does not fit the table is forgotten. */
  ghost predicate AbsorbAt(r: Rcv, at: int, body: seq<byte>, fin: bool, dropped: bool, r': Rcv)
    requires r.data <= at
  {
    var off := at - r.data;
    if 0 < off && Room(r) <= off then r' == r
    else if Room(r) < off then false
    else
      var take := if |body| < Room(r) - off then |body| else Room(r) - off;
      var fin' := if fin && take == |body| then Some(at + take) else r.fin;
      && r'.read == r.read
      && r'.fin == fin'
      && r'.known == (if 0 < off && dropped then r.known else r.known + Stored(at, body[..take]))
      && FirstGap(r'.known, r.data, r'.data)
      && r'.peerFin == (fin'.Some? && (fin'.value - r'.data) % TWO32 == 0)
  }

  lemma OutOfRoom(r: Rcv, at: int, body: seq<byte>, fin: bool, dropped: bool)
    requires 0 < at - r.data && Room(r) <= at - r.data
    ensures AbsorbAt(r, at, body, fin, dropped, r)
  {}

  lemma Placed(r: Rcv, at: int, body: seq<byte>, fin: bool, dropped: bool, r': Rcv, take: nat)
    requires r.data <= at && (at == r.data || at - r.data < Room(r)) && at - r.data <= Room(r)
    requires take == if |body| < Room(r) - (at - r.data) then |body| else Room(r) - (at - r.data)
    requires r'.read == r.read
    requires r'.fin == if fin && take == |body| then Some(at + take) else r.fin
    requires r'.known == if at > r.data && dropped then r.known else r.known + Stored(at, body[..take])
    requires FirstGap(r'.known, r.data, r'.data)
    requires r'.peerFin == (r'.fin.Some? && (r'.fin.value - r'.data) % TWO32 == 0)
    ensures AbsorbAt(r, at, body, fin, dropped, r')
  {}

  /** The application takes n bytes. */
  function AfterRead(r: Rcv, n: nat): Rcv {
    r.(read := r.read + n, known := map p | p in r.known && p >= r.read + n :: r.known[p])
  }

  // ---------------------------------------------------------------- the range table

  datatype Range = Range(start: u32, end: u32)
  datatype Span = Span(lo: int, hi: int)

  ghost predicate Covers(spans: seq<Span>, p: int) {
    exists i :: 0 <= i < |spans| && spans[i].lo <= p < spans[i].hi
  }

  /** Sorted, strictly apart, beyond `from`, and ending no later than `limit`. */
  ghost predicate SpansOk(spans: seq<Span>, from: int, limit: int) {
    && (forall i | 0 <= i < |spans| :: from < spans[i].lo < spans[i].hi <= limit)
    && (forall i, j | 0 <= i < j < |spans| :: spans[i].hi < spans[j].lo)
  }

  ghost predicate Encodes(ooo: seq<Range>, spans: seq<Span>, base: u32) {
    && |ooo| == |spans|
    && forall i | 0 <= i < |ooo| :: ooo[i] == Range(Wire(base, spans[i].lo), Wire(base, spans[i].hi))
  }

  /** The table once [lo, hi) is merged in, when spans i..j are the ones it touches. */
  ghost function Merged(spans: seq<Span>, i: nat, j: nat, lo: int, hi: int): seq<Span>
    requires i <= j <= |spans|
  {
    var a := if i < j && spans[i].lo < lo then spans[i].lo else lo;
    var b := if i < j && spans[j - 1].hi > hi then spans[j - 1].hi else hi;
    spans[..i] + [Span(a, b)] + spans[j..]
  }

  /** Spans i..j are exactly those that overlap or abut [lo, hi). */
  ghost predicate Touched(spans: seq<Span>, i: nat, j: nat, lo: int, hi: int)
    requires i <= j <= |spans|
  {
    && (forall k | 0 <= k < i :: spans[k].hi < lo)
    && (forall k | i <= k < j :: spans[k].hi >= lo && spans[k].lo <= hi)
    && (forall k | j <= k < |spans| :: spans[k].lo > hi)
  }

  lemma MergedAt(spans: seq<Span>, i: nat, j: nat, lo: int, hi: int, k: nat)
    requires i <= j <= |spans| && k < |Merged(spans, i, j, lo, hi)|
    ensures var m := Merged(spans, i, j, lo, hi);
      && |m| == i + 1 + |spans| - j
      && (k < i ==> m[k] == spans[k])
      && (k > i ==> m[k] == spans[k - i - 1 + j])
      && (i == j ==> m[i] == Span(lo, hi))
      && (i < j ==> m[i] == Span(Least(spans[i].lo, lo), Most(spans[j - 1].hi, hi)))
  {}

  function Least(a: int, b: int): int { if a < b then a else b }
  function Most(a: int, b: int): int { if a > b then a else b }

  lemma MergedOk(spans: seq<Span>, i: nat, j: nat, lo: int, hi: int, from: int, limit: int)
    requires i <= j <= |spans| && Touched(spans, i, j, lo, hi)
    requires SpansOk(spans, from, limit) && from < lo < hi <= limit
    ensures SpansOk(Merged(spans, i, j, lo, hi), from, limit)
  {
    hide Merged;
    var m := Merged(spans, i, j, lo, hi);
    forall k | 0 <= k < |m|
      ensures from < m[k].lo < m[k].hi <= limit
    {
      MergedAt(spans, i, j, lo, hi, k);
    }
    forall k, l | 0 <= k < l < |m|
      ensures m[k].hi < m[l].lo
    {
      MergedApart(spans, i, j, lo, hi, from, limit, k, l);
    }
  }

  lemma MergedApart(spans: seq<Span>, i: nat, j: nat, lo: int, hi: int, from: int, limit: int, k: nat, l: nat)
    requires i <= j <= |spans| && Touched(spans, i, j, lo, hi)
    requires SpansOk(spans, from, limit) && k < l < |Merged(spans, i, j, lo, hi)|
    ensures var m := Merged(spans, i, j, lo, hi); m[k].hi < m[l].lo
  {
    MergedAt(spans, i, j, lo, hi, k);
    MergedAt(spans, i, j, lo, hi, l);
    hide Merged;
    if k == i {
      assert j < |spans| && spans[l - i - 1 + j].lo > hi;
    } else if l == i {
      assert spans[k].hi < lo;
    }
  }

  lemma MergedKeeps(spans: seq<Span>, i: nat, j: nat, lo: int, hi: int, from: int, limit: int, p: int, k: nat)
    requires i <= j <= |spans| && k < |spans|
    requires SpansOk(spans, from, limit)
    requires spans[k].lo <= p < spans[k].hi
    ensures Covers(Merged(spans, i, j, lo, hi), p)
  {
    var m := Merged(spans, i, j, lo, hi);
    if k < i {
      assert m[k] == spans[k];
    } else if k < j {
      assert spans[i].lo <= spans[k].lo && spans[k].hi <= spans[j - 1].hi;
      assert m[i].lo <= p < m[i].hi;
    } else {
      assert m[k - j + i + 1] == spans[k];
    }
  }

  lemma MergedOnly(spans: seq<Span>, i: nat, j: nat, lo: int, hi: int, p: int, k: nat)
    requires i <= j <= |spans| && Touched(spans, i, j, lo, hi)
    requires k < |Merged(spans, i, j, lo, hi)|
    requires var m := Merged(spans, i, j, lo, hi); m[k].lo <= p < m[k].hi
    ensures Covers(spans, p) || lo <= p < hi
  {
    if k < i {
      assert spans[k].lo <= p < spans[k].hi;
    } else if k > i {
      var l := k - i - 1 + j;
      assert spans[l].lo <= p < spans[l].hi;
    } else if p < lo {
      assert spans[i].lo <= p < spans[i].hi;
    } else if p >= hi {
      assert spans[j - 1].lo <= p < spans[j - 1].hi;
    }
  }

  lemma MergedEncodes(ooo: seq<Range>, spans: seq<Span>, base: u32, i: nat, j: nat, lo: int, hi: int, r: Range)
    requires i <= j <= |spans| && Encodes(ooo, spans, base)
    requires var m := Merged(spans, i, j, lo, hi)[i]; r == Range(Wire(base, m.lo), Wire(base, m.hi))
    ensures Encodes(ooo[..i] + [r] + ooo[j..], Merged(spans, i, j, lo, hi), base)
  {
    var m, o := Merged(spans, i, j, lo, hi), ooo[..i] + [r] + ooo[j..];
    forall k | 0 <= k < |o|
      ensures o[k] == Range(Wire(base, m[k].lo), Wire(base, m[k].hi))
    {
      if k > i {
        assert o[k] == ooo[k - i - 1 + j] && m[k] == spans[k - i - 1 + j];
      }
    }
  }

  /** Merging is set union. */
  lemma MergedCovers(spans: seq<Span>, i: nat, j: nat, lo: int, hi: int, from: int, limit: int)
    requires i <= j <= |spans| && Touched(spans, i, j, lo, hi)
    requires SpansOk(spans, from, limit) && from < lo < hi <= limit
    ensures forall p :: Covers(Merged(spans, i, j, lo, hi), p) <==> Covers(spans, p) || lo <= p < hi
  {
    hide Touched, SpansOk, Merged, Covers;
    forall p
      ensures Covers(Merged(spans, i, j, lo, hi), p) <==> Covers(spans, p) || lo <= p < hi
    {
      CoversAt(spans, i, j, lo, hi, from, limit, p);
    }
  }

  lemma CoversAt(spans: seq<Span>, i: nat, j: nat, lo: int, hi: int, from: int, limit: int, p: int)
    requires i <= j <= |spans| && Touched(spans, i, j, lo, hi)
    requires SpansOk(spans, from, limit) && from < lo < hi <= limit
    ensures Covers(Merged(spans, i, j, lo, hi), p) <==> Covers(spans, p) || lo <= p < hi
  {
    var m := Merged(spans, i, j, lo, hi);
    if lo <= p < hi {
      assert m[i].lo <= p < m[i].hi;
    }
    hide Touched, SpansOk, Merged;
    if Covers(spans, p) {
      var k :| 0 <= k < |spans| && spans[k].lo <= p < spans[k].hi;
      MergedKeeps(spans, i, j, lo, hi, from, limit, p, k);
    }
    if Covers(m, p) {
      var k :| 0 <= k < |m| && m[k].lo <= p < m[k].hi;
      MergedOnly(spans, i, j, lo, hi, p, k);
    }
  }

  /** tcp_ooo_add on the table: the union with [start, end), or no change when the table is
      full and nothing in it touches the new range. */
  method OooAdd(ooo: seq<Range>, start: u32, end: u32,
                ghost base: u32, ghost spans: seq<Span>, ghost from: int, ghost limit: int, ghost lo: int,
                  ghost hi: int)
    returns (ooo': seq<Range>, ghost spans': seq<Span>, ghost kept: bool)
    requires |ooo| <= OOO_MAX && Encodes(ooo, spans, base)
    requires SpansOk(spans, from, limit) && limit <= from + RX_BUF
    requires from < lo < hi <= limit
    requires start == Wire(base, lo) && end == Wire(base, hi)
    ensures |ooo'| <= OOO_MAX && Encodes(ooo', spans', base)
    ensures SpansOk(spans', from, limit)
    ensures kept ==> forall p :: Covers(spans', p) <==> Covers(spans, p) || lo <= p < hi
    ensures !kept ==> ooo' == ooo && spans' == spans && |ooo| == OOO_MAX
    ensures !kept ==> forall p | lo <= p < hi :: !Covers(spans, p)
  {
    var i := FirstNotBefore(ooo, start, base, spans, from, limit, lo);
    if i < |ooo| {
      WireOrder(base, spans[i].lo, hi);
    }
    var j, entry := i, Range(start, end);
    if i < |ooo| && SeqLeq(ooo[i].start, end) {
      entry, j := Merge(ooo, i, start, end, base, spans, from, limit, lo, hi);
    } else if |ooo| == OOO_MAX {
      ooo', spans', kept := ooo, spans, false;
      return;
    }
    ooo' := ooo[..i] + [entry] + ooo[j..];
    spans' := Merged(spans, i, j, lo, hi);
    kept := true;
    MergedAt(spans, i, j, lo, hi, i);
    hide Merged;
    MergedEncodes(ooo, spans, base, i, j, lo, hi, entry);
    MergedOk(spans, i, j, lo, hi, from, limit);
    MergedCovers(spans, i, j, lo, hi, from, limit);
  }

  /** The scan at the head of tcp_ooo_add. */
  method FirstNotBefore(ooo: seq<Range>, start: u32,
                        ghost base: u32, ghost spans: seq<Span>, ghost from: int, ghost limit: int, ghost lo: int)
    returns (i: nat)
    requires Encodes(ooo, spans, base)
    requires SpansOk(spans, from, limit) && limit <= from + RX_BUF
    requires from < lo < limit && start == Wire(base, lo)
    ensures i <= |ooo|
    ensures forall k | 0 <= k < i :: spans[k].hi < lo
    ensures forall k | i <= k < |spans| :: spans[k].hi >= lo
  {
    i := 0;
    while i < |ooo| && SeqLt(ooo[i].end, start)
      invariant 0 <= i <= |ooo|
      invariant forall k | 0 <= k < i :: spans[k].hi < lo
    {
      WireOrder(base, spans[i].hi, lo);
      i := i + 1;
    }
    if i < |ooo| {
      WireOrder(base, spans[i].hi, lo);
    }
  }

  /** The tail of tcp_ooo_add: grow entry i to hold [start, end) and swallow its neighbours. */
  method Merge(ooo: seq<Range>, i: nat, start: u32, end: u32,
               ghost base: u32, ghost spans: seq<Span>, ghost from: int, ghost limit: int, ghost lo: int, ghost hi: int)
    returns (r: Range, j: nat)
    requires Encodes(ooo, spans, base) && i < |ooo|
    requires SpansOk(spans, from, limit) && limit <= from + RX_BUF
    requires from < lo < hi <= limit
    requires start == Wire(base, lo) && end == Wire(base, hi)
    requires forall k | 0 <= k < i :: spans[k].hi < lo
    requires spans[i].hi >= lo && spans[i].lo <= hi
    ensures i < j <= |ooo| && Touched(spans, i, j, lo, hi)
    ensures r == Range(Wire(base, Least(spans[i].lo, lo)), Wire(base, Most(spans[j - 1].hi, hi)))
  {
    hide Wire, SeqLt, SeqLeq;
    WireOrder(base, lo, spans[i].lo);
    WireOrder(base, spans[i].hi, hi);
    r := ooo[i];
    if SeqLt(start, r.start) {
      r := r.(start := start);
    }
    if SeqLt(r.end, end) {
      r := r.(end := end);
    }
    j := i + 1;
    while j < |ooo| && SeqLeq(ooo[j].start, r.end)
      invariant i < j <= |ooo|
      invariant forall k | i <= k < j :: spans[k].hi >= lo && spans[k].lo <= hi
      invariant r.start == Wire(base, Least(spans[i].lo, lo))
      invariant r.end == Wire(base, Most(spans[j - 1].hi, hi))
    {
      ghost var b := Most(spans[j - 1].hi, hi);
      WireOrder(base, spans[j].lo, b);
      WireOrder(base, b, spans[j].hi);
      if SeqLt(r.end, ooo[j].end) {
        r := r.(end := ooo[j].end);
      }
      j := j + 1;
    }
    if j < |ooo| {
      WireOrder(base, spans[j].lo, Most(spans[j - 1].hi, hi));
    }
  }

  /** tcp_ooo_settle: with everything before `data` now in order, swallow the ranges the hole
      no longer separates.  `data'` is the first position nobody has sent. */
  method OooSettle(ooo: seq<Range>, rcvNxt: u32, rxLen: nat,
                   ghost base: u32, ghost spans: seq<Span>, ghost from: int, ghost limit: int, ghost data: int)
    returns (ooo': seq<Range>, rcvNxt': u32, rxLen': nat, ghost spans': seq<Span>, ghost data': int)
    requires Encodes(ooo, spans, base)
    requires SpansOk(spans, from, limit) && from <= data <= limit <= from + RX_BUF
    requires rcvNxt == Wire(base, data)
    ensures |ooo'| <= |ooo| && Encodes(ooo', spans', base)
    ensures data <= data' <= limit && rcvNxt' == Wire(base, data') && rxLen' == rxLen + (data' - data)
    ensures SpansOk(spans', data', limit)
    ensures forall p | data <= p < data' :: Covers(spans, p)
    ensures forall p | data' <= p :: Covers(spans', p) <==> Covers(spans, p)
    ensures !Covers(spans, data')
  {
    ooo', rcvNxt', rxLen' := ooo, rcvNxt, rxLen;
    data' := data;
    ghost var n := 0;
    while |ooo'| > 0 && SeqLeq(ooo'[0].start, rcvNxt')
      invariant 0 <= n <= |ooo| && ooo' == ooo[n..]
      invariant data <= data' <= limit && rcvNxt' == Wire(base, data') && rxLen' == rxLen + (data' - data)
      invariant forall k | 0 <= k < n :: spans[k].hi <= data'
      invariant forall p | data <= p < data' :: Covers(spans, p)
      decreases |ooo'|
    {
      assert ooo'[0] == ooo[n];
      WireOrder(base, spans[n].lo, data');
      WireOrder(base, data', spans[n].hi);
      if SeqLt(rcvNxt', ooo'[0].end) {
        WireSub(base, spans[n].hi, data');
        rxLen' := rxLen' + Sub32(ooo'[0].end, rcvNxt');
        rcvNxt' := ooo'[0].end;
        forall p | data' <= p < spans[n].hi
          ensures Covers(spans, p)
        {
          assert spans[n].lo <= p < spans[n].hi;
        }
        data' := spans[n].hi;
      }
      ooo' := ooo'[1..];
      n := n + 1;
    }
    spans' := spans[n..];
    if n < |spans| {
      assert ooo'[0] == ooo[n];
      WireOrder(base, spans[n].lo, data');
    }
    SuffixCovers(spans, n, data');
  }

  lemma SuffixCovers(spans: seq<Span>, n: nat, at: int)
    requires n <= |spans|
    requires forall k | 0 <= k < n :: spans[k].hi <= at
    ensures forall p | at <= p :: Covers(spans[n..], p) <==> Covers(spans, p)
  {
    forall p | at <= p
      ensures Covers(spans[n..], p) <==> Covers(spans, p)
    {
      if Covers(spans[n..], p) {
        var k :| 0 <= k < |spans[n..]| && spans[n..][k].lo <= p < spans[n..][k].hi;
        assert spans[n + k].lo <= p < spans[n + k].hi;
      }
      if Covers(spans, p) {
        var k :| 0 <= k < |spans| && spans[k].lo <= p < spans[k].hi;
        assert spans[n..][k - n] == spans[k];
      }
    }
  }

  // ---------------------------------------------------------------- the receiver

  /** Every known byte is in its place in the ring. */
  ghost predicate Holds(ring: seq<byte>, start: nat, known: map<int, byte>, read: int) {
    && |ring| == RX_BUF && start < RX_BUF
    && forall p | p in known ::
        && read <= p < read + RX_BUF
        && ring[Ring.Slot(RX_BUF, start, p - read)] == known[p]
  }

  /** `ring'` is `ring` with `piece` copied in `at` bytes after `start`. */
  ghost predicate Copied(ring: seq<byte>, ring': seq<byte>, start: nat, at: nat, piece: seq<byte>)
    requires |ring| == |ring'| == RX_BUF && start < RX_BUF
  {
    forall k | 0 <= k < RX_BUF ::
      ring'[Ring.Slot(RX_BUF, start, k)] ==
        if at <= k < at + |piece| then piece[k - at] else ring[Ring.Slot(RX_BUF, start, k)]
  }

  /** A copy puts the new bytes in place and leaves every other known byte where it was. */
  lemma CopiedHolds(ring: seq<byte>, ring': seq<byte>, start: nat, at: nat, piece: seq<byte>, known: map<int, byte>,
                    read: int)
    requires |ring| == |ring'| == RX_BUF && start < RX_BUF && at + |piece| <= RX_BUF
    requires Holds(ring, start, known, read) && Copied(ring, ring', start, at, piece)
    ensures Holds(ring', start, known + Stored(read + at, piece), read)
    ensures (forall p | p in known :: !(read + at <= p < read + at + |piece|)) ==> Holds(ring', start, known, read)
  {
    var added := Stored(read + at, piece);
    StoredIs(read + at, piece);
    forall p | p in known + added
      ensures read <= p < read + RX_BUF
      ensures ring'[Ring.Slot(RX_BUF, start, p - read)] == (known + added)[p]
    {
      var k := p - read;
      assert ring'[Ring.Slot(RX_BUF, start, k)] ==
        if at <= k < at + |piece| then piece[k - at] else ring[Ring.Slot(RX_BUF, start, k)];
    }
    forall p | p in known && !(read + at <= p < read + at + |piece|)
      ensures ring'[Ring.Slot(RX_BUF, start, p - read)] == known[p]
    {
      assert ring'[Ring.Slot(RX_BUF, start, p - read)] == ring[Ring.Slot(RX_BUF, start, p - read)];
    }
  }

  /** The positions held are the readable ones and those in the table. */
  ghost predicate Tracks(known: map<int, byte>, read: int, data: int, spans: seq<Span>) {
    forall p :: p in known <==> read <= p < data || Covers(spans, p)
  }

  lemma TracksOk(known: map<int, byte>, read: int, data: int, spans: seq<Span>)
    requires Tracks(known, read, data, spans) && SpansOk(spans, data, read + RX_BUF)
    requires read <= data <= read + RX_BUF
    ensures FirstGap(known, data, data)
    ensures forall p | read <= p < data :: p in known
    ensures forall p | p in known :: read <= p < read + RX_BUF
  {}

  lemma NothingHeld(spans: seq<Span>, data: int, limit: int)
    requires Tracks(map[], data, data, spans) && SpansOk(spans, data, limit)
    ensures spans == []
  {
    var p := if |spans| > 0 then spans[0].lo else data;
    assert !Covers(spans, p);
  }

  lemma StoredNothing(known: map<int, byte>, at: int, body: seq<byte>)
    requires body == []
    ensures known + Stored(at, body) == known
  {}

  lemma AddedTracks(known: map<int, byte>, read: int, data: int, spans: seq<Span>, spans': seq<Span>, lo: int,
                    piece: seq<byte>)
    requires Tracks(known, read, data, spans)
    requires forall p :: Covers(spans', p) <==> Covers(spans, p) || lo <= p < lo + |piece|
    ensures Tracks(known + Stored(lo, piece), read, data, spans')
  {
    StoredIs(lo, piece);
  }

  lemma ForgottenApart(known: map<int, byte>, read: int, data: int, spans: seq<Span>, lo: int, piece: seq<byte>)
    requires Tracks(known, read, data, spans) && data <= lo
    requires forall p | lo <= p < lo + |piece| :: !Covers(spans, p)
    ensures forall p | p in known :: !(lo <= p < lo + |piece|)
  {}

  lemma SettledTracks(known: map<int, byte>, read: int, data: int, piece: seq<byte>, spans: seq<Span>, data': int,
                      spans': seq<Span>)
    requires Tracks(known, read, data, spans) && read <= data
    requires SpansOk(spans, data, read + RX_BUF) && SpansOk(spans', data', read + RX_BUF)
    requires data + |piece| <= data' <= read + RX_BUF
    requires forall p | data + |piece| <= p < data' :: Covers(spans, p)
    requires forall p | data' <= p :: Covers(spans', p) <==> Covers(spans, p)
    requires !Covers(spans, data')
    ensures Tracks(known + Stored(data, piece), read, data', spans')
    ensures FirstGap(known + Stored(data, piece), data, data')
  {
    var known' := known + Stored(data, piece);
    StoredIs(data, piece);
    forall p
      ensures p in known' <==> read <= p < data' || Covers(spans', p)
    {
      if p < data' {
        assert !Covers(spans', p);
      }
    }
  }

  lemma ReadFront(ring: seq<byte>, start: nat, out: seq<byte>, v: Rcv, spans: seq<Span>)
    requires Holds(ring, start, v.known, v.read) && Tracks(v.known, v.read, v.data, spans)
    requires v.read + |out| <= v.data <= v.read + RX_BUF
    requires forall k | 0 <= k < |out| :: out[k] == ring[Ring.Slot(RX_BUF, start, k)]
    ensures forall p | v.read <= p < v.read + |out| :: p in v.known && out[p - v.read] == v.known[p]
  {}

  /** Taking n bytes from the front of the ring leaves the rest where it is. */
  lemma ReadRest(ring: seq<byte>, start: nat, n: nat, v: Rcv, spans: seq<Span>)
    requires Holds(ring, start, v.known, v.read) && Tracks(v.known, v.read, v.data, spans)
    requires SpansOk(spans, v.data, v.read + RX_BUF) && v.read + n <= v.data <= v.read + RX_BUF
    ensures Holds(ring, Ring.Slot(RX_BUF, start, n), AfterRead(v, n).known, v.read + n)
    ensures Tracks(AfterRead(v, n).known, v.read + n, v.data, spans)
    ensures SpansOk(spans, v.data, v.read + n + RX_BUF)
  {
    var known := AfterRead(v, n).known;
    forall p | p in known
      ensures ring[Ring.Slot(RX_BUF, Ring.Slot(RX_BUF, start, n), p - v.read - n)] == known[p]
    {
      Ring.SlotFrom(RX_BUF, start, n, p - v.read);
    }
    forall p
      ensures p in known <==> v.read + n <= p < v.data || Covers(spans, p)
    {
      if Covers(spans, p) {
        assert p in v.known;
      }
    }
  }

  lemma SubZero(a: u32, b: u32)
    ensures Sub32(a, b) == 0 <==> a == b
  {}

  class Receiver {
    const rx: array<byte>
    var rxStart: nat
    var rxLen: nat
    var rcvNxt: u32
    var ooo: seq<Range>
    var finSeq: u32
    var finSeen: bool
    var peerFin: bool

    ghost var base: u32         // the sequence number of position 0
    ghost var view: Rcv
    ghost var spans: seq<Span>  // the table in stream positions

    ghost predicate Valid()
      reads this, rx
    {
      && rx.Length == RX_BUF && rxStart < RX_BUF
      && view.read <= view.data <= view.read + RX_BUF
      && rxLen == view.data - view.read
      && peerFin == view.peerFin
      && rcvNxt == Wire(base, Nxt(view))
      && |ooo| <= OOO_MAX && Encodes(ooo, spans, base)
      && SpansOk(spans, view.data, view.read + RX_BUF)
      && Tracks(view.known, view.read, view.data, spans)
      && finSeen == view.fin.Some? && (finSeen ==> finSeq == Wire(base, view.fin.value))
      && Holds(rx[..], rxStart, view.known, view.read)
    }

    /** What the fields say of the view. */
    lemma Fields()
      requires Valid()
      ensures peerFin == view.peerFin && rcvNxt == Wire(base, Nxt(view)) && rxLen == view.data - view.read
      ensures rxLen <= RX_BUF
    {}

    /** A receiver that has just seen the peer's SYN, whose sequence number is `irs`. */
    constructor (irs: u32)
      ensures Valid() && fresh(rx)
      ensures base == Add32(irs, 1)
      ensures view == Rcv(0, 0, map[], None, false)
    {
      rx := new byte[RX_BUF];
      rxStart, rxLen, rcvNxt := 0, 0, Add32(irs, 1);
      ooo, finSeq, finSeen, peerFin := [], 0, false, false;
      base, view, spans := Add32(irs, 1), Rcv(0, 0, map[], None, false), [];
    }

    /** The peer's SYN, number `irs`, is known: reading starts at the byte after it. */
    method Start(irs: u32)
      requires Valid() && view == Rcv(0, 0, map[], None, false)
      modifies this`rcvNxt, this`base
      ensures Valid() && base == Add32(irs, 1)
    {
      NothingHeld(spans, view.data, view.read + RX_BUF);
      rcvNxt, base := Add32(irs, 1), Add32(irs, 1);
    }

    /** The memcpy pair of tcp_got_data: `piece` goes `off` bytes past the readable ones. */
    method Store(off: nat, piece: seq<byte>)
      requires rx.Length == RX_BUF && rxStart < RX_BUF
      requires rxLen + off + |piece| <= RX_BUF
      modifies rx
      ensures Copied(old(rx[..]), rx[..], rxStart, rxLen + off, piece)
    {
      Ring.SlotIsMod(RX_BUF, rxStart, rxLen + off);
      var at := (rxStart + rxLen + off) % RX_BUF;
      label before:
      Ring.Put(rx, at, piece);
      forall k | 0 <= k < RX_BUF
        ensures rx[..][Ring.Slot(RX_BUF, rxStart, k)] ==
            if rxLen + off <= k < rxLen + off + |piece| then piece[k - rxLen - off]
            else old@before(rx[..])[Ring.Slot(RX_BUF, rxStart, k)]
      {
        Ring.SlotFrom(RX_BUF, rxStart, rxLen + off, k);
      }
    }

    /** In-order data: it becomes readable, and so does everything the hole was hiding. */
    method InOrder(piece: seq<byte>)
      requires Valid() && !peerFin
      requires rxLen + |piece| <= RX_BUF
      modifies this`rxLen, this`rcvNxt, this`ooo, this`view, this`spans, rx
      ensures Valid()
      ensures view == old(view).(known := old(view).known + Stored(old(view).data, piece), data := view.data)
      ensures FirstGap(view.known, old(view).data, view.data)
    {
      hide SpansOk, Encodes, Tracks, Holds, FirstGap, Covers, Stored;
      ghost var v := view;
      label before:
      Store(0, piece);
      CopiedHolds(old@before(rx[..]), rx[..], rxStart, rxLen, piece, v.known, v.read);
      WireShift(base, v.data, |piece|);
      ghost var was := spans;
      ghost var data';
      ooo, rcvNxt, rxLen, spans, data' :=
        OooSettle(ooo, Add32(rcvNxt, |piece|), rxLen + |piece|, base, spans, v.data, v.read + RX_BUF, v.data + |piece|);
      SettledTracks(v.known, v.read, v.data, piece, was, data', spans);
      view := v.(known := v.known + Stored(v.data, piece), data := data');
    }

    /** Out-of-order data: noted in the table, or forgotten when the table is full. */
    method Island(off: nat, piece: seq<byte>, start: u32, ghost lo: int) returns (ghost dropped: bool)
      requires Valid() && !peerFin
      requires 0 < off && 0 < |piece| && rxLen + off + |piece| <= RX_BUF
      requires lo == view.data + off && start == Wire(base, lo)
      modifies this`ooo, this`view, this`spans, rx
      ensures Valid()
      ensures view == if dropped then old(view) else old(view).(known := old(view).known + Stored(lo, piece))
      ensures dropped ==> |old(ooo)| == OOO_MAX
    {
      hide SpansOk, Encodes, Holds, Stored, Tracks;
      ghost var v := view;
      label before:
      Store(off, piece);
      ghost var was := spans;
      WireShift(base, lo, |piece|);
      ghost var kept;
      ooo, spans, kept :=
        OooAdd(ooo, start, Add32(start, |piece|), base, spans, v.data, v.read + RX_BUF, lo, lo + |piece|);
      dropped := !kept;
      assert v.read + (rxLen + off) == lo;
      CopiedHolds(old@before(rx[..]), rx[..], rxStart, rxLen + off, piece, v.known, v.read);
      if kept {
        AddedTracks(v.known, v.read, v.data, was, spans, lo, piece);
        view := v.(known := v.known + Stored(lo, piece));
      } else {
        ForgottenApart(v.known, v.read, v.data, was, lo, piece);
      }
    }

    /** tcp_got_data, up to what it does to the connection's state. */
    method GotData(segSeq: u32, body: seq<byte>, fin: bool) returns (ghost dropped: bool)
      requires Valid()
      modifies this`rxLen, this`rcvNxt, this`ooo, this`finSeq, this`finSeen, this`peerFin, this`view, this`spans, rx
      ensures Valid()
      ensures Absorb(old(view), Unwrap(base, Nxt(old(view)), segSeq), body, fin, dropped, view)
      ensures dropped ==> |old(ooo)| == OOO_MAX
    {
      hide SpansOk, Encodes, Tracks, Holds, AbsorbAt;
      dropped := false;
      ghost var s := Unwrap(base, Nxt(view), segSeq);
      BeforeReader(base, Nxt(view), segSeq);
      var rest, at := body, segSeq;
      if SeqLt(segSeq, rcvNxt) {
        WireSub(base, Nxt(view), s);
        var skip := Sub32(rcvNxt, segSeq);
        if skip > |body| {
          return;
        }
        rest, at := body[skip..], rcvNxt;
      } else {
        assert body[0..] == body;
      }
      if peerFin {
        return;
      }
      dropped := Place(rest, at, fin, if s < view.data then view.data else s);
    }

    /** The rest of tcp_got_data, for data at or past rcv_nxt. */
    method Place(body: seq<byte>, at: u32, fin: bool, ghost pos: int) returns (ghost dropped: bool)
      requires Valid() && !peerFin
      requires at == Wire(base, pos) && view.data <= pos < view.data + TWO31
      modifies this`rxLen, this`rcvNxt, this`ooo, this`finSeq, this`finSeen, this`peerFin, this`view, this`spans, rx
      ensures Valid()
      ensures AbsorbAt(old(view), pos, body, fin, dropped, view)
      ensures dropped ==> |old(ooo)| == OOO_MAX
    {
      hide SpansOk, Encodes, Tracks, Holds, FirstGap, Stored, AbsorbAt, Wire, Sub32;
      dropped := false;
      ghost var v := view;
      WireSub(base, pos, v.data);
      var off: nat := Sub32(at, rcvNxt);
      var room := RX_BUF - rxLen;
      if off > 0 && off >= room {
        OutOfRoom(v, pos, body, fin, dropped);
        return;
      }
      var take := if |body| < room - off then |body| else room - off;
      WireShift(base, pos, take);
      if fin && take == |body| {
        finSeen, finSeq := true, Add32(at, take);
        view := view.(fin := Some(pos + take));
      }
      if off > 0 {
        if take == 0 {
          StoredNothing(v.known, pos, body[..take]);
        } else {
          dropped := Island(off, body[..take], at, pos);
        }
        TracksOk(view.known, view.read, view.data, spans);
      } else {
        InOrder(body[..take]);
      }
      TakeFin();
      Placed(v, pos, body, fin, dropped, view, take);
    }

    /** The peer's FIN counts once everything before it is here. */
    method TakeFin()
      requires Valid() && !peerFin
      modifies this`rcvNxt, this`peerFin, this`view
      ensures Valid()
      ensures view == old(view).(peerFin := old(view).fin.Some? && (old(view).fin.value - old(view).data) % TWO32 == 0)
    {
      hide SpansOk, Encodes, Tracks, Holds, Wire, Sub32;
      if finSeen {
        WireSub(base, view.fin.value, view.data);
        SubZero(finSeq, rcvNxt);
      }
      if finSeen && finSeq == rcvNxt {
        WireShift(base, view.data, 1);
        rcvNxt := Add32(rcvNxt, 1);
        peerFin := true;
        view := view.(peerFin := true);
      }
    }

    /** tcp_recv with something to read: the oldest bytes, in order. */
    method Recv(len: nat, peek: bool) returns (out: seq<byte>)
      requires Valid()
      modifies this`rxStart, this`rxLen, this`view
      ensures Valid()
      ensures |out| == if len < old(rxLen) then len else old(rxLen)
      ensures forall p | old(view).read <= p < old(view).read + |out| ::
          p in old(view).known && out[p - old(view).read] == old(view).known[p]
      ensures peek ==> view == old(view)
      ensures !peek ==> view == AfterRead(old(view), |out|)
    {
      hide SpansOk, Encodes, Tracks, Holds;
      var n := if len < rxLen then len else rxLen;
      out := Ring.Get(rx, rxStart, n);
      ReadFront(rx[..], rxStart, out, view, spans);
      if !peek {
        ghost var v := view;
        Ring.SlotIsMod(RX_BUF, rxStart, n);
        ReadRest(rx[..], rxStart, n, v, spans);
        rxStart := (rxStart + n) % RX_BUF;
        rxLen := rxLen - n;
        view := AfterRead(v, n);
      }
    }
  }
}
