/** The sending half of a TCP connection as the kernel keeps it: a ring indexed from snd_una,
    32-bit sequence numbers, and one record of window, congestion and timer fields. */
module TcpSender {
  import opened TcpSeq
  import opened TcpSendSpec
  import opened TcpSendFacts
  import Ring

  // ---------------------------------------------------------------- accepting an ack

  /** The range test of tcp_got_ack. */
  predicate InRange(sndUna: u32, sndNxt: u32, ack: u32) {
    SeqLt(sndUna, ack) && SeqLeq(ack, sndNxt)
  }

  /** For every 32-bit ack number: the guard in tcp_input and the range test together accept
      exactly the positions in (una, nxt]. */
  lemma AckAccepted(base: u32, una: int, nxt: int, ack: u32)
    requires 0 <= nxt - una <= TX_BUF + 1
    ensures !SeqLt(Wire(base, nxt), ack) ==>
        (InRange(Wire(base, una), Wire(base, nxt), ack) <==> una < UnwrapUp(base, nxt, ack) <= nxt)
    ensures SeqLt(Wire(base, nxt), ack) <==> nxt < UnwrapUp(base, nxt, ack)
  {
    hide Wire, SeqLt, SeqLeq, UnwrapUp;
    var a := UnwrapUp(base, nxt, ack);
    BeforeReader(base, nxt, ack);
    WireCompare(base, una, a);
    WireCompare(base, a, nxt);
  }

  /** The range test alone is wrong for exactly one number: with nothing in flight, the one
      half the number space away. */
  lemma RangeTestAlone(base: u32, una: int, nxt: int, ack: u32)
    requires 0 <= nxt - una <= TX_BUF + 1
    ensures InRange(Wire(base, una), Wire(base, nxt), ack) <==>
        || una < UnwrapUp(base, nxt, ack) <= nxt
        || (una == nxt && ack == Wire(base, una + TWO31))
  {
    hide Wire, SeqLt, SeqLeq, UnwrapUp;
    var a := UnwrapUp(base, nxt, ack);
    WireCompare(base, una, a);
    WireCompare(base, a, nxt);
    WireCompare(base, a, una + TWO31);
  }

  lemma RangeTestFooled()
    ensures InRange(0, 0, 0x8000_0000) && SeqLt(0, 0x8000_0000)
  {}

  // ---------------------------------------------------------------- packets and the ring

  datatype Kind = KData | KFin | KSyn | KAck | KRst | KRstAck

  /** A segment on its way out, numbered as it will be on the wire. */
  datatype Packet = Packet(num: u32, kind: Kind, bytes: seq<byte>)

  function Encode(base: u32, item: Item): Packet {
    match item
    case Data(pos, bytes) => Packet(Wire(base, pos), KData, bytes)
    case Fin(pos) => Packet(Wire(base, pos), KFin, [])
    case Syn(pos) => Packet(Wire(base, pos), KSyn, [])
    case Ack(pos) => Packet(Wire(base, pos), KAck, [])
    case Rst(pos, acks) => Packet(Wire(base, pos), if acks then KRstAck else KRst, [])
  }

  ghost predicate Encoded(base: u32, items: seq<Item>, out: seq<Packet>) {
    |items| == |out| && forall i | 0 <= i < |out| :: out[i] == Encode(base, items[i])
  }

  method EmitPacket(out: seq<Packet>, p: Packet, ghost base: u32, ghost items: seq<Item>, ghost item: Item)
    returns (out': seq<Packet>)
    requires Encoded(base, items, out) && p == Encode(base, item)
    ensures Encoded(base, Emit(items, item), out')
  {
    out' := if |out| < OUT_MAX then out + [p] else out;
  }

  /** The ring holds the stream from position `from` to its end. */
  ghost predicate TxHolds(ring: seq<byte>, start: nat, len: nat, stream: seq<byte>, from: int) {
    && |ring| == TX_BUF && start < TX_BUF && len <= TX_BUF
    && 0 <= from && from + len == |stream|
    && forall k | 0 <= k < len :: ring[Ring.Slot(TX_BUF, start, k)] == stream[from + k]
  }

  lemma TxDrop(ring: seq<byte>, start: nat, len: nat, stream: seq<byte>, from: int, n: nat)
    requires TxHolds(ring, start, len, stream, from) && n <= len
    ensures TxHolds(ring, Ring.Slot(TX_BUF, start, n), len - n, stream, from + n)
  {
    forall k | 0 <= k < len - n
      ensures ring[Ring.Slot(TX_BUF, Ring.Slot(TX_BUF, start, n), k)] == stream[from + n + k]
    {
      Ring.SlotFrom(TX_BUF, start, n, n + k);
      assert ring[Ring.Slot(TX_BUF, start, n + k)] == stream[from + (n + k)];
    }
  }

  lemma TxAppend(ring: seq<byte>, ring': seq<byte>, start: nat, len: nat, stream: seq<byte>, from: int, data: seq<byte>)
    requires TxHolds(ring, start, len, stream, from) && len + |data| <= TX_BUF && |ring'| == TX_BUF
    requires var at := Ring.Slot(TX_BUF, start, len);
      && (forall k | 0 <= k < |data| :: ring'[Ring.Slot(TX_BUF, at, k)] == data[k])
      && (forall k | |data| <= k < TX_BUF :: ring'[Ring.Slot(TX_BUF, at, k)] == ring[Ring.Slot(TX_BUF, at, k)])
    ensures TxHolds(ring', start, len + |data|, stream + data, from)
  {
    var at := Ring.Slot(TX_BUF, start, len);
    forall k | 0 <= k < len + |data|
      ensures ring'[Ring.Slot(TX_BUF, start, k)] == (stream + data)[from + k]
    {
      if len == TX_BUF {
        Ring.SlotFrom(TX_BUF, start, len, k);
        assert ring'[Ring.Slot(TX_BUF, at, k)] == ring[Ring.Slot(TX_BUF, at, k)];
      } else {
        Ring.SlotFrom(TX_BUF, start, len, k);
        var j := if k >= len then k - len else TX_BUF - len + k;
        assert k < len ==> ring'[Ring.Slot(TX_BUF, at, j)] == ring[Ring.Slot(TX_BUF, at, j)];
      }
    }
  }

  // ---------------------------------------------------------------- the control block

  /** The fields of the tcb the sending half works on, numbers as the kernel holds them. */
  datatype Tcb = Tcb(
    state: State,
    sndUna: u32,
    sndNxt: u32,
    sndWnd: nat,
    sndWl1: u32,
    mss: nat,
    cwnd: nat,
    ssthresh: nat,
    dupacks: nat,
    recovery: Recovery,
    recover: u32,
    rtxNxt: u32,
    rtxOne: bool,
    finWanted: bool,
    finSent: bool,
    rtoAt: nat,
    rtoMs: nat,
    rtoBase: nat,
    retries: nat
  )

  /** t is s with its positions reduced to 32 bits. */
  ghost predicate Refines(t: Tcb, s: Snd, base: u32) {
    && t.sndUna == Wire(base, s.una) && t.sndNxt == Wire(base, s.nxt)
    && (s.recovery != NoRecovery ==> t.recover == Wire(base, s.recover))
    && (s.recovery == Rto ==> t.rtxNxt == Wire(base, s.rtx))
    && t.state == s.state && t.sndWnd == s.wnd && t.sndWl1 == s.wl1
    && t.mss == s.mss && t.cwnd == s.cwnd && t.ssthresh == s.ssthresh && t.dupacks == s.dupacks
    && t.recovery == s.recovery && t.rtxOne == s.rtxOne
    && t.finWanted == s.finWanted && t.finSent == s.finSent
    && t.rtoAt == s.rtoAt && t.rtoMs == s.rtoMs && t.rtoBase == s.rtoBase && t.retries == s.retries
  }

  /** tcp_cc_acked */
  method CcAckedTcb(t0: Tcb, acked: nat, ack: u32, ghost base: u32, ghost s: Snd, ghost a: int) returns (t: Tcb)
    requires Refines(t0, s, base) && ack == Wire(base, a) && s.cwnd >= 1
    requires s.recovery != NoRecovery ==> -TWO31 < a - s.recover < TWO31
    ensures Refines(t, CcAcked(s, acked, a), base)
  {
    hide Wire, SeqLt, SeqLeq, Additive;
    t := t0;
    if t.recovery != NoRecovery {
      WireOrder(base, a, s.recover);
    }
    if t.recovery != NoRecovery && SeqLt(ack, t.recover) {
      if t.recovery == Fast {
        t := t.(cwnd := if t.cwnd > acked then t.cwnd - acked + t.mss else t.mss, rtxOne := true);
        return;
      }
    } else if t.recovery != NoRecovery {
      if t.recovery == Fast {
        t := t.(cwnd := t.ssthresh);
      }
      t := t.(recovery := NoRecovery, dupacks := 0);
      return;
    }
    t := t.(dupacks := 0);
    if t.cwnd < t.ssthresh {
      t := t.(cwnd := t.cwnd + if acked < t.mss then acked else t.mss);
    } else {
      t := t.(cwnd := t.cwnd + Additive(t.mss, t.cwnd));
    }
    if t.cwnd > CWND_MAX {
      t := t.(cwnd := CWND_MAX);
    }
  }

  /** tcp_cc_dupack */
  method CcDupackTcb(t0: Tcb, ghost base: u32, ghost s: Snd) returns (t: Tcb)
    requires Refines(t0, s, base) && 0 <= s.nxt - s.una < TWO32
    ensures Refines(t, CcDupack(s), base)
  {
    hide Wire, Sub32;
    t := t0;
    if t.recovery == Fast {
      t := t.(cwnd := t.cwnd + t.mss);
      return;
    }
    if t.recovery != NoRecovery {
      return;
    }
    t := t.(dupacks := t.dupacks + 1);
    if t.dupacks < 3 {
      return;
    }
    WireSub(base, s.nxt, s.una);
    var half := Sub32(t.sndNxt, t.sndUna) / 2;
    t := t.(ssthresh := if half > 2 * t.mss then half else 2 * t.mss);
    t := t.(cwnd := t.ssthresh + 3 * t.mss, recovery := Fast, recover := t.sndNxt, rtxOne := true);
  }

  /** The front of the ring once k bytes have left it. */
  function Slid(start: nat, k: nat): nat { (start + k) % TX_BUF }

  lemma SlidIs(start: nat, k: nat)
    requires start < TX_BUF && k <= TX_BUF
    ensures Slid(start, k) == Ring.Slot(TX_BUF, start, k)
  {
    Ring.SlotIsMod(TX_BUF, start, k);
  }

  /** How many bytes an ack of position a takes out of a ring of len bytes. */
  function Dropped(s: Snd, a: int, len: int): int { if s.una < a <= s.nxt then Min(a - s.una, len) else 0 }

  /** tcp_got_ack, past the guard in tcp_input.  `drop` bytes leave the front of the ring. */
  method GotAckTcb(t0: Tcb, txLen: nat, segSeq: u32, ack: u32, window: nat, bare: bool, newBase: nat, now: nat,
                   ghost base: u32, ghost s: Snd)
    returns (t: Tcb, drop: nat)
    requires Refines(t0, s, base) && SndInv(s) && Synced(s.state) && txLen == TxLen(s) && newBase >= 1
    requires !SeqLt(t0.sndNxt, ack)
    ensures var a := UnwrapUp(base, s.nxt, ack);
      && Refines(t, GotAck(s, segSeq, a, window, bare, newBase, now), base)
      && drop == Dropped(s, a, txLen)
  {
    ghost var a := UnwrapUp(base, s.nxt, ack);
    AckFacts(s, base, ack);
    hide Wire, SeqLt, SeqLeq, Sub32, UnwrapUp, SndInv, CcAcked, CcDupack, Acked, Unprobe;
    t, drop := t0, 0;
    ghost var s1 := s;
    var moved := window != t.sndWnd;
    if SeqLt(t.sndUna, ack) && SeqLeq(ack, t.sndNxt) {
      t, drop := AckedTcb(t, txLen, ack, newBase, now, base, s, a);
      s1 := Acked(s, a, newBase, now);
    } else if ack == t.sndUna && bare && !moved && t.sndUna != t.sndNxt {
      t := CcDupackTcb(t, base, s);
      s1 := CcDupack(s);
    }
    AckStillNear(s, a, newBase, now);
    t := WindowTcb(t, segSeq, ack, window, base, s1, a);
  }

  lemma AckFacts(s: Snd, base: u32, ack: u32)
    requires SndInv(s) && Synced(s.state) && !SeqLt(Wire(base, s.nxt), ack)
    ensures var a := UnwrapUp(base, s.nxt, ack);
      && ack == Wire(base, a)
      && s.nxt - TWO31 < a <= s.nxt && 0 <= s.nxt - s.una <= TX_BUF + 1
      && (SeqLt(Wire(base, s.una), ack) && SeqLeq(ack, Wire(base, s.nxt)) <==> s.una < a)
      && (ack == Wire(base, s.una) <==> a == s.una)
      && (Wire(base, s.una) == Wire(base, s.nxt) <==> s.una == s.nxt)
  {
    AckAccepted(base, s.una, s.nxt, ack);
    WireOrder(base, s.una, UnwrapUp(base, s.nxt, ack));
    WireOrder(base, s.una, s.nxt);
  }

  /** Taking the ack moves nothing far from it. */
  lemma AckStillNear(s: Snd, a: int, newBase: nat, now: nat)
    requires SndInv(s)
    ensures CcDupack(s).una == s.una && CcDupack(s).nxt == s.nxt
    ensures s.una < a ==> Acked(s, a, newBase, now).una == a && Acked(s, a, newBase, now).nxt == s.nxt
  {}

  /** The acked bytes are counted off and the congestion window hears of it. */
  method AckedTcb(t0: Tcb, txLen: nat, ack: u32, newBase: nat, now: nat, ghost base: u32, ghost s: Snd, ghost a: int)
    returns (t: Tcb, drop: nat)
    requires Refines(t0, s, base) && SndInv(s) && Synced(s.state) && txLen == TxLen(s) && newBase >= 1
    requires ack == Wire(base, a) && s.una < a <= s.nxt
    ensures Refines(t, Acked(s, a, newBase, now), base) && drop == Min(a - s.una, txLen)
  {
    AckedNear(s, a);
    hide Wire, Sub32, SndInv, CcAcked, TxLen;
    t := t0;
    WireSub(base, a, s.una);
    var acked := Sub32(ack, t.sndUna);
    drop := if acked < txLen then acked else txLen;
    t := AdvanceTcb(t, ack, newBase, now, base, s, a);
    AdvanceMoves(s, a, newBase, now);
    hide Advance, FinAcked;
    WireOrder(base, a, s.nxt);
    CcFields(Advance(s, a, newBase, now), acked, a);
    t := CcAckedTcb(t, acked, ack, base, Advance(s, a, newBase, now), a);
    if t.finSent && ack == t.sndNxt {
      t := FinAckedTcb(t, base, CcAcked(Advance(s, a, newBase, now), acked, a));
    }
  }

  method FinAckedTcb(t0: Tcb, ghost base: u32, ghost s: Snd) returns (t: Tcb)
    requires Refines(t0, s, base)
    ensures Refines(t, FinAcked(s), base)
  {
    hide Wire;
    t := t0;
    if t.state == FinWait1 {
      t := t.(state := FinWait2);
    } else if t.state == Closing {
      t := t.(state := TimeWait);
    } else if t.state == LastAck {
      t := t.(state := Closed, rtoAt := 0, recovery := NoRecovery);
    }
  }

  /** The acked bytes leave and the timer starts over. */
  method AdvanceTcb(t0: Tcb, ack: u32, newBase: nat, now: nat, ghost base: u32, ghost s: Snd, ghost a: int)
    returns (t: Tcb)
    requires Refines(t0, s, base) && ack == Wire(base, a) && -TWO31 < a - s.nxt < TWO31
    ensures Refines(t, Advance(s, a, newBase, now), base)
  {
    WireOrder(base, a, s.nxt);
    hide Wire;
    t := t0.(sndUna := ack, retries := 0, rtoBase := newBase, rtoMs := newBase, rtoAt := 0);
    if t.sndUna != t.sndNxt && t.rtoAt == 0 {
      t := t.(rtoAt := now + t.rtoMs);
    }
  }

  lemma AdvanceMoves(s: Snd, a: int, newBase: nat, now: nat)
    ensures var s' := Advance(s, a, newBase, now);
      s'.cwnd == s.cwnd && s'.recovery == s.recovery && s'.recover == s.recover && s'.nxt == s.nxt
        && s'.finSent == s.finSent
  {}

  lemma CcFields(s: Snd, acked: nat, a: int)
    ensures var s' := CcAcked(s, acked, a); s'.nxt == s.nxt && s'.finSent == s.finSent
  {
    hide Additive;
  }

  lemma AckedNear(s: Snd, a: int)
    requires SndInv(s) && Synced(s.state) && s.una < a <= s.nxt
    ensures a - s.una <= s.nxt - s.una <= TX_BUF + 1 && s.cwnd >= 1
    ensures s.recovery != NoRecovery ==> -TWO31 < a - s.recover < TWO31
  {}

  /** The tail of tcp_got_ack: the probe byte, the persist timer, the peer's window. */
  method WindowTcb(t0: Tcb, segSeq: u32, ack: u32, window: nat, ghost base: u32, ghost s: Snd, ghost a: int)
    returns (t: Tcb)
    requires Refines(t0, s, base) && ack == Wire(base, a)
    requires s.nxt - TWO31 < a <= s.nxt && 0 <= s.nxt - s.una <= TX_BUF + 1
    ensures var s1 := Unprobe(s, a, window);
      var s2 := if window == 0 && a == s1.una then s1.(retries := 0) else s1;
      Refines(t,
              if s2.una <= a <= s2.nxt && SeqLeq(s2.wl1, segSeq) then s2.(wnd := window, wl1 := segSeq) else s2,
              base)
  {
    WireOrder(base, s.una, a);
    WireSub(base, s.nxt, a);
    hide Wire, Sub32;
    t := t0;
    if t.sndWnd == 0 && window != 0 && ack == t.sndUna && Sub32(t.sndNxt, ack) == 1 && !t.finSent {
      t := t.(sndNxt := ack, rtoAt := 0, rtoMs := t.rtoBase);
    }
    if window == 0 && ack == t.sndUna {
      t := t.(retries := 0);
    }
    ghost var nxt := Unprobe(s, a, window).nxt;
    WireOrder(base, a, nxt);
    hide SeqLeq;
    if SeqLeq(t.sndUna, ack) && SeqLeq(ack, t.sndNxt) && SeqLeq(t.sndWl1, segSeq) {
      t := t.(sndWnd := window, sndWl1 := segSeq);
    }
  }

  // ---------------------------------------------------------------- sending

  /** The transmit ring and where the stream sits in it. */
  ghost predicate TxOk(tx: array<byte>, txStart: nat, txLen: nat, s: Snd)
    reads tx
  {
    && txLen == TxLen(s)
    && TxHolds(tx[..], txStart, txLen, s.stream, Max(0, Min(s.una, |s.stream|)))
  }

  /** tcp_segment reads its data `off` bytes past snd_una. */
  method ReadTx(tx: array<byte>, txStart: nat, txLen: nat, off: nat, n: nat, ghost s: Snd) returns (bytes: seq<byte>)
    requires TxOk(tx, txStart, txLen, s) && 0 <= s.una && off + n <= txLen
    ensures bytes == Slice(s, s.una + off, n) && |bytes| == n
  {
    Ring.SlotIsMod(TX_BUF, txStart, off);
    bytes := Ring.Get(tx, (txStart + off) % TX_BUF, n);
    ghost var from := Max(0, Min(s.una, |s.stream|));
    forall k | 0 <= k < n
      ensures bytes[k] == s.stream[from + off + k]
    {
      if off < TX_BUF {
        Ring.SlotFrom(TX_BUF, txStart, off, off + k);
      }
      assert tx[..][Ring.Slot(TX_BUF, txStart, off + k)] == s.stream[from + (off + k)];
    }
    if n > 0 {
      assert from == s.una;
      assert Slice(s, s.una + off, n) == s.stream[s.una + off..s.una + off + n];
    }
  }

  /** tcp_resend */
  method ResendTcb(t: Tcb, num: u32, tx: array<byte>, txStart: nat, txLen: nat, out: seq<Packet>,
                   ghost base: u32, ghost s: Snd, ghost pos: int, ghost items: seq<Item>)
    returns (n: nat, out': seq<Packet>)
    requires Refines(t, s, base) && SndInv(s) && Synced(s.state) && TxOk(tx, txStart, txLen, s)
    requires num == Wire(base, pos) && s.una <= pos <= s.high && (s.finSent ==> s.una < s.nxt)
    requires Encoded(base, items, out)
    ensures n == Resend(s, pos, items).0 && Encoded(base, Resend(s, pos, items).1, out')
  {
    ResendNear(s, pos);
    hide SndInv, Encoded, TxOk, Slice;
    WireSub(base, pos, s.una);
    WireSub(base, s.nxt, s.una);
    WireOrder(base, pos, s.nxt - 1);
    WireShift(base, s.nxt, -1);
    var off := Sub32(num, t.sndUna);
    var dataEnd := Sub32(t.sndNxt, t.sndUna) - (if t.finSent then 1 else 0);
    if off < dataEnd {
      n := if dataEnd - off < t.mss then dataEnd - off else t.mss;
      var bytes := ReadTx(tx, txStart, txLen, off, n, s);
      out' := EmitPacket(out, Packet(num, KData, bytes), base, items, Data(pos, Slice(s, pos, n)));
    } else if t.finSent && num == Add32(t.sndNxt, -1) {
      out' := EmitPacket(out, Packet(num, KFin, []), base, items, Fin(pos));
      n := 1;
    } else {
      n, out' := 0, out;
    }
  }

  lemma ResendNear(s: Snd, pos: int)
    requires SndInv(s) && Synced(s.state) && s.una <= pos <= s.high
    ensures 0 <= s.una <= s.nxt && s.nxt - s.una <= TX_BUF + 1 && s.high - s.una <= TX_BUF + 1
    ensures s.nxt - (if s.finSent then 1 else 0) <= |s.stream|
    ensures pos < s.nxt - (if s.finSent then 1 else 0) ==>
        pos - s.una + (s.nxt - (if s.finSent then 1 else 0) - pos) <= TxLen(s)
  {}

  /** The go-back-n loop of tcp_push_recovery. */
  method ResendAllTcb(t0: Tcb, tx: array<byte>, txStart: nat, txLen: nat, out: seq<Packet>,
                      ghost base: u32, ghost s0: Snd, ghost items0: seq<Item>)
    returns (t: Tcb, out': seq<Packet>)
    requires Refines(t0, s0, base) && SndInv(s0) && s0.recovery == Rto && s0.una <= s0.rtx
    requires TxOk(tx, txStart, txLen, s0) && ItemsOk(s0, items0) && Encoded(base, items0, out)
    ensures var (s, items) := ResendAll(s0, items0); Refines(t, s, base) && Encoded(base, items, out')
  {
    hide SndInv, ItemsOk, ResendAll, TxOk, Refines;
    t, out' := t0, out;
    ghost var s, items := s0, items0;
    var more := true;
    while more
      invariant Refines(t, s, base) && s == s0.(rtx := s.rtx) && Encoded(base, items, out')
      invariant more ==> SndInv(s) && s.una <= s.rtx && ItemsOk(s, items) && TxOk(tx, txStart, txLen, s)
      invariant ResendAll(s0, items0) == if more then ResendAll(s, items) else (s, items)
      decreases more, OUT_MAX - |out'|
    {
      t, out', more, s, items := ResendNext(t, tx, txStart, txLen, out', base, s, items);
    }
  }

  /** One turn of it. */
  method ResendNext(t0: Tcb, tx: array<byte>, txStart: nat, txLen: nat, out: seq<Packet>,
                    ghost base: u32, ghost s: Snd, ghost items: seq<Item>)
    returns (t: Tcb, out': seq<Packet>, more: bool, ghost s': Snd, ghost items': seq<Item>)
    requires Refines(t0, s, base) && SndInv(s) && s.recovery == Rto && s.una <= s.rtx
    requires TxOk(tx, txStart, txLen, s) && ItemsOk(s, items) && Encoded(base, items, out)
    ensures Refines(t, s', base) && s' == s.(rtx := s'.rtx) && Encoded(base, items', out')
    ensures more ==> SndInv(s') && s'.una <= s'.rtx && ItemsOk(s', items') && TxOk(tx, txStart, txLen, s')
    ensures more ==> |out| < |out'| && |out| < OUT_MAX
    ensures ResendAll(s, items) == if more then ResendAll(s', items') else (s', items')
  {
    t, out', more, s', items' := t0, out, false, s, items;
    RtoNear(s);
    ResendOk(s, s.rtx, items);
    hide SndInv, ItemsOk, Resend, TxHolds, Encode, Wire, Sub32, SeqLt;
    WireOrder(base, s.rtx, s.recover);
    WireSub(base, s.rtx, s.una);
    if SeqLt(t.rtxNxt, t.recover) && Sub32(t.rtxNxt, t.sndUna) < t.cwnd && |out| < OUT_MAX {
      var n;
      n, out' := ResendTcb(t, t.rtxNxt, tx, txStart, txLen, out, base, s, s.rtx, items);
      items' := Resend(s, s.rtx, items).1;
      if n != 0 {
        ResendStep(s, items, n);
        WireShift(base, s.rtx, n);
        t := t.(rtxNxt := Add32(t.rtxNxt, n));
        s' := s.(rtx := s.rtx + n);
        more := true;
      }
    }
  }

  lemma RtoNear(s: Snd)
    requires SndInv(s) && s.recovery == Rto && s.una <= s.rtx
    ensures Synced(s.state) && s.una < s.recover <= s.high && s.una <= s.rtx <= s.high
    ensures s.high - s.una <= TX_BUF + 1 && (s.finSent ==> s.una < s.nxt)
  {}

  lemma ResendStep(s: Snd, items: seq<Item>, n: nat)
    requires SndInv(s) && s.recovery == Rto && s.una <= s.rtx && ItemsOk(s, items)
    requires n == Resend(s, s.rtx, items).0
    ensures var s' := s.(rtx := s.rtx + n); SndInv(s') && ItemsOk(s', Resend(s, s.rtx, items).1)
    ensures n > 0 && |items| < OUT_MAX ==> |Resend(s, s.rtx, items).1| > |items|
  {
    ResendOk(s, s.rtx, items);
  }

  /** tcp_push_recovery */
  method PushRecoveryTcb(t0: Tcb, tx: array<byte>, txStart: nat, txLen: nat, out: seq<Packet>,
                         ghost base: u32, ghost s: Snd, ghost items: seq<Item>)
    returns (t: Tcb, out': seq<Packet>)
    requires Refines(t0, s, base) && SndInv(s)
    requires TxOk(tx, txStart, txLen, s) && ItemsOk(s, items) && Encoded(base, items, out)
    ensures var (s', items') := PushRecovery(s, items); Refines(t, s', base) && Encoded(base, items', out')
  {
    hide Encoded, ItemsOk, Resend, ResendAll, TxHolds;
    t, out' := t0, out;
    if t.recovery == Fast {
      if t.rtxOne {
        t := t.(rtxOne := false);
        var _, o := ResendTcb(t0, t.sndUna, tx, txStart, txLen, out, base, s, s.una, items);
        out' := o;
      }
      return;
    }
    if t.recovery != Rto {
      return;
    }
    ghost var s1 := s;
    RtoBehind(s);
    WireOrder(base, s.rtx, s.una);
    if SeqLt(t.rtxNxt, t.sndUna) {
      t := t.(rtxNxt := t.sndUna);
      s1 := s.(rtx := s.una);
      LaterItems(s, s1, items);
    }
    t, out' := ResendAllTcb(t, tx, txStart, txLen, out, base, s1, items);
  }

  lemma RtoBehind(s: Snd)
    requires SndInv(s) && s.recovery == Rto
    ensures -TWO31 < s.rtx - s.una < TWO31
    ensures s.rtx < s.una ==> SndInv(s.(rtx := s.una)) && Later(s, s.(rtx := s.una))
  {}

  /** The send loop of tcp_push. */
  method PushDataTcb(t0: Tcb, wnd: nat, now: nat, tx: array<byte>, txStart: nat, txLen: nat, out: seq<Packet>,
                     ghost base: u32, ghost s0: Snd, ghost items0: seq<Item>)
    returns (t: Tcb, out': seq<Packet>)
    requires Refines(t0, s0, base) && SndInv(s0) && s0.state in {Established, CloseWait}
    requires TxOk(tx, txStart, txLen, s0) && ItemsOk(s0, items0) && Encoded(base, items0, out)
    ensures var (s, items) := PushData(s0, wnd, now, items0); Refines(t, s, base) && Encoded(base, items, out')
  {
    t, out' := t0, out;
    ghost var s, items := s0, items0;
    while true
      invariant Refines(t, s, base) && SndInv(s) && s == s0.(nxt := s.nxt, high := s.high, rtoAt := s.rtoAt)
      invariant ItemsOk(s, items) && Encoded(base, items, out')
      invariant PushData(s0, wnd, now, items0) == PushData(s, wnd, now, items)
      decreases OUT_MAX - |out'|
    {
      PushNear(s);
      hide SndInv, ItemsOk, TxHolds, Encode, Encoded, Wire, Sub32, Slice, SegSize, Sent;
      WireSub(base, s.nxt, s.una);
      var sent := Sub32(t.sndNxt, t.sndUna);
      var n := SegSizeTcb(t, wnd, sent, txLen, s);
      if |out'| >= OUT_MAX || n == 0 {
        break;
      }
      PushStepKeeps(s, n, now, items);
      t, out' := SendOneTcb(t, n, now, tx, txStart, txLen, sent, out', base, s, items);
      items := Emit(items, Data(s.nxt, Slice(s, s.nxt, n)));
      s := Sent(s, n, now);
    }
  }

  /** One data segment leaves. */
  method SendOneTcb(t0: Tcb, n: nat, now: nat, tx: array<byte>, txStart: nat, txLen: nat, sent: nat, out: seq<Packet>,
                    ghost base: u32, ghost s: Snd, ghost items: seq<Item>)
    returns (t: Tcb, out': seq<Packet>)
    requires Refines(t0, s, base) && TxOk(tx, txStart, txLen, s) && 0 <= s.una && sent == s.nxt - s.una
      && sent + n <= txLen
    requires Encoded(base, items, out)
    ensures Refines(t, Sent(s, n, now), base)
    ensures Encoded(base, Emit(items, Data(s.nxt, Slice(s, s.nxt, n))), out')
  {
    hide Encoded, Slice, TxHolds, Sent, TxLen, Wire;
    var bytes := ReadTx(tx, txStart, txLen, sent, n, s);
    out' := EmitPacket(out, Packet(t0.sndNxt, KData, bytes), base, items, Data(s.nxt, Slice(s, s.nxt, n)));
    t := SentTcb(t0, n, now, base, s);
  }

  /** One turn of the loop decides how much goes. */
  method SegSizeTcb(t: Tcb, wnd: nat, sent: nat, txLen: nat, ghost s: Snd) returns (n: nat)
    requires t.mss == s.mss >= 1 && sent == s.nxt - s.una && txLen == TxLen(s)
    ensures n == SegSize(s, wnd) && sent + n <= Max(txLen, sent)
  {
    n := 0;
    var room := if wnd > sent then wnd - sent else 0;
    if sent >= txLen || room == 0 {
      return;
    }
    n := txLen - sent;
    if n > t.mss {
      n := t.mss;
    }
    if n > room {
      n := if sent != 0 then 0 else room;
    }
  }

  method SentTcb(t0: Tcb, n: nat, now: nat, ghost base: u32, ghost s: Snd) returns (t: Tcb)
    requires Refines(t0, s, base)
    ensures Refines(t, Sent(s, n, now), base)
  {
    WireShift(base, s.nxt, n);
    hide Wire;
    t := t0.(sndNxt := Add32(t0.sndNxt, n));
    if t.rtoAt == 0 {
      t := t.(rtoAt := now + t.rtoMs);
    }
  }

  lemma PushNear(s: Snd)
    requires SndInv(s) && s.state in {Established, CloseWait}
    ensures 0 <= s.una <= s.nxt && s.nxt - s.una <= TxLen(s) <= TX_BUF && s.mss >= 1
  {}

  /** tcp_push */
  method PushTcb(t0: Tcb, now: nat, tx: array<byte>, txStart: nat, txLen: nat, out: seq<Packet>,
                 ghost base: u32, ghost s0: Snd, ghost items0: seq<Item>)
    returns (t: Tcb, out': seq<Packet>)
    requires Refines(t0, s0, base) && SndInv(s0)
    requires TxOk(tx, txStart, txLen, s0) && ItemsOk(s0, items0) && Encoded(base, items0, out)
    ensures var (s, items) := Push(s0, now, items0); Refines(t, s, base) && Encoded(base, items, out')
  {
    hide SndInv, ItemsOk, TxHolds, Encoded, PushRecovery, PushData;
    PushRecoveryKeeps(s0, items0);
    t, out' := PushRecoveryTcb(t0, tx, txStart, txLen, out, base, s0, items0);
    ghost var (s1, items1) := PushRecovery(s0, items0);
    if t.state != Established && t.state != CloseWait {
      return;
    }
    var wnd := if t.sndWnd < t.cwnd then t.sndWnd else t.cwnd;
    PushDataKeeps(s1, wnd, now, items1);
    t, out' := PushDataTcb(t, wnd, now, tx, txStart, txLen, out', base, s1, items1);
    ghost var (s2, items2) := PushData(s1, wnd, now, items1);
    t, out' := PushFinTcb(t, now, txLen, out', base, s2, items2);
  }

  /** The end of tcp_push: the FIN, and the persist timer for a shut window. */
  method PushFinTcb(t0: Tcb, now: nat, txLen: nat, out: seq<Packet>, ghost base: u32, ghost s: Snd,
                    ghost items: seq<Item>)
    returns (t: Tcb, out': seq<Packet>)
    requires Refines(t0, s, base) && SndInv(s) && s.state in {Established, CloseWait}
    requires txLen == TxLen(s) && Encoded(base, items, out)
    ensures var (s1, items1) := PushFin(s, now, items);
      && Encoded(base, items1, out')
      && Refines(t, if TxLen(s1) > 0 && s.nxt == s.una && s.wnd == 0 then Arm(s1, now) else s1, base)
  {
    PushNear(s);
    WireSub(base, s.nxt, s.una);
    WireShift(base, s.nxt, 1);
    hide SndInv, Encoded, Wire, Sub32;
    t, out' := t0, out;
    var sent := Sub32(t.sndNxt, t.sndUna);
    if t.finWanted && !t.finSent && sent == txLen {
      out' := EmitPacket(out, Packet(t.sndNxt, KFin, []), base, items, Fin(s.nxt));
      t := t.(sndNxt := Add32(t.sndNxt, 1), finSent := true,
              state := if t.state == CloseWait then LastAck else FinWait1);
      if t.rtoAt == 0 {
        t := t.(rtoAt := now + t.rtoMs);
      }
    }
    if txLen > 0 && sent == 0 && t.sndWnd == 0 && t.rtoAt == 0 {
      t := t.(rtoAt := now + t.rtoMs);
    }
  }

  /** tcp_timeout */
  method TimeoutTcb(t0: Tcb, now: nat, tx: array<byte>, txStart: nat, txLen: nat, out: seq<Packet>,
                    ghost base: u32, ghost s: Snd, ghost items: seq<Item>)
    returns (t: Tcb, out': seq<Packet>)
    requires Refines(t0, s, base) && SndInv(s) && s.state !in {Closed, Listen}
    requires TxOk(tx, txStart, txLen, s) && Encoded(base, items, out)
    ensures var (s', items') := Timeout(s, now, items); Refines(t, s', base) && Encoded(base, items', out')
  {
    TimeoutNear(s);
    WireSub(base, s.nxt, s.una);
    WireShift(base, s.nxt, 1);
    hide SndInv, Encoded, Wire, Sub32, Slice, TxHolds, Retry, Backoff;
    t, out' := t0, out;
    var flight := Sub32(t.sndNxt, t.sndUna);
    var probe := flight == 0 && txLen > 0 && t.sndWnd == 0;
    var syn := t.state == SynSent || t.state == SynRcvd;
    if !syn && flight == 0 && !probe {
      t := t.(rtoAt := 0);
      return;
    }
    var limit := if syn then SYN_RETRIES else RETRIES;
    t := t.(retries := t.retries + 1);
    if t.retries > limit {
      if !syn {
        out' := EmitPacket(out, Packet(t.sndNxt, KRst, []), base, items, Rst(s.nxt, false));
      }
      t := t.(state := Closed, rtoAt := 0, recovery := NoRecovery);
      return;
    }
    t, out' := RetryTcb(t, syn, probe, flight, tx, txStart, txLen, out, base, s.(retries := s.retries + 1), items);
    t := BackoffTcb(t, now, base, Retry(s.(retries := s.retries + 1), probe, items).0);
  }

  method BackoffTcb(t0: Tcb, now: nat, ghost base: u32, ghost s: Snd) returns (t: Tcb)
    requires Refines(t0, s, base)
    ensures Refines(t, Backoff(s, now), base)
  {
    hide Wire;
    t := t0.(rtoMs := if t0.rtoMs * 2 > RTO_MAX_MS then RTO_MAX_MS else t0.rtoMs * 2);
    t := t.(rtoAt := now + t.rtoMs);
  }

  /** What a timeout sends: the SYN again, a window probe, or everything from snd_una on. */
  method RetryTcb(t0: Tcb, syn: bool, probe: bool, flight: nat, tx: array<byte>, txStart: nat, txLen: nat,
                  out: seq<Packet>,
                  ghost base: u32, ghost s: Snd, ghost items: seq<Item>)
    returns (t: Tcb, out': seq<Packet>)
    requires Refines(t0, s, base) && TxOk(tx, txStart, txLen, s) && Encoded(base, items, out)
    requires syn == Handshaking(s) && flight == s.nxt - s.una && (syn ==> s.una == -1)
    requires !syn && probe ==> txLen > 0 && 0 <= s.una == s.nxt
    ensures var (s', items') := Retry(s, probe, items); Refines(t, s', base) && Encoded(base, items', out')
  {
    WireShift(base, s.nxt, 1);
    hide Encoded, Wire, Slice, TxHolds;
    t, out' := t0, out;
    if syn {
      out' := EmitPacket(out, Packet(t.sndUna, KSyn, []), base, items, Syn(-1));
    } else if probe {
      var bytes := ReadTx(tx, txStart, txLen, 0, 1, s);
      out' := EmitPacket(out, Packet(t.sndNxt, KData, bytes), base, items, Data(s.nxt, Slice(s, s.nxt, 1)));
      t := t.(sndNxt := Add32(t.sndNxt, 1));
    } else {
      var half := flight / 2;
      t := t.(ssthresh := if half > 2 * t.mss then half else 2 * t.mss, cwnd := t.mss, dupacks := 0, rtxOne := false,
              recovery := Rto, recover := t.sndNxt, rtxNxt := t.sndUna);
    }
  }

  lemma TimeoutNear(s: Snd)
    requires SndInv(s) && s.state !in {Closed, Listen}
    ensures s.una <= s.nxt && s.nxt - s.una <= TX_BUF + 1
    ensures Handshaking(s) ==> s.una == -1
    ensures !Handshaking(s) ==> 0 <= s.una
  {}

  // ---------------------------------------------------------------- the sender

  class Sender {
    const tx: array<byte>
    var txStart: nat
    var txLen: nat
    var t: Tcb

    ghost var base: u32   // the sequence number of position 0
    ghost var view: Snd   // the same sender, free of ring and 32-bit numbers

    ghost predicate Valid()
      reads this, tx
    {
      Refines(t, view, base) && SndInv(view) && TxOk(tx, txStart, txLen, view)
    }

    /** What the fields say of the view. */
    lemma Fields()
      requires Valid()
      ensures t.state == view.state && t.finSent == view.finSent && t.finWanted == view.finWanted
        && t.rtoAt == view.rtoAt
      ensures t.sndNxt == Wire(base, view.nxt) && t.sndUna == Wire(base, view.una)
    {}

    /** tcp_connect: the SYN takes number `iss`. */
    constructor (iss: u32, now: nat)
      ensures Valid() && fresh(tx) && base == Add32(iss, 1)
      ensures view == Connecting(now)
    {
      tx := new byte[TX_BUF];
      txStart, txLen := 0, 0;
      WireShift(Add32(iss, 1), 0, -1);
      t := Tcb(SynSent, iss, Add32(iss, 1), 0, 0, MSS_DEFAULT, 0, 0, 0, NoRecovery, 0, 0, false,
               false, false, now + RTO_MS, RTO_MS, RTO_MS, 0);
      base := Add32(iss, 1);
      view := Connecting(now);
    }

    /** tcp_listen_input: a child whose SYN takes number `iss`. */
    constructor Child(iss: u32, mss: nat, window: nat, segSeq: u32, now: nat)
      ensures Valid() && fresh(tx) && base == Add32(iss, 1)
      ensures view == Accepting(mss, window, segSeq, now)
    {
      tx := new byte[TX_BUF];
      txStart, txLen := 0, 0;
      WireShift(Add32(iss, 1), 0, -1);
      var m := if mss < TCP_MSS then mss else TCP_MSS;
      t := Tcb(SynRcvd, iss, Add32(iss, 1), window, segSeq, m, INIT_CWND * m, 0xFFFF_FFFF, 0, NoRecovery, 0, 0, false,
               false, false, now + RTO_MS, RTO_MS, RTO_MS, 0);
      base := Add32(iss, 1);
      view := Accepting(mss, window, segSeq, now);
    }

    /** tcp_got_ack */
    method GotAck(segSeq: u32, ack: u32, window: nat, bare: bool, newBase: nat, now: nat)
      requires Valid() && Synced(t.state) && newBase >= 1
      requires !SeqLt(t.sndNxt, ack)
      modifies this`txStart, this`txLen, this`t, this`view
      ensures Valid()
      ensures view == TcpSendSpec.GotAck(old(view), segSeq, UnwrapUp(base, old(view).nxt, ack), window, bare, newBase,
        now)
    {
      Fields();
      hide SndInv, TcpSendSpec.GotAck, TxOk, UnwrapUp, Wire, SeqLt, TxLen, Refines, Ring.Slot, Dropped, Slid;
      ghost var a := UnwrapUp(base, view.nxt, ack);
      AckRing(view, segSeq, a, window, bare, newBase, now, tx, txStart, txLen);
      var drop;
      t, drop := GotAckTcb(t, txLen, segSeq, ack, window, bare, newBase, now, base, view);
      SlidIs(txStart, drop);
      txStart, txLen := Slid(txStart, drop), txLen - drop;
      view := TcpSendSpec.GotAck(view, segSeq, a, window, bare, newBase, now);
    }

    /** tcp_syn_sent on the peer's SYN and ack of ours. */
    method SynAcked(mss: nat, window: nat, segSeq: u32)
      requires Valid() && t.state == SynSent && mss >= 1
      modifies this`t, this`view
      ensures Valid() && view == TcpSendSpec.SynAcked(old(view), mss, window, segSeq)
    {
      SynAckedKeeps(view, mss, window, segSeq);
      hide SndInv, TxHolds, Wire;
      var m := if mss < TCP_MSS then mss else TCP_MSS;
      t := t.(mss := m, cwnd := INIT_CWND * m, ssthresh := 0xFFFF_FFFF, sndUna := t.sndNxt, sndWnd := window,
              sndWl1 := segSeq, state := Established, rtoAt := 0, rtoMs := t.rtoBase, retries := 0);
      view := TcpSendSpec.SynAcked(view, mss, window, segSeq);
    }

    /** The end of tcp_syn_rcvd: our SYN is acked. */
    method Connect()
      requires Valid() && t.state == SynRcvd && t.mss >= 1 && t.cwnd >= 1 && t.ssthresh >= 1
      modifies this`t, this`view
      ensures Valid() && view == Connected(old(view))
    {
      ConnectKeeps(view);
      hide SndInv, TxHolds, Wire;
      t := t.(sndUna := t.sndNxt, state := Established, rtoAt := 0, rtoMs := t.rtoBase, retries := 0);
      view := Connected(view);
    }

    /** tcp_set_closed */
    method Close()
      requires Valid()
      modifies this`t, this`view
      ensures Valid() && view == SetClosed(old(view))
    {
      ClosedKeeps(view);
      hide SndInv, TxHolds, Wire;
      t := t.(state := Closed, rtoAt := 0, recovery := NoRecovery);
      view := SetClosed(view);
    }

    /** No more data will be sent (shutdown or detach). */
    method WantFin()
      requires Valid() && Synced(t.state)
      modifies this`t, this`view
      ensures Valid() && view == old(view).(finWanted := true)
    {
      WantFinKeeps(view);
      hide SndInv, TxHolds, Wire;
      t := t.(finWanted := true);
      view := view.(finWanted := true);
    }

    /** The state change at the end of tcp_got_data. */
    method PeerFinish()
      requires Valid() && CanTake(t.state)
      modifies this`t, this`view
      ensures Valid() && view == old(view).(state := PeerFinished(old(view).state))
    {
      PeerFinishedKeeps(view, t, base);
      hide SndInv, Refines, TxHolds;
      if t.state == Established {
        t := t.(state := CloseWait);
      } else if t.state == FinWait1 {
        t := t.(state := Closing);
      } else if t.state == FinWait2 {
        t := t.(state := TimeWait);
      }
      view := view.(state := PeerFinished(view.state));
    }

    /** tcp_push */
    method Push(now: nat, out: seq<Packet>, ghost items: seq<Item>) returns (out': seq<Packet>, ghost items': seq<Item>)
      requires Valid() && ItemsOk(view, items) && Encoded(base, items, out)
      modifies this`t, this`view
      ensures Valid() && ItemsOk(view, items') && Encoded(base, items', out')
      ensures (view, items') == TcpSendSpec.Push(old(view), now, items)
    {
      PushKeeps(view, now, items);
      PushRing(view, now, items);
      hide SndInv, ItemsOk, Encoded, TcpSendSpec.Push, TxHolds;
      t, out' := PushTcb(t, now, tx, txStart, txLen, out, base, view, items);
      items' := TcpSendSpec.Push(view, now, items).1;
      view := TcpSendSpec.Push(view, now, items).0;
    }

    /** tcp_timeout */
    method Timeout(now: nat, out: seq<Packet>, ghost items: seq<Item>)
      returns (out': seq<Packet>, ghost items': seq<Item>)
      requires Valid() && t.state !in {Closed, Listen} && ItemsOk(view, items) && Encoded(base, items, out)
      modifies this`t, this`view
      ensures Valid() && ItemsOk(view, items') && Encoded(base, items', out')
      ensures (view, items') == TcpSendSpec.Timeout(old(view), now, items)
    {
      TimeoutKeeps(view, now, items);
      TimeoutRing(view, now, items);
      hide SndInv, ItemsOk, Encoded, TcpSendSpec.Timeout, TxHolds;
      t, out' := TimeoutTcb(t, now, tx, txStart, txLen, out, base, view, items);
      items' := TcpSendSpec.Timeout(view, now, items).1;
      view := TcpSendSpec.Timeout(view, now, items).0;
    }

    /** tcp_send, once the state allows it: the bytes the ring has room for. */
    method Send(data: seq<byte>) returns (n: nat)
      requires Valid() && t.state in {Established, CloseWait} && !t.finWanted
      modifies this`txLen, this`view, tx
      ensures Valid()
      ensures n == Min(|data|, TX_BUF - old(txLen)) && n <= |data|
      ensures view == Accept(old(view), data) && view.stream == old(view).stream + data[..n]
    {
      AcceptKeeps(view, data);
      PushNear(view);
      hide SndInv;
      var room := TX_BUF - txLen;
      n := if |data| < room then |data| else room;
      Ring.SlotIsMod(TX_BUF, txStart, txLen);
      label before:
      Ring.Put(tx, (txStart + txLen) % TX_BUF, data[..n]);
      TxAppend(old@before(tx[..]), tx[..], txStart, txLen, view.stream, Max(0, Min(view.una, |view.stream|)),
        data[..n]);
      hide TxHolds;
      txLen := txLen + n;
      view := Accept(view, data);
    }
  }

  lemma PeerFinishedKeeps(s: Snd, t: Tcb, base: u32)
    requires SndInv(s) && CanTake(s.state) && Refines(t, s, base)
    ensures t.state == s.state
    ensures var st := PeerFinished(s.state);
      && SndInv(s.(state := st)) && Refines(t.(state := st), s.(state := st), base)
      && TxLen(s.(state := st)) == TxLen(s)
  {}

  lemma SynAckedKeeps(s: Snd, mss: nat, window: nat, segSeq: u32)
    requires SndInv(s) && s.state == SynSent && mss >= 1
    ensures var s' := TcpSendSpec.SynAcked(s, mss, window, segSeq); SndInv(s') && TxLen(s') == TxLen(s)
    ensures s.nxt == 0 && s.una == -1 && s.stream == []
  {}

  lemma ConnectKeeps(s: Snd)
    requires SndInv(s) && s.state == SynRcvd && s.mss >= 1 && s.cwnd >= 1 && s.ssthresh >= 1
    ensures SndInv(Connected(s)) && TxLen(Connected(s)) == TxLen(s)
    ensures s.nxt == 0 && s.una == -1 && s.stream == []
  {}

  lemma ClosedKeeps(s: Snd)
    requires SndInv(s)
    ensures SndInv(SetClosed(s)) && TxLen(SetClosed(s)) == TxLen(s)
  {}

  lemma WantFinKeeps(s: Snd)
    requires SndInv(s) && Synced(s.state)
    ensures var s' := s.(finWanted := true); SndInv(s') && TxLen(s') == TxLen(s)
  {}

  lemma AckRing(s: Snd, segSeq: u32, a: int, window: nat, bare: bool, newBase: nat, now: nat, tx: array<byte>,
                start: nat, len: nat)
    requires SndInv(s) && Synced(s.state) && newBase >= 1 && TxOk(tx, start, len, s)
    ensures len == TxLen(s) && start < TX_BUF && len <= TX_BUF
    ensures var s' := TcpSendSpec.GotAck(s, segSeq, a, window, bare, newBase, now);
      var drop := Dropped(s, a, len);
      SndInv(s') && 0 <= drop <= len && TxOk(tx, Ring.Slot(TX_BUF, start, drop), len - drop, s')
  {
    AckKeeps(s, segSeq, a, window, bare, newBase, now);
    AckMoves(s, segSeq, a, window, bare, newBase, now);
    hide SndInv, TcpSendSpec.GotAck;
    var drop := if s.una < a <= s.nxt then Min(a - s.una, len) else 0;
    TxDrop(tx[..], start, len, s.stream, Max(0, Min(s.una, |s.stream|)), drop);
  }
}
