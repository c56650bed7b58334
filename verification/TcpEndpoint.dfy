/** One end of a TCP connection: tcp_input, tcp_send, tcp_recv, tcp_shutdown, tcp_detach and the
    tick, on stream positions. */
module TcpEndpoint {
  import opened Collections
  import opened TcpSeq
  import opened TcpSendSpec
  import opened TcpSendFacts
  import opened TcpReceiver

  /** A segment, with the positions its numbers stand for. */
  datatype Seg = Seg(
    pos: int,             // of its first byte
    ack: int,             // the sender's rcv_nxt
    isAck: bool, syn: bool, fin: bool, rst: bool,
    window: nat,
    data: seq<byte>)

  datatype End = End(
    snd: Snd,
    rcv: Rcv,
    peer: u32,            // number of the peer's position 0, once its SYN is known
    sndShift: nat, rcvShift: nat,
    detached: bool,
    got: seq<byte>)       // everything tcp_recv has handed out

  /** What a call does not decide itself: clock, round-trip sample, options, allocation, table. */
  datatype Env = Env(now: nat, rtoBase: nat, mss: nat, sndShift: nat, rcvShift: nat, rings: bool, dropped: bool)

  function Shr(x: nat, n: nat): nat decreases n { if n == 0 then x else Shr(x / 2, n - 1) }
  function Shl(x: nat, n: nat): nat decreases n { if n == 0 then x else Shl(x * 2, n - 1) }

  function Pow2(n: nat): (p: nat)
    ensures p > 0
  {
    if n == 0 then 1 else 2 * Pow2(n - 1)
  }

  /** Shifts are divisions and products by powers of two. */
  lemma ShiftsAre(x: nat, n: nat)
    ensures Shr(x, n) == x / Pow2(n) && Shl(x, n) == x * Pow2(n)
  {
    ShrIs(x, n);
    ShlIs(x, n);
    hide *;
  }

  lemma {:induction false} ShrIs(x: nat, n: nat)
    ensures Shr(x, n) == x / Pow2(n)
    decreases n
  {
    if n > 0 {
      var p := Pow2(n - 1);
      ShrIs(x / 2, n - 1);
      Halves(x, p);
    }
  }

  lemma {:induction false} ShlIs(x: nat, n: nat)
    ensures Shl(x, n) == x * Pow2(n)
    decreases n
  {
    if n > 0 {
      var p := Pow2(n - 1);
      ShlIs(x * 2, n - 1);
      assert x * 2 * p == x * (2 * p);
    }
  }

  lemma Halves(x: nat, p: nat)
    requires p > 0
    ensures x / 2 / p == x / (2 * p)
  {
    var q, r := x / 2 / p, x / 2 % p;
    assert x / 2 == q * p + r;
    assert x == q * (2 * p) + (2 * r + x % 2);
    Quotient(x, 2 * p, q, 2 * r + x % 2);
  }

  lemma Quotient(x: nat, d: nat, q: nat, r: nat)
    requires d > 0 && x == q * d + r && r < d
    ensures x / d == q
  {
    var k := x / d;
    Division(x, d);
    assert (q + 1) * d == q * d + d && (k + 1) * d == k * d + d;
    if k > q {
      Times(q + 1, k, d);
    } else if k < q {
      Times(k + 1, q, d);
    }
  }

  lemma Division(x: nat, d: nat)
    requires d > 0
    ensures x / d * d <= x < x / d * d + d
  {}

  lemma Times(a: nat, b: nat, d: nat)
    requires a <= b
    ensures a * d <= b * d
  {}

  /** tcp_rcv_window */
  function RcvWindow(e: End): nat {
    Min(Shr(Max(Room(e.rcv), 0), e.rcvShift), 0xFFFF)
  }

  /** The window a segment carries, read with the same scale, is no more than there is room for, and less only by what
      the scale rounds off or the field cannot hold. */
  lemma WindowFits(e: End)
    ensures var said, room := Shl(RcvWindow(e), e.rcvShift), Max(Room(e.rcv), 0);
      said <= room && (room - said < Pow2(e.rcvShift) || RcvWindow(e) == 0xFFFF)
  {
    var room, p := Max(Room(e.rcv), 0), Pow2(e.rcvShift);
    ShiftsAre(room, e.rcvShift);
    ShiftsAre(RcvWindow(e), e.rcvShift);
    hide Shr, Shl, Pow2;
    Rounded(room, p, RcvWindow(e));
  }

  lemma Rounded(room: nat, p: nat, w: nat)
    requires p > 0 && w == if room / p < 0xFFFF then room / p else 0xFFFF
    ensures w * p <= room && (room - w * p < p || w == 0xFFFF)
  {
    Division(room, p);
    Times(w, room / p, p);
  }

  /** tcp_emit: the receiving half adds its ack and window. */
  function ToSeg(e: End, item: Item): Seg {
    var ack := Nxt(e.rcv);
    match item
    case Data(pos, bytes) => Seg(pos, ack, true, false, false, false, RcvWindow(e), bytes)
    case Fin(pos) => Seg(pos, ack, true, false, true, false, RcvWindow(e), [])
    case Syn(pos) => Seg(pos, ack, e.snd.state == SynRcvd, true, false, false, RcvWindow(e), [])
    case Ack(pos) => Seg(pos, ack, true, false, false, false, RcvWindow(e), [])
    case Rst(pos, acks) => Seg(pos, ack, acks, false, false, true, RcvWindow(e), [])
  }

  const FRESH: Rcv := Rcv(0, 0, map[], None, false)

  /** tcp_got_data with its state change. */
  ghost predicate TakeData(e: End, pos: int, data: seq<byte>, fin: bool, dropped: bool, e': End) {
    && Absorb(e.rcv, pos, data, fin, dropped, e'.rcv)
    && e' == e.(rcv := e'.rcv,
                snd := if e'.rcv.peerFin && !e.rcv.peerFin then e.snd.(state := PeerFinished(e.snd.state)) else e.snd)
  }

  /** tcp_got_ack, if the segment carries an ack. */
  function AckedEnd(e: End, g: Seg, env: Env): End {
    if g.isAck
    then e.(snd := GotAck(e.snd, Wire(e.peer, g.pos), g.ack, Shl(g.window, e.sndShift),
                          g.data == [] && !g.fin, env.rtoBase, env.now))
    else e
  }

  /** The middle of tcp_input: ack, then data. */
  ghost predicate TakeAckAndData(e: End, g: Seg, env: Env, e': End) {
    var e1 := AckedEnd(e, g, env);
    if (g.data != [] || g.fin) && CanTake(e1.snd.state)
    then TakeData(e1, g.pos, g.data, g.fin, env.dropped, e')
    else e' == e1
  }

  /** New data for a connection whose socket is gone. */
  predicate Unwanted(e: End, g: Seg) {
    e.detached && g.data != [] && SeqLt(Wire(e.peer, Nxt(e.rcv)), Wire(e.peer, g.pos + |g.data|))
      && CanTake(e.snd.state)
  }

  /** tcp_input for a connection past its handshake, segment not a reset. */
  ghost predicate SyncedInput(e: End, g: Seg, env: Env, e': End, out: seq<Item>) {
    var answer := g.data != [] || g.fin || g.syn;
    if g.isAck && e.snd.nxt < g.ack then e' == e && out == [Ack(e.snd.nxt)]
    else if Unwanted(e, g) then
      e' == e.(snd := SetClosed(e.snd)) && out == [Rst(g.ack, true)]
    else exists mid: End :: TakeAckAndData(e, g, env, mid) && Answers(mid, answer, env.now, e', out)
  }

  /** The end of tcp_input: send what can go, and ack everything that carried anything. */
  predicate Answers(mid: End, answer: bool, now: nat, e': End, out: seq<Item>) {
    if mid.snd.state == Closed then e' == mid && out == []
    else
      var (s, items) := Push(mid.snd, now, []);
      e' == mid.(snd := s) && out == if answer then Emit(items, Ack(s.nxt)) else items
  }

  /** A reset is believed when its number is in the window. */
  predicate ResetFits(e: End, g: Seg) {
    var win := Room(e.rcv);
    g.pos == Nxt(e.rcv) || Nxt(e.rcv) <= g.pos < Nxt(e.rcv) + (if win > 0 then win else 1)
  }

  /** tcp_syn_sent */
  predicate SynSentInput(e: End, g: Seg, env: Env, e': End, out: seq<Item>) {
    if g.isAck && g.ack != e.snd.nxt then e' == e && out == if g.rst then [] else [Rst(g.ack, false)]
    else if g.rst then out == [] && e' == if g.isAck then e.(snd := SetClosed(e.snd)) else e
    else if !g.syn || !g.isAck then e' == e && out == []
    else
      && e' == e.(snd := SynAcked(e.snd, env.mss, g.window, Wire(e'.peer, g.pos)), rcv := FRESH, peer := e'.peer,
                  sndShift := env.sndShift, rcvShift := env.rcvShift)
      && out == [Ack(e.snd.nxt)]
  }

  /** tcp_syn_rcvd, and what follows it once the connection stands. */
  ghost predicate SynRcvdInput(e: End, g: Seg, env: Env, e': End, out: seq<Item>) {
    if g.rst then out == [] && e' == if g.pos == Nxt(e.rcv) then e.(snd := SetClosed(e.snd)) else e
    else if g.syn && g.pos + 1 == Nxt(e.rcv) then e' == e && out == [Syn(-1)]
    else if !g.isAck then e' == e && out == []
    else if g.ack != e.snd.nxt then e' == e && out == [Rst(g.ack, false)]
    else if !env.rings then e' == e.(snd := SetClosed(e.snd)) && out == [Rst(g.ack, false)]
    else SyncedInput(e.(snd := Connected(e.snd), rcvShift := env.rcvShift), g, env, e', out)
  }

  /** tcp_listen_input, for the child it makes. */
  predicate ListenInput(e: End, g: Seg, env: Env, e': End, out: seq<Item>) {
    if g.rst || g.isAck || !g.syn then e' == e && out == []
    else
      && e' == e.(snd := Accepting(env.mss, g.window, Wire(e'.peer, g.pos), env.now), rcv := FRESH, peer := e'.peer,
                  sndShift := env.sndShift, rcvShift := 0)
      && out == [Syn(-1)]
  }

  /** tcp_input */
  ghost predicate Input(e: End, g: Seg, env: Env, e': End, out: seq<Item>) {
    match e.snd.state
    case Closed => e' == e && out == []
    case Listen => ListenInput(e, g, env, e', out)
    case SynSent => SynSentInput(e, g, env, e', out)
    case SynRcvd => SynRcvdInput(e, g, env, e', out)
    case _ =>
      if g.rst then out == [] && e' == if ResetFits(e, g) then e.(snd := SetClosed(e.snd)) else e
      else SyncedInput(e, g, env, e', out)
  }

  // ---------------------------------------------------------------- calls from the socket and the tick

  datatype Call =
    | Send(data: seq<byte>)
    | Recv(len: nat)
    | Shutdown
    | Detach
    | Tick
    | Probe           // what tcp_keepalive asks a silent peer
    | Drop            // any other way a connection is closed: abort, silence, time wait or linger over, unreachable,
                      // a reset for a connection the peer no longer has

  /** tcp_recv hands out the oldest bytes and may tell the peer about the room it made. */
  ghost predicate Reads(e: End, len: nat, e': End, out: seq<Item>) {
    var n := Min(len, e.rcv.data - e.rcv.read);
    && 0 <= n && |e'.got| == |e.got| + n
    && (forall p | e.rcv.read <= p < e.rcv.read + n ::
          p in e.rcv.known && e'.got[|e.got| + p - e.rcv.read] == e.rcv.known[p])
    && e.got <= e'.got
    && e' == e.(rcv := AfterRead(e.rcv, n), got := e'.got)
    && (out == [] || (out == [Ack(e.snd.nxt)] && e.snd.state != Closed && e.rcv.read < e.rcv.data))
  }

  function PushEnd(e: End, now: nat, items: seq<Item>): (End, seq<Item>) {
    var (s, out) := Push(e.snd, now, items);
    (e.(snd := s), out)
  }

  ghost predicate Called(e: End, c: Call, env: Env, e': End, out: seq<Item>) {
    match c
    case Send(data) =>
      if e.snd.state !in {Established, CloseWait} || e.snd.finWanted then e' == e && out == []
      else (e', out) == PushEnd(e.(snd := Accept(e.snd, data)), env.now, [])
    case Recv(len) => Reads(e, len, e', out)
    case Shutdown =>
      if !Synced(e.snd.state) || e.snd.finWanted then e' == e && out == []
      else (e', out) == PushEnd(e.(snd := e.snd.(finWanted := true)), env.now, [])
    case Detach =>
      if !Synced(e.snd.state) || e.snd.state == TimeWait then e' == e.(detached := true) && out == []
      else (e', out) == PushEnd(e.(detached := true, snd := e.snd.(finWanted := true)), env.now, [])
    case Tick =>
      if e.snd.state in {Closed, Listen} then e' == e && out == []
      else
        var (s, items) := if 0 < e.snd.rtoAt <= env.now then Timeout(e.snd, env.now, []) else (e.snd, []);
        (e', out) == PushEnd(e.(snd := s), env.now, items)
    case Probe => e' == e && (out == [] || (out == [Ack(e.snd.nxt - 1)] && Synced(e.snd.state)))
    case Drop =>
      && e' == e.(snd := SetClosed(e.snd))
      && (out == [] || out == [Rst(e.snd.nxt, false)]
          || (out == [Rst(e.snd.nxt, true)] && e.snd.state !in {Listen, SynSent, Closed}))
  }
}
