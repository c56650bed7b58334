/** What the sending half of a TCP connection does (kernel/src/net/tcp_input.c, tcp_output.c,
    tcp.c), stated on unbounded stream positions: the SYN sits at -1, data byte i at i, and the
    FIN right after the last byte.  No rings, no 32-bit numbers. */
module TcpSendSpec {

  import opened TcpSeq

  const TX_BUF: nat := 131072
  const OUT_MAX: nat := 24
  const RTO_MAX_MS: nat := 30000
  const SYN_RETRIES: nat := 5
  const RETRIES: nat := 8
  const CWND_MAX: nat := 0x4000_0000

  datatype State =
    | Closed | Listen | SynSent | SynRcvd | Established | FinWait1 | FinWait2
    | Closing | TimeWait | CloseWait | LastAck

  datatype Recovery = NoRecovery | Fast | Rto

  datatype Snd = Snd(
    state: State,
    una: int,             // oldest position not acked
    nxt: int,             // next position to send
    high: int,            // one past the highest position ever sent
    stream: seq<byte>,    // every byte tcp_send accepted
    wnd: nat,             // the peer's window
    wl1: u32,             // wire number that came with `wnd`
    mss: nat,
    cwnd: nat,
    ssthresh: nat,
    dupacks: nat,
    recovery: Recovery,
    recover: int,         // where the flight ended when recovery began
    rtx: int,
    rtxOne: bool,
    finWanted: bool,
    finSent: bool,
    rtoAt: nat,           // when the timer runs out, 0 while it is stopped
    rtoMs: nat,
    rtoBase: nat,
    retries: nat
  )

  /** A segment to be sent, before the receiving half adds its ack and window. */
  datatype Item = Data(pos: int, bytes: seq<byte>) | Fin(pos: int) | Syn(pos: int) | Ack(pos: int) |
    Rst(pos: int, acks: bool)

  function Min(a: int, b: int): int { if a < b then a else b }
  function Max(a: int, b: int): int { if a > b then a else b }

  /** tcp_segment drops what does not fit the batch. */
  function Emit(out: seq<Item>, item: Item): seq<Item> {
    if |out| < OUT_MAX then out + [item] else out
  }

  /** Bytes in the transmit ring: accepted and not acked. */
  function TxLen(s: Snd): int {
    |s.stream| - Max(0, Min(s.una, |s.stream|))
  }

  function Arm(s: Snd, now: nat): Snd {
    if s.rtoAt == 0 then s.(rtoAt := now + s.rtoMs) else s
  }

  function SetClosed(s: Snd): Snd {
    s.(state := Closed, rtoAt := 0, recovery := NoRecovery)
  }

  // ---------------------------------------------------------------- the handshake

  const RTO_MS: nat := 1000
  const MSS_DEFAULT: nat := 536
  const TCP_MSS: nat := 1460
  const INIT_CWND: nat := 10

  /** tcp_connect: our SYN is out and the timer runs. */
  function Connecting(now: nat): Snd {
    Snd(SynSent, -1, 0, 0, [], 0, 0, MSS_DEFAULT, 0, 0, 0, NoRecovery, 0, 0, false, false, false,
        now + RTO_MS, RTO_MS, RTO_MS, 0)
  }

  /** tcp_use_syn_opts, the part that concerns sending. */
  function UseOpts(s: Snd, mss: nat): Snd {
    var mss := Min(mss, TCP_MSS);
    s.(mss := mss, cwnd := INIT_CWND * mss, ssthresh := 0xFFFF_FFFF)
  }

  /** tcp_listen_input: a child answers a SYN. */
  function Accepting(mss: nat, window: nat, seg: u32, now: nat): Snd {
    UseOpts(Connecting(now).(state := SynRcvd, wnd := window, wl1 := seg), mss)
  }

  /** The handshake is through: nothing is in flight and the timer stops. */
  function Connected(s: Snd): Snd {
    s.(una := s.nxt, state := Established, rtoAt := 0, rtoMs := s.rtoBase, retries := 0)
  }

  /** tcp_syn_sent, on the peer's SYN and ack of ours. */
  function SynAcked(s: Snd, mss: nat, window: nat, seg: u32): Snd {
    Connected(UseOpts(s.(wnd := window, wl1 := seg), mss))
  }

  // ---------------------------------------------------------------- acks

  /** What congestion avoidance adds for an ack: about one segment a round trip, never nothing. */
  function Additive(mss: nat, cwnd: nat): (inc: nat)
    requires cwnd > 0
    ensures inc > 0
  {
    var inc := mss * mss / cwnd;
    if inc == 0 then 1 else inc
  }

  function Grow(s: Snd, acked: nat): Snd {
    var cwnd :=
      if s.cwnd < s.ssthresh then s.cwnd + Min(acked, s.mss)
      else if s.cwnd == 0 then 1
      else s.cwnd + Additive(s.mss, s.cwnd);
    s.(dupacks := 0, cwnd := Min(cwnd, CWND_MAX))
  }

  /** tcp_cc_acked */
  function CcAcked(s: Snd, acked: nat, ack: int): Snd {
    if s.recovery == NoRecovery then Grow(s, acked)
    else if ack < s.recover then
      if s.recovery == Fast then
        s.(cwnd := if s.cwnd > acked then s.cwnd - acked + s.mss else s.mss, rtxOne := true)
      else Grow(s, acked)
    else
      s.(cwnd := if s.recovery == Fast then s.ssthresh else s.cwnd, recovery := NoRecovery, dupacks := 0)
  }

  /** tcp_cc_dupack */
  function CcDupack(s: Snd): Snd {
    if s.recovery == Fast then s.(cwnd := s.cwnd + s.mss)
    else if s.recovery == Rto then s
    else
      var s := s.(dupacks := s.dupacks + 1);
      if s.dupacks < 3 then s
      else
        var ssthresh := Max(Max(s.nxt - s.una, 0) / 2, 2 * s.mss);
        s.(ssthresh := ssthresh, cwnd := ssthresh + 3 * s.mss, recovery := Fast, recover := s.nxt, rtxOne := true)
  }

  /** The ack covers our FIN, and so everything. */
  function FinAcked(s: Snd): Snd {
    match s.state
    case FinWait1 => s.(state := FinWait2)
    case Closing => s.(state := TimeWait)
    case LastAck => SetClosed(s)
    case _ => s
  }

  /** The acked bytes leave and the timer starts over.  `rtoBase` is what the round-trip sample,
      if one was due, made of it. */
  function Advance(s: Snd, ack: int, rtoBase: nat, now: nat): Snd {
    var s := s.(una := ack, retries := 0, rtoBase := rtoBase, rtoMs := rtoBase, rtoAt := 0);
    if s.una != s.nxt then Arm(s, now) else s
  }

  /** An ack in (una, nxt]. */
  function Acked(s: Snd, ack: int, rtoBase: nat, now: nat): Snd
    requires s.una < ack
  {
    var s' := CcAcked(Advance(s, ack, rtoBase, now), ack - s.una, ack);
    if s'.finSent && ack == s'.nxt then FinAcked(s') else s'
  }

  /** The window opened: a lone unacked byte was the probe, and it was thrown away. */
  function Unprobe(s: Snd, ack: int, window: nat): Snd {
    if s.wnd == 0 && window != 0 && ack == s.una && s.nxt - ack == 1 && !s.finSent
    then s.(nxt := ack, rtoAt := 0, rtoMs := s.rtoBase) else s
  }

  /** tcp_got_ack */
  function GotAck(s: Snd, seg: u32, ack: int, window: nat, bare: bool, rtoBase: nat, now: nat): Snd {
    GotWindow(Unprobe(NewOrDuplicate(s, ack, window, bare, rtoBase, now), ack, window), seg, ack, window)
  }

  function NewOrDuplicate(s: Snd, ack: int, window: nat, bare: bool, rtoBase: nat, now: nat): Snd {
    if s.una < ack <= s.nxt then Acked(s, ack, rtoBase, now)
    else if ack == s.una && bare && window == s.wnd && s.una != s.nxt then CcDupack(s)
    else s
  }

  /** A peer that keeps its window shut and acks is alive, and no older segment says how wide the window is. */
  function GotWindow(s: Snd, seg: u32, ack: int, window: nat): Snd {
    var s := if window == 0 && ack == s.una then s.(retries := 0) else s;
    if s.una <= ack <= s.nxt && SeqLeq(s.wl1, seg) then s.(wnd := window, wl1 := seg) else s
  }

  predicate CanTake(st: State) {
    st == Established || st == FinWait1 || st == FinWait2
  }

  /** The peer's FIN has been taken. */
  function PeerFinished(st: State): State {
    match st
    case Established => CloseWait
    case FinWait1 => Closing
    case FinWait2 => TimeWait
    case _ => st
  }

  // ---------------------------------------------------------------- sending

  /** Bytes pos..pos+n of the stream, empty when that is not a stretch of it. */
  function Slice(s: Snd, pos: int, n: int): seq<byte> {
    if 0 <= pos && 0 <= n && pos + n <= |s.stream| then s.stream[pos..pos + n] else []
  }

  /** tcp_resend: the segment that begins at pos, and how many positions it covers. */
  function Resend(s: Snd, pos: int, out: seq<Item>): (nat, seq<Item>) {
    var end := s.nxt - (if s.finSent then 1 else 0);
    if pos < end then
      var n: nat := Min(end - pos, s.mss);
      (n, Emit(out, Data(pos, Slice(s, pos, n))))
    else if s.finSent && pos == s.nxt - 1 then (1, Emit(out, Fin(pos)))
    else (0, out)
  }

  /** The go-back-n loop of tcp_push_recovery. */
  function ResendAll(s: Snd, out: seq<Item>): (Snd, seq<Item>)
    decreases OUT_MAX - |out|
  {
    if s.rtx < s.recover && s.rtx - s.una < s.cwnd && |out| < OUT_MAX then
      var (n, out') := Resend(s, s.rtx, out);
      if n == 0 then (s, out')
      else ResendAll(s.(rtx := s.rtx + n), out')
    else (s, out)
  }

  /** tcp_push_recovery */
  function PushRecovery(s: Snd, out: seq<Item>): (Snd, seq<Item>) {
    match s.recovery
    case NoRecovery => (s, out)
    case Fast => if s.rtxOne then (s.(rtxOne := false), Resend(s, s.una, out).1) else (s, out)
    case Rto => ResendAll(if s.rtx < s.una then s.(rtx := s.una) else s, out)
  }

  /** How much the next segment takes, 0 when nothing goes now: a whole segment, or what the
      window has left if nothing is in flight. */
  function SegSize(s: Snd, wnd: nat): nat {
    var sent := s.nxt - s.una;
    if sent < TxLen(s) && sent < wnd then
      var n := Min(TxLen(s) - sent, s.mss);
      if n > wnd - sent && sent != 0 then 0 else Min(n, wnd - sent)
    else 0
  }

  /** The send loop of tcp_push, while the window `wnd` lasts. */
  function PushData(s: Snd, wnd: nat, now: nat, out: seq<Item>): (Snd, seq<Item>)
    decreases OUT_MAX - |out|
  {
    var n := SegSize(s, wnd);
    if |out| < OUT_MAX && n > 0 then
      PushData(Sent(s, n, now), wnd, now, Emit(out, Data(s.nxt, Slice(s, s.nxt, n))))
    else (s, out)
  }

  function Sent(s: Snd, n: nat, now: nat): Snd {
    Arm(s.(nxt := s.nxt + n, high := Max(s.high, s.nxt + n)), now)
  }

  function PushFin(s: Snd, now: nat, out: seq<Item>): (Snd, seq<Item>) {
    if s.finWanted && !s.finSent && s.nxt - s.una == TxLen(s) then
      var s' := s.(nxt := s.nxt + 1, high := s.nxt + 1, finSent := true,
                   state := if s.state == CloseWait then LastAck else FinWait1);
      (Arm(s', now), Emit(out, Fin(s.nxt)))
    else (s, out)
  }

  /** tcp_push */
  function Push(s: Snd, now: nat, out: seq<Item>): (Snd, seq<Item>) {
    var (s, out) := PushRecovery(s, out);
    if s.state != Established && s.state != CloseWait then (s, out)
    else
      var (s, out) := PushData(s, Min(s.wnd, s.cwnd), now, out);
      var idle := s.nxt == s.una;
      var (s, out) := PushFin(s, now, out);
      (if TxLen(s) > 0 && idle && s.wnd == 0 then Arm(s, now) else s, out)
  }

  /** tcp_send, once it may: as much as the ring takes. */
  function Accept(s: Snd, data: seq<byte>): Snd {
    s.(stream := s.stream + data[..Min(|data|, Max(TX_BUF - TxLen(s), 0))])
  }

  // ---------------------------------------------------------------- the retransmit timer

  function EnterRto(s: Snd): Snd {
    s.(ssthresh := Max(Max(s.nxt - s.una, 0) / 2, 2 * s.mss), cwnd := s.mss, dupacks := 0, rtxOne := false,
       recovery := Rto, recover := s.nxt, rtx := s.una)
  }

  predicate Handshaking(s: Snd) {
    s.state == SynSent || s.state == SynRcvd
  }

  /** What a timeout does about it: repeat the SYN, probe a closed window, or start over from the oldest byte. */
  function Retry(s: Snd, probe: bool, out: seq<Item>): (Snd, seq<Item>) {
    if Handshaking(s) then (s, Emit(out, Syn(-1)))
    else if probe then
      (s.(nxt := s.nxt + 1, high := Max(s.high, s.nxt + 1)), Emit(out, Data(s.nxt, Slice(s, s.nxt, 1))))
    else (EnterRto(s), out)
  }

  /** The timer runs again, with twice the delay. */
  function Backoff(s: Snd, now: nat): Snd {
    var rtoMs := Min(s.rtoMs * 2, RTO_MAX_MS);
    s.(rtoMs := rtoMs, rtoAt := now + rtoMs)
  }

  /** tcp_timeout, called when rto_at has come. */
  function Timeout(s: Snd, now: nat, out: seq<Item>): (Snd, seq<Item>) {
    var flight := s.nxt - s.una;
    var probe := flight == 0 && TxLen(s) > 0 && s.wnd == 0;
    if !Handshaking(s) && flight == 0 && !probe then (s.(rtoAt := 0), out)
    else
      var s := s.(retries := s.retries + 1);
      if s.retries > (if Handshaking(s) then SYN_RETRIES else RETRIES) then
        (SetClosed(s), if Handshaking(s) then out else Emit(out, Rst(s.nxt, false)))
      else
        var (s, out) := Retry(s, probe, out);
        (Backoff(s, now), out)
  }
}
