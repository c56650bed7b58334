/** What every operation of the sending half keeps. */
module TcpSendFacts {
  import opened TcpSeq
  import opened TcpSendSpec

  predicate Synced(st: State) {
    st !in {Closed, Listen, SynSent, SynRcvd}
  }

  /** The positions: acked, sent, ever sent, accepted, in that order; the FIN is the last one. */
  ghost predicate Positions(s: Snd) {
    && -1 <= s.una <= s.nxt <= s.high <= |s.stream| + 1
    && TxLen(s) <= TX_BUF
    && (s.finSent ==> s.finWanted && s.nxt == s.high == |s.stream| + 1)
    && (!s.finSent ==> s.high <= |s.stream|)
    && (Synced(s.state) ==> 0 <= s.una)
    && (Handshaking(s) ==> s.una == -1 && s.nxt == s.high == 0 && s.stream == [] && !s.finSent && !s.finWanted)
  }

  /** Section 3.3.2 of RFC 9293, as far as our own FIN goes. */
  predicate OwnFin(s: Snd) {
    && (s.state in {Established, CloseWait} ==> !s.finSent)
    && (s.state in {FinWait1, Closing, LastAck} ==> s.finSent && s.una < s.nxt)
    && (s.state in {FinWait2, TimeWait} ==> s.finSent && s.una == s.nxt)
  }

  ghost predicate Recovering(s: Snd) {
    && (Synced(s.state) ==> s.mss >= 1 && s.cwnd >= 1 && s.ssthresh >= 1)
    && (s.recovery != NoRecovery ==> Synced(s.state) && s.una < s.recover <= s.high)
    && (s.recovery == Rto ==> s.recover - TX_BUF - 1 <= s.rtx <= s.high)
  }

  /** Anything in flight has the timer armed. */
  predicate Timed(s: Snd) {
    && s.rtoMs >= 1 && s.rtoBase >= 1
    && (s.state !in {Closed, Listen} && s.una < s.nxt ==> s.rtoAt > 0)
    && s.retries <= (if Handshaking(s) then SYN_RETRIES else if s.state == Closed then RETRIES + 1 else RETRIES)
  }

  ghost predicate SndInv(s: Snd) {
    Positions(s) && OwnFin(s) && Recovering(s) && Timed(s)
  }

  /** What the peer may conclude from a segment. */
  ghost predicate ItemOk(s: Snd, item: Item) {
    match item
    case Data(pos, bytes) =>
      0 <= pos && pos + |bytes| <= |s.stream| && pos + |bytes| <= s.high && bytes == s.stream[pos..pos + |bytes|]
    case Fin(pos) => s.finSent && pos == |s.stream|
    case Syn(pos) => pos == -1
    case _ => true
  }

  ghost predicate ItemsOk(s: Snd, out: seq<Item>) {
    forall i | 0 <= i < |out| :: ItemOk(s, out[i])
  }

  /** s' knows everything s knew: the stream only grows, and not at all once the FIN is out. */
  ghost predicate Later(s: Snd, s': Snd) {
    && s.stream <= s'.stream && s.high <= s'.high && s.una <= s'.una
    && (s.finWanted ==> s'.finWanted && s'.stream == s.stream)
    && (s.finSent ==> s'.finSent && s'.finWanted && s'.stream == s.stream)
  }

  lemma LaterSelf(s: Snd)
    requires SndInv(s)
    ensures Later(s, s)
  {}

  lemma LaterItems(s: Snd, s': Snd, out: seq<Item>)
    requires ItemsOk(s, out) && Later(s, s')
    ensures ItemsOk(s', out)
  {}

  // ---------------------------------------------------------------- acks

  lemma GrowKeeps(s: Snd, acked: nat)
    requires s.cwnd >= 1
    ensures var s' := Grow(s, acked); s' == s.(cwnd := s'.cwnd, dupacks := 0) && s'.cwnd >= 1
  {}

  lemma CcKeeps(s: Snd, acked: nat, ack: int)
    requires s.mss >= 1 && s.cwnd >= 1 && s.ssthresh >= 1
    ensures var s' := CcAcked(s, acked, ack);
      && s' == s.(cwnd := s'.cwnd, dupacks := s'.dupacks, recovery := s'.recovery, rtxOne := s'.rtxOne)
      && s'.cwnd >= 1
      && (s'.recovery == s.recovery || s'.recovery == NoRecovery)
      && (s'.recovery != NoRecovery ==> ack < s.recover)
  {
    hide Grow;
    GrowKeeps(s, acked);
  }

  lemma AckedKeeps(s: Snd, ack: int, rtoBase: nat, now: nat)
    requires SndInv(s) && Synced(s.state) && s.una < ack <= s.nxt && rtoBase >= 1
    ensures var s' := Acked(s, ack, rtoBase, now); SndInv(s') && Later(s, s') && !Handshaking(s')
  {
    hide CcAcked;
    CcKeeps(Advance(s, ack, rtoBase, now), ack - s.una, ack);
  }

  lemma DupackKeeps(s: Snd)
    requires SndInv(s) && Synced(s.state) && s.una < s.nxt
    ensures var s' := CcDupack(s); SndInv(s') && Later(s, s') && !Handshaking(s')
  {}

  lemma UnprobeKeeps(s: Snd, ack: int, window: nat)
    requires SndInv(s) && !Handshaking(s)
    ensures var s' := Unprobe(s, ack, window); SndInv(s') && Later(s, s') && !Handshaking(s')
  {}

  lemma WindowKeeps(s: Snd, seg: u32, ack: int, window: nat)
    requires SndInv(s) && !Handshaking(s)
    ensures var s' := GotWindow(s, seg, ack, window); SndInv(s') && Later(s, s') && !Handshaking(s')
  {
    hide SeqLeq;
  }

  lemma NewOrDuplicateKeeps(s: Snd, ack: int, window: nat, bare: bool, rtoBase: nat, now: nat)
    requires SndInv(s) && Synced(s.state) && rtoBase >= 1
    ensures var s' := NewOrDuplicate(s, ack, window, bare, rtoBase, now); SndInv(s') && Later(s, s') && !Handshaking(s')
  {
    hide Acked, CcDupack, SndInv, Later;
    if s.una < ack <= s.nxt {
      AckedKeeps(s, ack, rtoBase, now);
    } else if ack == s.una && bare && window == s.wnd && s.una != s.nxt {
      PositionsOrder(s);
      DupackKeeps(s);
    } else {
      LaterSelf(s);
    }
  }

  lemma LaterTrans(a: Snd, b: Snd, c: Snd)
    requires Later(a, b) && Later(b, c)
    ensures Later(a, c)
  {}

  lemma AckKeeps(s: Snd, seg: u32, ack: int, window: nat, bare: bool, rtoBase: nat, now: nat)
    requires SndInv(s) && Synced(s.state) && rtoBase >= 1
    ensures var s' := GotAck(s, seg, ack, window, bare, rtoBase, now); SndInv(s') && Later(s, s') && !Handshaking(s')
  {
    hide NewOrDuplicate, Unprobe, GotWindow, SndInv, Later, Handshaking;
    var s1 := NewOrDuplicate(s, ack, window, bare, rtoBase, now);
    NewOrDuplicateKeeps(s, ack, window, bare, rtoBase, now);
    UnprobeKeeps(s1, ack, window);
    var s2 := Unprobe(s1, ack, window);
    WindowKeeps(s2, seg, ack, window);
    LaterTrans(s, s1, s2);
    LaterTrans(s, s2, GotWindow(s2, seg, ack, window));
  }

  lemma PositionsOrder(s: Snd)
    requires SndInv(s)
    ensures s.una <= s.nxt
  {}

  // ---------------------------------------------------------------- sending

  /** No data segment added to out reaches past `bound`. */
  ghost predicate Within(out: seq<Item>, out': seq<Item>, bound: int) {
    && out <= out'
    && forall i | |out| <= i < |out'| :: out'[i].Data? ==> out'[i].pos + |out'[i].bytes| <= bound
  }

  lemma ResendOk(s: Snd, pos: int, out: seq<Item>)
    requires SndInv(s) && 0 <= s.una <= pos && ItemsOk(s, out)
    requires s.finSent ==> s.una < s.nxt
    ensures ItemsOk(s, Resend(s, pos, out).1) && Within(out, Resend(s, pos, out).1, s.nxt)
    ensures pos + Resend(s, pos, out).0 <= Max(s.nxt, pos)
    ensures Resend(s, pos, out).0 > 0 && |out| < OUT_MAX ==> |Resend(s, pos, out).1| > |out|
  {}

  lemma {:induction false} ResendAllKeeps(s: Snd, out: seq<Item>)
    requires SndInv(s) && s.recovery == Rto && s.una <= s.rtx && ItemsOk(s, out)
    ensures var (s', out') := ResendAll(s, out);
      SndInv(s') && s' == s.(rtx := s'.rtx) && ItemsOk(s', out') && Within(out, out', s.nxt)
    decreases OUT_MAX - |out|
  {
    ResendOk(s, s.rtx, out);
    var (n, out1) := Resend(s, s.rtx, out);
    if s.rtx < s.recover && s.rtx - s.una < s.cwnd && |out| < OUT_MAX && n > 0 {
      ResendAllKeeps(s.(rtx := s.rtx + n), out1);
    }
  }

  lemma PushRecoveryKeeps(s: Snd, out: seq<Item>)
    requires SndInv(s) && ItemsOk(s, out)
    ensures var (s', out') := PushRecovery(s, out);
      && SndInv(s') && Later(s, s') && s' == s.(rtx := s'.rtx, rtxOne := s'.rtxOne)
      && ItemsOk(s', out') && Within(out, out', s.nxt)
  {
    if s.recovery == Fast {
      ResendOk(s, s.una, out);
    } else if s.recovery == Rto {
      ResendAllKeeps(if s.rtx < s.una then s.(rtx := s.una) else s, out);
    }
  }

  /** One turn of the send loop. */
  lemma PushStepKeeps(s: Snd, n: nat, now: nat, out: seq<Item>)
    requires SndInv(s) && s.state in {Established, CloseWait} && ItemsOk(s, out) && |out| < OUT_MAX
    requires s.nxt - s.una + n <= TxLen(s)
    ensures var s' := Sent(s, n, now);
      && SndInv(s') && Later(s, s') && ItemsOk(s', Emit(out, Data(s.nxt, Slice(s, s.nxt, n))))
      && s' == s.(nxt := s.nxt + n, high := s'.high, rtoAt := s'.rtoAt)
    ensures |Slice(s, s.nxt, n)| == n
  {
    SentInv(s, n, now);
    SentIs(s, n, now);
    hide SndInv, Sent, TxLen, Slice, ItemOk;
    LaterItems(s, Sent(s, n, now), out);
  }

  lemma SentInv(s: Snd, n: nat, now: nat)
    requires SndInv(s) && s.state in {Established, CloseWait} && s.nxt - s.una + n <= TxLen(s)
    ensures var s' := Sent(s, n, now);
      SndInv(s') && Later(s, s') && s' == s.(nxt := s.nxt + n, high := s'.high, rtoAt := s'.rtoAt)
  {}

  lemma SentIs(s: Snd, n: nat, now: nat)
    requires SndInv(s) && s.state in {Established, CloseWait} && s.nxt - s.una + n <= TxLen(s)
    ensures ItemOk(Sent(s, n, now), Data(s.nxt, Slice(s, s.nxt, n))) && |Slice(s, s.nxt, n)| == n
  {
    hide Recovering, Timed;
  }

  lemma {:induction false} PushDataKeeps(s: Snd, wnd: nat, now: nat, out: seq<Item>)
    requires SndInv(s) && s.state in {Established, CloseWait} && ItemsOk(s, out)
    ensures var (s', out') := PushData(s, wnd, now, out);
      && SndInv(s') && Later(s, s') && s' == s.(nxt := s'.nxt, high := s'.high, rtoAt := s'.rtoAt)
      && ItemsOk(s', out') && Within(out, out', s.una + wnd)
      && s.nxt <= s'.nxt <= Max(s.nxt, s.una + wnd)
    decreases OUT_MAX - |out|, 0
  {
    hide SndInv, ItemsOk, Slice, Sent, Later;
    LaterSelf(s);
    var n := SegSize(s, wnd);
    if |out| < OUT_MAX && n > 0 {
      PushStepKeeps(s, n, now, out);
      PushTail(s, Sent(s, n, now), wnd, now, out, Emit(out, Data(s.nxt, Slice(s, s.nxt, n))));
    }
  }

  lemma PushTail(s: Snd, s1: Snd, wnd: nat, now: nat, out: seq<Item>, out1: seq<Item>)
    requires SndInv(s) && SndInv(s1) && Later(s, s1) && s1.state in {Established, CloseWait} && ItemsOk(s1, out1)
    requires s1 == s.(nxt := s1.nxt, high := s1.high, rtoAt := s1.rtoAt)
    requires s.nxt <= s1.nxt <= s.una + wnd && |out| < |out1|
    requires Within(out, out1, s.una + wnd)
    ensures var (s', out') := PushData(s1, wnd, now, out1);
      && SndInv(s') && Later(s, s') && s' == s.(nxt := s'.nxt, high := s'.high, rtoAt := s'.rtoAt)
      && ItemsOk(s', out') && Within(out, out', s.una + wnd)
      && s.nxt <= s'.nxt <= Max(s.nxt, s.una + wnd)
    decreases OUT_MAX - |out1|, 1
  {
    hide SndInv, ItemsOk, PushData;
    PushDataKeeps(s1, wnd, now, out1);
  }

  lemma PushFinKeeps(s: Snd, now: nat, out: seq<Item>)
    requires SndInv(s) && s.state in {Established, CloseWait} && ItemsOk(s, out)
    ensures var (s', out') := PushFin(s, now, out);
      SndInv(s') && Later(s, s') && ItemsOk(s', out') && Within(out, out', -1)
  {}

  /** tcp_push sends only bytes of the stream, each at its own position, never new data past
      min(snd_wnd, cwnd), and leaves the timer running whenever something is in flight. */
  lemma PushKeeps(s: Snd, now: nat, out: seq<Item>)
    requires SndInv(s) && ItemsOk(s, out)
    ensures var (s', out') := Push(s, now, out);
      SndInv(s') && Later(s, s') && ItemsOk(s', out') && Within(out, out', Max(s.nxt, s.una + Min(s.wnd, s.cwnd)))
  {
    hide SndInv, PushRecovery, PushData, PushFin;
    PushRecoveryKeeps(s, out);
    var (s1, out1) := PushRecovery(s, out);
    if s1.state == Established || s1.state == CloseWait {
      PushDataKeeps(s1, Min(s1.wnd, s1.cwnd), now, out1);
      var (s2, out2) := PushData(s1, Min(s1.wnd, s1.cwnd), now, out1);
      PushFinKeeps(s2, now, out2);
      var (s3, out3) := PushFin(s2, now, out2);
      ArmKeeps(s3, now);
    }
  }

  lemma ArmKeeps(s: Snd, now: nat)
    requires SndInv(s)
    ensures SndInv(Arm(s, now)) && Later(s, Arm(s, now))
  {}

  lemma AcceptKeeps(s: Snd, data: seq<byte>)
    requires SndInv(s) && s.state in {Established, CloseWait} && !s.finWanted
    ensures SndInv(Accept(s, data)) && Later(s, Accept(s, data))
  {}

  // ---------------------------------------------------------------- the timer

  lemma ProbeKeeps(s: Snd, out: seq<Item>)
    requires SndInv(s) && Synced(s.state) && s.nxt == s.una && TxLen(s) > 0 && ItemsOk(s, out)
    ensures var s' := s.(nxt := s.nxt + 1, high := Max(s.high, s.nxt + 1));
      && Positions(s') && OwnFin(s') && Recovering(s') && Later(s, s')
      && ItemsOk(s', Emit(out, Data(s.nxt, Slice(s, s.nxt, 1))))
    ensures |Slice(s, s.nxt, 1)| == 1
  {}

  lemma EnterRtoKeeps(s: Snd)
    requires SndInv(s) && Synced(s.state) && s.una < s.nxt
    ensures var s' := EnterRto(s); Positions(s') && OwnFin(s') && Recovering(s') && Later(s, s')
  {}

  lemma BackoffKeeps(s: Snd, now: nat)
    requires Positions(s) && OwnFin(s) && Recovering(s) && s.rtoMs >= 1 && s.rtoBase >= 1
    requires s.state !in {Closed, Listen} && s.retries <= (if Handshaking(s) then SYN_RETRIES else RETRIES)
    ensures SndInv(Backoff(s, now)) && Later(s, Backoff(s, now))
  {}

  lemma GiveUpKeeps(s: Snd)
    requires SndInv(s) && s.state !in {Closed, Listen}
    ensures SndInv(SetClosed(s.(retries := s.retries + 1))) && Later(s, SetClosed(s.(retries := s.retries + 1)))
  {}

  lemma TimeoutKeeps(s: Snd, now: nat, out: seq<Item>)
    requires SndInv(s) && s.state !in {Closed, Listen} && ItemsOk(s, out)
    ensures var (s', out') := Timeout(s, now, out);
      SndInv(s') && Later(s, s') && ItemsOk(s', out') && Within(out, out', s.una + 1)
  {
    hide TxLen, Slice, EnterRto, Recovering, OwnFin, SetClosed;
    var flight := s.nxt - s.una;
    var s1 := s.(retries := s.retries + 1);
    if !Handshaking(s) && flight == 0 && !(TxLen(s) > 0 && s.wnd == 0) {
      StopTimer(s);
    } else if s1.retries > (if Handshaking(s) then SYN_RETRIES else RETRIES) {
      GiveUpKeeps(s);
      GiveUpItems(s, SetClosed(s1), out);
    } else {
      RetryKeeps(s, now, out);
    }
  }

  lemma GiveUpItems(s: Snd, s': Snd, out: seq<Item>)
    requires ItemsOk(s, out) && Later(s, s')
    ensures ItemsOk(s', out) && ItemsOk(s', Emit(out, Rst(s.nxt, false)))
  {
    LaterItems(s, s', out);
  }

  lemma StopTimer(s: Snd)
    requires SndInv(s) && s.una == s.nxt
    ensures SndInv(s.(rtoAt := 0)) && Later(s, s.(rtoAt := 0))
  {}

  lemma RetryKeeps(s: Snd, now: nat, out: seq<Item>)
    requires SndInv(s) && s.state !in {Closed, Listen} && ItemsOk(s, out)
    requires Handshaking(s) || s.nxt != s.una || (TxLen(s) > 0 && s.wnd == 0)
    requires s.retries < (if Handshaking(s) then SYN_RETRIES else RETRIES)
    ensures var (s', out') := Timeout(s, now, out);
      SndInv(s') && Later(s, s') && ItemsOk(s', out') && Within(out, out', s.una + 1)
  {
    hide Slice, Recovering, OwnFin, Positions, ItemsOk;
    RetryFacts(s);
    var s1 := s.(retries := s.retries + 1);
    LaterItems(s, s1, out);
    if Handshaking(s) {
      BackoffKeeps(s1, now);
      EmitSyn(s, out);
    } else if s.nxt == s.una {
      ProbeKeeps(s1, out);
      BackoffKeeps(s1.(nxt := s.nxt + 1, high := Max(s.high, s.nxt + 1)), now);
    } else {
      EnterRtoKeeps(s1);
      BackoffKeeps(EnterRto(s1), now);
    }
    var (s', out') := Timeout(s, now, out);
    var probed := s1.(nxt := s.nxt + 1, high := Max(s.high, s.nxt + 1));
    LaterItems(if !Handshaking(s) && s.nxt == s.una then probed else s, s', out');
  }

  lemma EmitSyn(s: Snd, out: seq<Item>)
    requires ItemsOk(s, out)
    ensures ItemsOk(s, Emit(out, Syn(-1)))
  {}

  lemma RetryFacts(s: Snd)
    requires SndInv(s) && s.state !in {Closed, Listen}
    requires s.retries < (if Handshaking(s) then SYN_RETRIES else RETRIES)
    ensures var s' := s.(retries := s.retries + 1); SndInv(s') && Later(s, s') && s.una <= s.nxt
  {}

  // ---------------------------------------------------------------- what moves snd_una

  lemma AckMoves(s: Snd, segSeq: u32, a: int, window: nat, bare: bool, newBase: nat, now: nat)
    ensures var s' := GotAck(s, segSeq, a, window, bare, newBase, now);
      s'.stream == s.stream && s'.una == if s.una < a <= s.nxt then a else s.una
  {
    hide SeqLeq, CcAcked, Unprobe;
    if s.una < a {
      CcMoves(Advance(s, a, newBase, now), a - s.una, a);
    }
    UnprobeMoves(NewOrDuplicate(s, a, window, bare, newBase, now), a, window);
  }

  lemma CcMoves(s: Snd, acked: nat, a: int)
    ensures var s' := CcAcked(s, acked, a); s'.stream == s.stream && s'.una == s.una
  {
    hide Additive;
  }

  lemma UnprobeMoves(s: Snd, a: int, window: nat)
    ensures var s' := Unprobe(s, a, window); s'.stream == s.stream && s'.una == s.una
  {}

  lemma PushRing(s: Snd, now: nat, items: seq<Item>)
    requires SndInv(s) && ItemsOk(s, items)
    ensures var s' := Push(s, now, items).0; s'.stream == s.stream && s'.una == s.una
  {
    hide SndInv, ItemsOk;
    PushRecoveryKeeps(s, items);
    var (s1, items1) := PushRecovery(s, items);
    if s1.state in {Established, CloseWait} {
      PushDataKeeps(s1, Min(s1.wnd, s1.cwnd), now, items1);
    }
  }

  lemma TimeoutRing(s: Snd, now: nat, items: seq<Item>)
    ensures var s' := Timeout(s, now, items).0; s'.stream == s.stream && s'.una == s.una
  {}
}
