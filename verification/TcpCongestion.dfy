/** What the congestion window, the retransmit timer and the opening of a connection come to (kernel/src/net/tcp_input.c
    and kernel/src/net/tcp_output.c), stated on the fields before and after. */
module TcpCongestion {
  import opened TcpSeq
  import opened TcpSendSpec
  import opened TcpSendFacts
  import opened TcpProgress

  /** How an ack of `acked` bytes widens the window: below the threshold by what was acked, up to a segment; from there
      on by the whole number of bytes that makes it about one segment a round trip, but at least one. */
  predicate Widened(s: Snd, acked: nat, cwnd: nat) {
    && cwnd <= CWND_MAX
    && (if s.cwnd < s.ssthresh then cwnd == Min(s.cwnd + Min(acked, s.mss), CWND_MAX)
        else
          && (cwnd - s.cwnd) * s.cwnd <= Max(s.mss * s.mss, s.cwnd)
          && (cwnd == CWND_MAX || (s.cwnd < cwnd && s.mss * s.mss < (cwnd - s.cwnd + 1) * s.cwnd)))
  }

  lemma WidenedIs(s: Snd, acked: nat)
    requires s.mss >= 1 && s.cwnd >= 1 && acked > 0
    ensures Widened(s, acked, Grow(s, acked).cwnd)
  {
    if s.cwnd >= s.ssthresh {
      var inc, n := Additive(s.mss, s.cwnd), s.cwnd;
      PerRoundTrip(s.mss, n);
      Least(s.mss, n);
      var got := Grow(s, acked).cwnd - n;
      hide Additive;
      if got >= 0 {
        Fewer(got, inc, n);
      } else {
        assert got * n <= 0;
      }
    }
  }

  lemma Least(mss: nat, cwnd: nat)
    requires cwnd > 0
    ensures mss * mss < (Additive(mss, cwnd) + 1) * cwnd
  {
    var q := mss * mss / cwnd;
    assert mss * mss < q * cwnd + cwnd;
    if q == 0 {
      assert mss * mss < cwnd;
    }
  }

  /** tcp_cc_acked: what an ack of something new does to the window. Nothing being recovered, or in timeout recovery, it
      widens. In fast recovery short of its end it gives back what was acked but for one segment (section 3.2 of
      RFC 6582); at the end it is the threshold. The end of timeout recovery leaves it alone. */
  lemma AckedWindow(s: Snd, seg: u32, ack: int, window: nat, bare: bool, rtoBase: nat, now: nat)
    requires SndInv(s) && Synced(s.state) && s.una < ack <= s.nxt
    ensures var s' := GotAck(s, seg, ack, window, bare, rtoBase, now); var acked := ack - s.una;
      && s'.ssthresh == s.ssthresh && s'.mss == s.mss
      && match s.recovery
         case NoRecovery => Widened(s, acked, s'.cwnd) && s'.dupacks == 0
         case Rto => if ack < s.recover then Widened(s, acked, s'.cwnd) else s'.cwnd == s.cwnd && s'.dupacks == 0
         case Fast =>
           if ack < s.recover then s'.cwnd == Max(s.cwnd - acked, 0) + s.mss
           else s'.cwnd == s.ssthresh && s'.dupacks == 0
  {
    Started(s);
    AckedIs(s, ack, rtoBase, now);
    AckedCwnd(s, ack, rtoBase, now);
    hide SndInv, SeqLeq, Unprobe, GotWindow, Acked, Widened;
    WindowTaken(Acked(s, ack, rtoBase, now), seg, ack, window);
  }

  lemma AckedCwnd(s: Snd, ack: int, rtoBase: nat, now: nat)
    requires s.una < ack && s.mss >= 1 && s.cwnd >= 1
    ensures var s' := Acked(s, ack, rtoBase, now); var acked := ack - s.una;
      && s'.ssthresh == s.ssthresh && s'.mss == s.mss
      && match s.recovery
         case NoRecovery => Widened(s, acked, s'.cwnd) && s'.dupacks == 0
         case Rto => if ack < s.recover then Widened(s, acked, s'.cwnd) else s'.cwnd == s.cwnd && s'.dupacks == 0
         case Fast =>
           if ack < s.recover then s'.cwnd == Max(s.cwnd - acked, 0) + s.mss
           else s'.cwnd == s.ssthresh && s'.dupacks == 0
  {
    hide Grow, Widened;
    var s1 := Advance(s, ack, rtoBase, now);
    AdvanceKept(s, ack, rtoBase, now);
    hide Advance;
    GrowKept(s1, ack - s.una);
    WidenedIs(s1, ack - s.una);
    SameWidened(s1, s, ack - s.una, Grow(s1, ack - s.una).cwnd);
    FinAckedKept(CcAcked(s1, ack - s.una, ack));
    hide FinAcked;
  }

  lemma AdvanceKept(s: Snd, ack: int, rtoBase: nat, now: nat)
    ensures var s' := Advance(s, ack, rtoBase, now);
      && s'.cwnd == s.cwnd && s'.mss == s.mss && s'.ssthresh == s.ssthresh && s'.dupacks == s.dupacks
      && s'.recovery == s.recovery && s'.recover == s.recover
  {}

  lemma FinAckedKept(s: Snd)
    ensures var s' := FinAcked(s);
      s'.cwnd == s.cwnd && s'.mss == s.mss && s'.ssthresh == s.ssthresh && s'.dupacks == s.dupacks
  {}

  lemma SameWidened(s: Snd, s': Snd, acked: nat, cwnd: nat)
    requires s.cwnd == s'.cwnd && s.mss == s'.mss && s.ssthresh == s'.ssthresh
    ensures Widened(s, acked, cwnd) <==> Widened(s', acked, cwnd)
  {}

  lemma GrowKept(s: Snd, acked: nat)
    ensures var s' := Grow(s, acked); s' == s.(cwnd := s'.cwnd, dupacks := 0)
  {}

  /** A duplicate ack while something is being recovered: in fast recovery another segment has left the network; in
      timeout recovery it says nothing. Any ack that says the window is shut shows that the peer is alive. */
  lemma DuplicateInflates(s: Snd, seg: u32, rtoBase: nat, now: nat)
    requires SndInv(s) && s.una < s.nxt && s.recovery != NoRecovery
    ensures var s' := GotAck(s, seg, s.una, s.wnd, true, rtoBase, now);
      s' == s.(cwnd := if s.recovery == Fast then s.cwnd + s.mss else s.cwnd,
               retries := if s.wnd == 0 then 0 else s.retries, wl1 := if SeqLeq(s.wl1, seg) then seg else s.wl1)
  {
    hide SeqLeq;
  }

  /** Only an ack of something new and one that says the window is shut start the count of retries over. */
  lemma RetriesCount(s: Snd, seg: u32, ack: int, window: nat, bare: bool, rtoBase: nat, now: nat)
    requires SndInv(s) && Synced(s.state)
    ensures var s' := GotAck(s, seg, ack, window, bare, rtoBase, now);
      s'.retries == if s.una < ack <= s.nxt || (ack == s.una && window == 0) then 0 else s.retries
  {
    if s.una < ack <= s.nxt {
      AckedIs(s, ack, rtoBase, now);
    }
    DupackRetries(s);
    hide SndInv, SeqLeq, Acked, CcDupack;
  }

  lemma DupackRetries(s: Snd)
    ensures CcDupack(s).retries == s.retries && CcDupack(s).una == s.una
  {}

  // ---------------------------------------------------------------- the timer

  /** A push starts the timer, if it is not running, exactly when it sends something new or must probe a shut window,
      and never moves one that is running. */
  lemma PushTimes(s: Snd, now: nat, out: seq<Item>)
    requires SndInv(s)
    ensures var s' := Push(s, now, out).0;
      && s'.rtoMs == s.rtoMs && s'.retries == s.retries && s'.una == s.una
      && (s'.state == s.state || s'.state == FinWait1 || s'.state == LastAck)
      && s'.rtoAt == if s.rtoAt > 0 then s.rtoAt
                     else if s.nxt < s'.nxt || ShutOut(s, s'.nxt) then now + s.rtoMs else 0
  {
    RecoverySends(s, out);
    var (s1, out1) := PushRecovery(s, out);
    hide PushRecovery;
    if s.state == Established || s.state == CloseWait {
      DataTimes(s1, Min(s.wnd, s.cwnd), now, out1);
      var (s2, out2) := PushData(s1, Min(s.wnd, s.cwnd), now, out1);
      hide PushData;
      FinTimes(s, s2, now, out2);
    }
    hide PushData, PushFin, SndInv, TxLen;
  }

  /** Data is waiting behind a window that is shut, with nothing in flight. */
  predicate ShutOut(s: Snd, nxt: int) {
    s.state in {Established, CloseWait} && nxt == s.una < |s.stream| && s.wnd == 0
  }

  lemma FinTimes(s: Snd, s2: Snd, now: nat, out: seq<Item>)
    requires SndInv(s) && s.state in {Established, CloseWait} && s2.state == s.state && s2.una == s.una
    requires s2.stream == s.stream && s2.wnd == s.wnd && s2.rtoMs == s.rtoMs && s2.retries == s.retries
    requires s2.nxt >= s.nxt && s2.finSent == s.finSent
    requires s2.rtoAt == if s.rtoAt > 0 then s.rtoAt else if s.nxt < s2.nxt then now + s.rtoMs else 0
    ensures var s3 := PushFin(s2, now, out).0;
      var s' := if TxLen(s3) > 0 && s2.nxt == s2.una && s3.wnd == 0 then Arm(s3, now) else s3;
      && s'.rtoMs == s.rtoMs && s'.retries == s.retries && s'.una == s.una
      && (s'.state == s.state || s'.state == FinWait1 || s'.state == LastAck)
      && s'.rtoAt == if s.rtoAt > 0 then s.rtoAt
                     else if s.nxt < s'.nxt || ShutOut(s, s'.nxt) then now + s.rtoMs else 0
  {}

  lemma {:induction false} DataTimes(s: Snd, wnd: nat, now: nat, out: seq<Item>)
    requires s.rtoMs >= 1
    ensures var s' := PushData(s, wnd, now, out).0;
      && s' == s.(nxt := s'.nxt, high := s'.high, rtoAt := s'.rtoAt) && s.nxt <= s'.nxt
      && s'.rtoAt == if s.rtoAt > 0 then s.rtoAt else if s.nxt < s'.nxt then now + s.rtoMs else 0
    decreases OUT_MAX - |out|
  {
    var n := SegSize(s, wnd);
    hide SegSize, Slice;
    if |out| < OUT_MAX && n > 0 {
      DataTimes(Sent(s, n, now), wnd, now, Emit(out, Data(s.nxt, Slice(s, s.nxt, n))));
    }
  }

  /** With no retry left a due timer closes the connection, with no timer running and nothing being recovered; the peer
      of a finished handshake is sent a reset. With nothing to wait for the timer stops, and that is all. */
  lemma GivesUp(s: Snd, now: nat)
    requires SndInv(s)
    ensures var (s', out) := Timeout(s, now, []);
      var waits := Handshaking(s) || s.nxt != s.una || (TxLen(s) > 0 && s.wnd == 0);
      && (waits && s.retries >= (if Handshaking(s) then SYN_RETRIES else RETRIES) ==>
            && s'.state == Closed && s'.rtoAt == 0 && s'.recovery == NoRecovery
            && out == if Handshaking(s) then [] else [Rst(s.nxt, false)])
      && (!waits ==> out == [] && s' == s.(rtoAt := 0))
  {
    hide TxLen;
  }

  // ---------------------------------------------------------------- the first flight

  /** A connection that has just opened, whichever side began: nothing is in flight, no timer runs, and the window is
      the peer's, within ten segments of the size that both can take. */
  predicate Opened(s: Snd, mss: nat, window: nat, seg: u32) {
    && s.state == Established && s.una == s.nxt == 0 && s.stream == [] && !s.finWanted && !s.finSent
    && s.mss <= mss && s.mss <= TCP_MSS && (s.mss == mss || s.mss == TCP_MSS)
    && s.wnd == window && s.wl1 == seg && s.cwnd == INIT_CWND * s.mss && s.cwnd <= s.ssthresh
    && s.recovery == NoRecovery && s.rtoAt == 0 && s.retries == 0 && s.rtoMs == s.rtoBase == RTO_MS
  }

  /** A connection whose SYN is out, sent any number of times. */
  predicate Calling(s: Snd, st: State) {
    s == Connecting(0).(state := st, mss := s.mss, cwnd := s.cwnd, ssthresh := s.ssthresh, wnd := s.wnd, wl1 := s.wl1,
                        rtoAt := s.rtoAt, rtoMs := s.rtoMs, retries := s.retries)
  }

  lemma OpensEitherWay(s: Snd, child: Snd, start: nat, mss: nat, window: nat, seg: u32)
    requires mss >= 1 && Calling(s, SynSent)
    requires var c := Accepting(mss, window, seg, start);
      child == c.(rtoAt := child.rtoAt, rtoMs := child.rtoMs, retries := child.retries)
    ensures Calling(child, SynRcvd) && Accepting(mss, window, seg, start).rtoAt == start + RTO_MS
    ensures var a, b := SynAcked(s, mss, window, seg), Connected(child);
      Opened(a, mss, window, seg) && Opened(b, mss, window, seg) && SndInv(a) && SndInv(b)
  {
    hide SeqLeq;
  }

  /** However long the SYN took, what is given to a connection just opened goes out at once, in order from the first
      byte: all of it, as far as the peer's window and ten segments reach and the batch holds. */
  lemma FirstFlight(s: Snd, mss: nat, window: nat, seg: u32, data: seq<byte>, now: nat)
    requires Opened(s, mss, window, seg) && SndInv(s)
    ensures var s1 := Accept(s, data); var (s2, items) := Push(s1, now, []); var wnd := Min(window, INIT_CWND * s.mss);
      && s1.stream <= data && (|data| <= TX_BUF ==> s1.stream == data)
      && InARow(items, 0, s2.nxt) && NewPieces(s1, wnd, items)
      && (|items| < OUT_MAX ==> NoMore(s1, wnd, s2.nxt))
      && (s2.nxt > 0 ==> s2.rtoAt == now + RTO_MS)
  {
    var s1 := Accept(s, data);
    AcceptTakes(s, data);
    AcceptKeeps(s, data);
    assert s1.stream == data[..|s1.stream|];
    hide SndInv, Push, NewPieces, NoMore, InARow, Accept;
    PushTimes(s1, now, []);
    var k := PushSends(s1, now, []);
    var (s2, items) := Push(s1, now, []);
    assert items[0..0] + items[0..] == items && items[k..] == items;
    PushInv(s1, now);
    hide Sends, Opened;
  }

  lemma PushInv(s: Snd, now: nat)
    requires SndInv(s)
    ensures SndInv(Push(s, now, []).0) && Timed(Push(s, now, []).0)
  {
    NoneOk(s);
    PushKeeps(s, now, []);
    hide Push;
  }
}
