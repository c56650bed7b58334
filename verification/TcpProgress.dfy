/** What a push, a timeout and an ack get done (kernel/src/net/tcp_output.c, kernel/src/net/tcp_input.c): everything
    that may be sent is sent, and whatever is lost is sent again. Stated on the stream, the positions, the windows and
    the batch of segments alone. */
module TcpProgress {
  import opened TcpSeq
  import opened TcpSendSpec
  import opened TcpSendFacts

  // ---------------------------------------------------------------- segments in a row

  /** The positions a segment covers. */
  function Span(item: Item): nat {
    match item
    case Data(_, bytes) => |bytes|
    case Fin(_) => 1
    case _ => 0
  }

  /** The segments follow one another from position `from` to position `to`. */
  predicate InARow(items: seq<Item>, from: int, to: int) {
    if items == [] then from == to
    else items[0].pos == from && Span(items[0]) > 0 && InARow(items[1..], from + Span(items[0]), to)
  }

  lemma RowCons(item: Item, rest: seq<Item>, to: int)
    requires Span(item) > 0 && InARow(rest, item.pos + Span(item), to)
    ensures InARow([item] + rest, item.pos, to)
  {
    assert ([item] + rest)[1..] == rest;
  }

  // ---------------------------------------------------------------- new data

  /** A new segment carries the stream's bytes at its position; it is a whole segment, or the last of what was
      accepted, or fills the window with nothing else in flight. */
  predicate NewPiece(s: Snd, wnd: nat, item: Item) {
    && item.Data? && 0 <= item.pos && item.pos + |item.bytes| <= |s.stream|
    && item.bytes == s.stream[item.pos..item.pos + |item.bytes|]
    && (|item.bytes| == s.mss || item.pos + |item.bytes| == |s.stream|
        || (item.pos == s.una && |item.bytes| == wnd))
    && |item.bytes| <= s.mss && item.pos + |item.bytes| <= s.una + wnd
  }

  predicate NewPieces(s: Snd, wnd: nat, items: seq<Item>) { forall i | 0 <= i < |items| :: NewPiece(s, wnd, items[i]) }

  /** With everything up to `nxt` sent no more may go: that is all there is, or the window is full, or acks are due and
      the next piece does not fit the window. */
  predicate NoMore(s: Snd, wnd: nat, nxt: int) {
    || nxt == |s.stream|
    || nxt - s.una >= wnd
    || (s.una < nxt && nxt + Min(s.mss, |s.stream| - nxt) > s.una + wnd)
  }

  /** One turn of the send loop: something goes exactly if something may. */
  lemma TurnSends(s: Snd, wnd: nat)
    requires SndInv(s) && s.state in {Established, CloseWait}
    ensures var n := SegSize(s, wnd);
      && (n == 0 <==> NoMore(s, wnd, s.nxt))
      && (n > 0 ==> NewPiece(s, wnd, Data(s.nxt, Slice(s, s.nxt, n))) && |Slice(s, s.nxt, n)| == n)
  {}

  lemma TurnMoves(s: Snd, n: nat, now: nat)
    requires SndInv(s) && s.state in {Established, CloseWait} && s.nxt - s.una + n <= TxLen(s)
    ensures var s' := Sent(s, n, now);
      SndInv(s') && s' == s.(nxt := s.nxt + n, high := s'.high, rtoAt := s'.rtoAt)
  {
    SentInv(s, n, now);
  }

  lemma PieceLater(s: Snd, s': Snd, wnd: nat, items: seq<Item>)
    requires s'.stream == s.stream && s'.mss == s.mss && s'.una == s.una
    ensures NewPieces(s', wnd, items) ==> NewPieces(s, wnd, items)
    ensures forall nxt: int :: NoMore(s', wnd, nxt) <==> NoMore(s, wnd, nxt)
  {}

  lemma PieceCons(s: Snd, wnd: nat, item: Item, rest: seq<Item>)
    requires NewPiece(s, wnd, item) && NewPieces(s, wnd, rest)
    ensures NewPieces(s, wnd, [item] + rest)
  {}

  lemma NothingSent(s: Snd, wnd: nat)
    ensures InARow([], s.nxt, s.nxt) && NewPieces(s, wnd, []) && OldPieces(s, []) && InARow([], s.rtx, s.rtx)
  {}

  /** The send loop: what goes follows on from what had gone, and it ends only with nothing more to go or the batch
      full. */
  lemma {:induction false} LoopSends(s: Snd, wnd: nat, now: nat, out: seq<Item>)
    requires SndInv(s) && s.state in {Established, CloseWait}
    ensures var (s', out') := PushData(s, wnd, now, out);
      && out <= out' && InARow(out'[|out|..], s.nxt, s'.nxt) && NewPieces(s, wnd, out'[|out|..])
      && (|out'| < OUT_MAX ==> NoMore(s, wnd, s'.nxt))
      && SndInv(s') && s' == s.(nxt := s'.nxt, high := s'.high, rtoAt := s'.rtoAt)
    decreases OUT_MAX - |out|
  {
    hide SndInv, Sent, NewPiece, NewPieces, NoMore, InARow, SegSize, Slice;
    var n := SegSize(s, wnd);
    TurnSends(s, wnd);
    if |out| < OUT_MAX && n > 0 {
      TurnFits(s, wnd);
      TurnMoves(s, n, now);
      var s1, item := Sent(s, n, now), Data(s.nxt, Slice(s, s.nxt, n));
      var (s', out') := PushData(s1, wnd, now, out + [item]);
      LoopSends(s1, wnd, now, out + [item]);
      var rest := out'[|out| + 1..];
      assert out'[|out|..] == [item] + rest && out'[|out + [item]|..] == rest;
      RowCons(item, rest, s'.nxt);
      PieceLater(s, s1, wnd, rest);
      PieceCons(s, wnd, item, rest);
    } else {
      assert out[|out|..] == [];
      NothingSent(s, wnd);
    }
  }

  lemma TurnFits(s: Snd, wnd: nat)
    requires SndInv(s) && s.state in {Established, CloseWait}
    ensures s.nxt - s.una + SegSize(s, wnd) <= TxLen(s)
  {}

  // ---------------------------------------------------------------- what has gone before

  /** Where the unacked data ends; the FIN, once sent, takes the last position in flight. */
  function DataEnd(s: Snd): int { if s.finSent then s.nxt - 1 else s.nxt }

  /** A segment sent again: as much unacked data from its position on as one segment takes, or the FIN. */
  predicate OldPiece(s: Snd, item: Item) {
    if item.pos < DataEnd(s) then
      && item.Data? && 0 <= s.una <= item.pos && |item.bytes| == Min(s.mss, DataEnd(s) - item.pos)
      && item.pos + |item.bytes| <= |s.stream| && item.bytes == s.stream[item.pos..item.pos + |item.bytes|]
    else item == Fin(s.nxt - 1) && s.finSent
  }

  predicate OldPieces(s: Snd, items: seq<Item>) { forall i | 0 <= i < |items| :: OldPiece(s, items[i]) }

  lemma TurnResends(s: Snd, pos: int, out: seq<Item>)
    requires SndInv(s) && Synced(s.state) && s.una <= pos && |out| < OUT_MAX
    ensures var (n, out') := Resend(s, pos, out);
      && (n == 0 <==> s.nxt <= pos) && (n == 0 ==> out' == out) && pos + n <= Max(pos, s.nxt)
      && (n > 0 ==> |out'| == |out| + 1 && out == out'[..|out|])
      && (n > 0 ==> OldPiece(s, out'[|out|]) && out'[|out|].pos == pos && Span(out'[|out|]) == n)
  {}

  lemma RtxMoves(s: Snd, n: nat)
    requires SndInv(s) && s.recovery == Rto && s.una <= s.rtx && s.rtx + n <= s.nxt
    ensures SndInv(s.(rtx := s.rtx + n))
  {}

  lemma RecoversSynced(s: Snd)
    requires SndInv(s) && s.recovery != NoRecovery
    ensures Synced(s.state) && 0 <= s.una
  {}

  lemma OldPieceLater(s: Snd, s': Snd, items: seq<Item>)
    requires s'.stream == s.stream && s'.mss == s.mss && s'.una == s.una && s'.nxt == s.nxt && s'.finSent == s.finSent
    ensures OldPieces(s', items) <==> OldPieces(s, items)
  {}

  lemma OldPieceCons(s: Snd, item: Item, rest: seq<Item>)
    requires OldPiece(s, item) && OldPieces(s, rest)
    ensures OldPieces(s, [item] + rest)
  {}

  /** The loop of timeout recovery, from rtx on. */
  lemma {:induction false} LoopResends(s: Snd, out: seq<Item>)
    requires SndInv(s) && s.recovery == Rto && s.una <= s.rtx
    ensures var (s', out') := ResendAll(s, out);
      && out <= out' && InARow(out'[|out|..], s.rtx, s'.rtx) && OldPieces(s, out'[|out|..])
      && SndInv(s') && s' == s.(rtx := s'.rtx) && s.rtx <= s'.rtx <= Max(s.rtx, s.nxt)
      && (|out'| < OUT_MAX ==> s'.rtx >= s.recover || s'.rtx - s.una >= s.cwnd || s'.rtx >= s.nxt)
    decreases OUT_MAX - |out|
  {
    hide SndInv, Resend, OldPiece, OldPieces, InARow;
    RecoversSynced(s);
    NothingSent(s, 0);
    var (n, out1) := Resend(s, s.rtx, out);
    if s.rtx < s.recover && s.rtx - s.una < s.cwnd && |out| < OUT_MAX {
      TurnResends(s, s.rtx, out);
      if n > 0 {
        RtxMoves(s, n);
        var s1, item := s.(rtx := s.rtx + n), out1[|out|];
        LoopResends(s1, out1);
        var (s', out') := ResendAll(s1, out1);
        var rest := out'[|out1|..];
        assert out'[|out|..] == [item] + rest;
        RowCons(item, rest, s'.rtx);
        OldPieceLater(s, s1, rest);
        OldPieceCons(s, item, rest);
      } else {
        assert out1[|out|..] == [];
      }
    } else {
      assert out[|out|..] == [];
    }
  }

  // ---------------------------------------------------------------- a push

  /** The oldest unacked segment. */
  predicate IsOldest(s: Snd, item: Item) { item.pos == s.una && OldPiece(s, item) }

  /** What recovery sends again, from where to where, and what alone may stop it. */
  predicate Recovers(s: Snd, s': Snd, items: seq<Item>, full: bool) {
    match s.recovery
    case NoRecovery => items == []
    case Fast => if s.rtxOne && s.una < s.nxt && !full then |items| == 1 && IsOldest(s, items[0]) else items == []
    case Rto =>
      var from := Max(s.rtx, s.una);
      && InARow(items, from, s'.rtx) && OldPieces(s, items) && s'.rtx <= Max(from, s.nxt)
      && (full || s'.rtx >= s.recover || s'.rtx - s.una >= s.cwnd || s'.rtx >= s.nxt)
  }

  /** What goes for the first time, and what alone may stop it: the data follows on from snd_nxt, and the FIN goes with
      the last of it; only a full batch may swallow the FIN's segment. */
  predicate Sends(s: Snd, s': Snd, items: seq<Item>, full: bool) {
    var wnd := Min(s.wnd, s.cwnd);
    var fin := items != [] && items[|items| - 1] == Fin(|s.stream|);
    var data := if fin then items[..|items| - 1] else items;
    && InARow(data, s.nxt, DataEnd(s')) && NewPieces(s, wnd, data) && (full || NoMore(s, wnd, DataEnd(s')))
    && (s'.finSent <==> s.finWanted && DataEnd(s') == |s.stream|)
    && (fin ==> s'.finSent) && (s'.finSent && !fin ==> full)
  }

  lemma RecoverySends(s: Snd, out: seq<Item>)
    requires SndInv(s)
    ensures var (s', out') := PushRecovery(s, out);
      && out <= out' && SndInv(s') && s' == s.(rtx := s'.rtx, rtxOne := s'.rtxOne)
      && Recovers(s, s', out'[|out|..], |out'| >= OUT_MAX && (s.recovery == Fast ==> |out| >= OUT_MAX))
  {
    hide SndInv, ResendAll;
    RtxBehind(s);
    if s.recovery == Rto {
      var s1 := if s.rtx < s.una then s.(rtx := s.una) else s;
      LoopResends(s1, out);
      OldPieceLater(s, s1, ResendAll(s1, out).1[|out|..]);
    } else if s.recovery == Fast && s.rtxOne && |out| < OUT_MAX {
      RecoversSynced(s);
      TurnResends(s, s.una, out);
    }
  }

  lemma RtxBehind(s: Snd)
    requires SndInv(s)
    ensures SndInv(s.(rtxOne := false))
    ensures s.recovery == Rto ==> SndInv(if s.rtx < s.una then s.(rtx := s.una) else s)
  {}

  lemma FinSends(s: Snd, s1: Snd, now: nat, data: seq<Item>, out: seq<Item>)
    requires SndInv(s1) && s1.state in {Established, CloseWait}
    requires s1.stream == s.stream && s1.mss == s.mss && s1.una == s.una && s1.finWanted == s.finWanted
    requires InARow(data, s.nxt, s1.nxt) && NewPieces(s, Min(s.wnd, s.cwnd), data)
    requires |out| < OUT_MAX ==> NoMore(s, Min(s.wnd, s.cwnd), s1.nxt)
    ensures var (s', out') := PushFin(s1, now, out);
      && out <= out' && |out'| <= |out| + 1
      && Sends(s, s', data + out'[|out|..], |out'| >= OUT_MAX)
  {
    NoFinInData(s, Min(s.wnd, s.cwnd), data);
    FinGoes(s1, now, out);
    hide SndInv, NewPiece, NoMore, PushFin;
    var (s', out') := PushFin(s1, now, out);
    var tail := out'[|out|..];
    if tail == [] {
      assert data + tail == data;
    } else {
      assert (data + tail)[..|data + tail| - 1] == data;
    }
  }

  lemma NoFinInData(s: Snd, wnd: nat, items: seq<Item>)
    requires NewPieces(s, wnd, items)
    ensures items != [] ==> items[|items| - 1].Data?
  {}

  /** The FIN goes exactly when everything accepted has gone and no more will be. */
  lemma FinGoes(s: Snd, now: nat, out: seq<Item>)
    requires SndInv(s) && s.state in {Established, CloseWait}
    ensures var (s', out') := PushFin(s, now, out);
      && DataEnd(s') == s.nxt && (s'.finSent <==> s.finWanted && s.nxt == |s.stream|)
      && out' == if s'.finSent && |out| < OUT_MAX then out + [Fin(|s.stream|)] else out
  {}

  /** tcp_push, in any state: the batch goes on first with what recovery sends again and then, while data may be sent,
      with everything new that may go. Nothing but a full batch leaves any of it out. */
  lemma PushSends(s: Snd, now: nat, out: seq<Item>) returns (k: nat)
    requires SndInv(s)
    ensures var (s', out') := Push(s, now, out);
      && out <= out' && |out| <= k <= |out'|
      && Recovers(s, s', out'[|out|..k], k >= OUT_MAX && (s.recovery == Fast ==> |out| >= OUT_MAX))
      && (if s.state in {Established, CloseWait} then Sends(s, s', out'[k..], |out'| >= OUT_MAX) else k == |out'|)
  {
    hide SndInv, PushRecovery, PushData, PushFin, Recovers, Sends, NewPieces, NoMore, InARow, TxLen;
    var (s1, out1) := PushRecovery(s, out);
    k := |out1|;
    RecoverySends(s, out);
    if s.state in {Established, CloseWait} {
      var wnd := Min(s.wnd, s.cwnd);
      LoopSends(s1, wnd, now, out1);
      PieceLater(s, s1, wnd, PushData(s1, wnd, now, out1).1[k..]);
      var (s2, out2) := PushData(s1, wnd, now, out1);
      FinSends(s, s2, now, out2[k..], out2);
      var (s3, out3) := PushFin(s2, now, out2);
      var s' := Push(s, now, out).0;
      assert out3[k..] == out2[k..] + out3[|out2|..];
      assert out3[|out|..k] == out1[|out|..];
      SendsArmed(s, s3, s', out3[k..], |out3| >= OUT_MAX);
      FinKeepsRtx(s2, now, out2);
      RecoversTo(s, s1, s', out1[|out|..], k >= OUT_MAX && (s.recovery == Fast ==> |out| >= OUT_MAX));
    } else {
      assert out1[|out|..k] == out1[|out|..];
    }
  }

  /** Neither cares about the timer, nor the first about anything but rtx. */
  lemma SendsArmed(s: Snd, s1: Snd, s': Snd, items: seq<Item>, full: bool)
    requires Sends(s, s1, items, full) && s'.finSent == s1.finSent && s'.nxt == s1.nxt
    ensures Sends(s, s', items, full)
  {}

  lemma RecoversTo(s: Snd, s1: Snd, s': Snd, items: seq<Item>, full: bool)
    requires Recovers(s, s1, items, full) && s'.rtx == s1.rtx
    ensures Recovers(s, s', items, full)
  {}

  lemma FinKeepsRtx(s: Snd, now: nat, out: seq<Item>)
    ensures PushFin(s, now, out).0.rtx == s.rtx
  {}

  // ---------------------------------------------------------------- a timeout

  /** The timer has been found run out with retries left: it runs again with twice the delay, up to the maximum, and
      what the peer has not answered goes again. Of a handshake that is the SYN; of a shut window the first byte behind
      it; and of anything in flight, with the push that follows, the oldest segment. */
  lemma TimeoutResends(s: Snd, now: nat, then': nat)
    requires SndInv(s) && s.state !in {Closed, Listen} && s.retries < (if Handshaking(s) then SYN_RETRIES else RETRIES)
    requires Handshaking(s) || s.una < s.nxt || (s.una < |s.stream| && s.wnd == 0)
    ensures var (s', out) := Timeout(s, now, []);
      && s'.state == s.state && s'.una == s.una && s'.stream == s.stream && s'.retries == s.retries + 1
      && s'.rtoMs == Min(2 * s.rtoMs, RTO_MAX_MS) && s'.rtoAt == now + s'.rtoMs
      && (Handshaking(s) ==> out == [Syn(-1)])
      && (!Handshaking(s) && s.una == s.nxt ==>
            0 <= s.una < |s.stream| && s'.nxt == s.una + 1 && out == [Data(s.una, [s.stream[s.una]])])
      && (!Handshaking(s) && s.una < s.nxt ==>
            var items := Push(s', then', out).1;
            && items != [] && IsOldest(s, items[0])
            && s'.dupacks == 0 && s'.cwnd == s.mss && s'.ssthresh == Max((s.nxt - s.una) / 2, 2 * s.mss))
  {
    if !Handshaking(s) && s.una < s.nxt {
      FlightResends(s, now, then');
    } else if !Handshaking(s) {
      assert s.stream[s.una..s.una + 1] == [s.stream[s.una]];
    }
    hide Push;
  }

  lemma FlightResends(s: Snd, now: nat, then': nat)
    requires SndInv(s) && Synced(s.state) && s.una < s.nxt && s.retries < RETRIES
    ensures var (s', out) := Timeout(s, now, []); var items := Push(s', then', out).1;
      out == [] && items != [] && IsOldest(s, items[0])
  {
    NoneOk(s);
    TimeoutKeeps(s, now, []);
    var (s', out) := Timeout(s, now, []);
    StartsOver(s, now);
    hide SndInv, Timeout, Push, Sends, EnterRto, OldPiece;
    var k := PushSends(s', then', []);
    var (s2, items) := Push(s', then', []);
    var row := items[0..k];
    assert row != [] && OldPiece(s', row[0]);
    OldestSame(s', s, row[0]);
  }

  lemma NoneOk(s: Snd)
    ensures ItemsOk(s, [])
  {}

  lemma StartsOver(s: Snd, now: nat)
    requires SndInv(s) && Synced(s.state) && s.una < s.nxt && s.retries < RETRIES
    ensures var (s', out) := Timeout(s, now, []);
      && out == [] && s'.recovery == Rto && s'.rtx == s'.una == s.una && s'.recover == s'.nxt == s.nxt && s'.cwnd >= 1
      && s'.stream == s.stream && s'.mss == s.mss && s'.finSent == s.finSent
  {}

  // ---------------------------------------------------------------- how far timeout recovery goes

  /** It goes to where the flight ended when it began, to the congestion window or to the end of the batch. */
  predicate GoesFar(s: Snd, s': Snd, full: bool) {
    s'.rtx >= s.recover || s'.rtx - s.una >= s.cwnd || full
  }

  /** That is so if and only if none of the flight has been taken back since, or something else stops it first. */
  lemma GoesFarExactly(s: Snd, now: nat, out: seq<Item>) returns (k: nat)
    requires SndInv(s) && s.recovery == Rto
    ensures var (s', out') := Push(s, now, out); var sent := Max(s.nxt, s.rtx);
      && |out| <= k <= |out'| && out <= out' && InARow(out'[|out|..k], Max(s.rtx, s.una), s'.rtx)
      && OldPieces(s, out'[|out|..k])
      && (GoesFar(s, s', k >= OUT_MAX) <==> s.recover <= sent || sent - s.una >= s.cwnd || k >= OUT_MAX)
  {
    RecoversSynced(s);
    Ordered(s);
    hide SndInv, Push, Sends, OldPieces, InARow;
    k := PushSends(s, now, out);
    RowForward(Push(s, now, out).1[|out|..k], Max(s.rtx, s.una), Push(s, now, out).0.rtx);
  }

  lemma Ordered(s: Snd)
    requires SndInv(s)
    ensures s.una <= s.nxt
  {}

  lemma {:induction false} RowForward(items: seq<Item>, from: int, to: int)
    requires InARow(items, from, to)
    ensures from <= to
  {
    if items != [] {
      RowForward(items[1..], from + Span(items[0]), to);
    }
  }

  /** A flight that is taken back: a probe of a shut window has timed out, so that it is being recovered, when the
      window opens and the probe counts as thrown away. Recovery then has nothing to send again up to `recover`; the
      byte goes as new data. */
  lemma ProbeTakenBack(s: Snd, seg: u32, window: nat, rtoBase: nat, now: nat)
    requires SndInv(s) && s.state == Established && s.recovery == Rto && !s.finWanted
    requires s.wnd == 0 < window && s.nxt == s.una + 1 == s.recover == |s.stream| && s.rtx == s.una
    requires SeqLeq(s.wl1, seg)
    ensures var s1 := GotAck(s, seg, s.una, window, true, rtoBase, now); var (s2, items) := Push(s1, now, []);
      && s1.nxt < s1.recover && !GoesFar(s1, s2, false)
      && 0 <= s.una && items == [Data(s.una, [s.stream[s.una]])]
  {
    var s1 := s.(nxt := s.una, rtoAt := 0, rtoMs := s.rtoBase, wnd := window, wl1 := seg);
    assert GotAck(s, seg, s.una, window, true, rtoBase, now) == s1;
    assert ResendAll(s1, []) == (s1, []);
    var wnd := Min(s1.wnd, s1.cwnd);
    var item, s2 := Data(s.una, Slice(s1, s.una, 1)), Sent(s1, 1, now);
    assert SegSize(s1, wnd) == 1 && SegSize(s2, wnd) == 0;
    assert PushData(s2, wnd, now, [item]) == (s2, [item]);
    assert Emit([], item) == [item];
    assert PushData(s1, wnd, now, []) == (s2, [item]);
    assert s.stream[s.una..s.una + 1] == [s.stream[s.una]];
  }

  // ---------------------------------------------------------------- acks

  /** The third duplicate ack in a row, with nothing being recovered, has the oldest segment sent again by the push that
      follows; one before it changes nothing but their count. */
  lemma DuplicatesResend(s: Snd, seg: u32, rtoBase: nat, now: nat)
    requires SndInv(s) && Synced(s.state) && s.una < s.nxt && s.recovery == NoRecovery && rtoBase >= 1
    ensures var s' := GotAck(s, seg, s.una, s.wnd, true, rtoBase, now); var items := Push(s', now, []).1;
      && s'.una == s.una && s'.nxt == s.nxt && s'.wnd == s.wnd && s'.stream == s.stream
      && s'.dupacks == s.dupacks + 1 && (s'.recovery == NoRecovery <==> s.dupacks < 2)
      && (s.dupacks >= 2 ==> items != [] && IsOldest(s, items[0]))
      && (s.dupacks >= 2 ==> s'.ssthresh == Max((s.nxt - s.una) / 2, 2 * s.mss) && s'.cwnd == s'.ssthresh + 3 * s.mss)
  {
    ThirdDuplicate(s, seg, rtoBase, now);
    AckKeeps(s, seg, s.una, s.wnd, true, rtoBase, now);
    var s' := GotAck(s, seg, s.una, s.wnd, true, rtoBase, now);
    hide SndInv, GotAck, Push, Sends, OldPiece;
    if s.dupacks >= 2 {
      FastResends(s', now);
      OldestSame(s', s, Push(s', now, []).1[0]);
    }
  }

  lemma ThirdDuplicate(s: Snd, seg: u32, rtoBase: nat, now: nat)
    requires SndInv(s) && Synced(s.state) && s.una < s.nxt && s.recovery == NoRecovery
    ensures var s' := GotAck(s, seg, s.una, s.wnd, true, rtoBase, now);
      && s'.una == s.una && s'.nxt == s.nxt && s'.wnd == s.wnd && s'.stream == s.stream && s'.mss == s.mss
      && s'.finSent == s.finSent && s'.dupacks == s.dupacks + 1 && (s'.recovery == NoRecovery <==> s.dupacks < 2)
      && (s.dupacks >= 2 ==> s'.recovery == Fast && s'.rtxOne)
      && (s.dupacks >= 2 ==> s'.ssthresh == Max((s.nxt - s.una) / 2, 2 * s.mss) && s'.cwnd == s'.ssthresh + 3 * s.mss)
  {
    hide SeqLeq;
  }

  lemma FastResends(s: Snd, now: nat)
    requires SndInv(s) && s.recovery == Fast && s.rtxOne && s.una < s.nxt
    ensures var items := Push(s, now, []).1; items != [] && IsOldest(s, items[0])
  {
    hide SndInv, Push, Sends, IsOldest;
    var k := PushSends(s, now, []);
  }

  lemma OldestSame(s: Snd, s': Snd, item: Item)
    requires s'.stream == s.stream && s'.mss == s.mss && s'.una == s.una && s'.nxt == s.nxt && s'.finSent == s.finSent
    ensures IsOldest(s', item) <==> IsOldest(s, item)
  {}

  /** In fast recovery an ack short of where it began has the next hole filled; one that reaches it ends any
      recovery. */
  lemma RecoveryAcked(s: Snd, seg: u32, ack: int, window: nat, bare: bool, rtoBase: nat, now: nat)
    requires SndInv(s) && Synced(s.state) && s.una < ack <= s.nxt && s.recovery != NoRecovery && rtoBase >= 1
    ensures var s' := GotAck(s, seg, ack, window, bare, rtoBase, now); var items := Push(s', now, []).1;
      && s'.una == ack && s'.stream == s.stream
      && (ack >= s.recover ==> s'.recovery == NoRecovery)
      && (s.recovery == Fast && ack < s.recover && ack < s'.nxt ==> items != [] && IsOldest(s', items[0]))
  {
    AckKeeps(s, seg, ack, window, bare, rtoBase, now);
    RecoveryAfter(s, seg, ack, window, bare, rtoBase, now);
    var s' := GotAck(s, seg, ack, window, bare, rtoBase, now);
    hide SndInv, GotAck, Push, IsOldest;
    if s'.recovery == Fast && s'.rtxOne && s'.una < s'.nxt {
      FastResends(s', now);
    }
  }

  /** What an ack of something new does before the window it carries is looked at. */
  lemma AckedIs(s: Snd, ack: int, rtoBase: nat, now: nat)
    requires SndInv(s) && Synced(s.state) && s.una < ack <= s.nxt
    ensures var s' := Acked(s, ack, rtoBase, now);
      && s'.una == ack && s'.nxt == s.nxt && s'.stream == s.stream && s'.wnd == s.wnd && s'.wl1 == s.wl1
      && s'.finSent == s.finSent && s'.retries == 0 && s'.rtoMs == s'.rtoBase == rtoBase
      && s'.rtoAt == if ack == s.nxt then 0 else now + rtoBase
  {
    hide Grow;
    GrowKeeps(Advance(s, ack, rtoBase, now), ack - s.una);
  }

  lemma AckedRecovers(s: Snd, ack: int, rtoBase: nat, now: nat)
    requires SndInv(s) && Synced(s.state) && s.una < ack <= s.nxt
    ensures var s' := Acked(s, ack, rtoBase, now);
      && (s.recovery == NoRecovery || ack >= s.recover ==> s'.recovery == NoRecovery)
      && (s.recovery == Fast && ack < s.recover && ack < s.nxt ==> s'.recovery == Fast && s'.rtxOne)
      && (s.recovery == NoRecovery ==>
            s'.ssthresh == s.ssthresh && s'.cwnd == Grow(Advance(s, ack, rtoBase, now), ack - s.una).cwnd)
  {
    hide Grow;
    GrowKeeps(Advance(s, ack, rtoBase, now), ack - s.una);
  }

  lemma WindowTaken(s: Snd, seg: u32, ack: int, window: nat)
    requires s.una <= s.nxt
    ensures var s' := GotWindow(Unprobe(s, ack, window), seg, ack, window);
      && s' == s.(nxt := s'.nxt, rtoAt := s'.rtoAt, rtoMs := s'.rtoMs, wnd := s'.wnd, wl1 := s'.wl1,
                  retries := s'.retries)
      && (s'.retries == s.retries || s'.retries == 0)
      && (if s'.nxt == s.nxt then s'.rtoAt == s.rtoAt && s'.rtoMs == s.rtoMs
          else s'.nxt == s.una && s'.rtoAt == 0 && s'.rtoMs == s.rtoBase)
      && (s.una <= ack <= s.nxt && SeqLeq(s.wl1, seg) ==> s'.wnd == window && s'.wl1 == seg)
      && (s.una <= ack <= s.nxt && !SeqLeq(s.wl1, seg) ==> s'.wnd == s.wnd && s'.wl1 == s.wl1)
      && (ack < s.una || s.nxt < ack ==> s' == s)
  {
    hide SeqLeq;
  }

  lemma RecoveryAfter(s: Snd, seg: u32, ack: int, window: nat, bare: bool, rtoBase: nat, now: nat)
    requires SndInv(s) && Synced(s.state) && s.una < ack <= s.nxt && s.recovery != NoRecovery
    ensures var s' := GotAck(s, seg, ack, window, bare, rtoBase, now);
      && s'.una == ack && s'.stream == s.stream
      && (ack >= s.recover ==> s'.recovery == NoRecovery)
      && (s.recovery == Fast && ack < s.recover && ack < s'.nxt ==> s'.recovery == Fast && s'.rtxOne)
  {
    hide SndInv, SeqLeq, Acked, Unprobe, GotWindow;
    AckedIs(s, ack, rtoBase, now);
    AckedRecovers(s, ack, rtoBase, now);
    WindowTaken(Acked(s, ack, rtoBase, now), seg, ack, window);
  }

  /** An ack of something new starts the count of retries and the timer over, for as long as anything is left in flight;
      the window said goes with every ack of what is in flight, or of its start, that is not older than the one that set
      it; and any other ack changes nothing. */
  lemma AckRestarts(s: Snd, seg: u32, ack: int, window: nat, bare: bool, rtoBase: nat, now: nat)
    requires SndInv(s) && Synced(s.state)
    ensures var s' := GotAck(s, seg, ack, window, bare, rtoBase, now);
      && (s.una < ack <= s.nxt ==>
            && s'.retries == 0 && s'.rtoMs == s'.rtoBase == rtoBase
            && s'.rtoAt == if s'.una == s'.nxt then 0 else now + rtoBase)
      && (s.una <= ack <= s.nxt && SeqLeq(s.wl1, seg) ==> s'.wnd == window && s'.wl1 == seg)
      && (s.una <= ack <= s.nxt && !SeqLeq(s.wl1, seg) ==> s'.wnd == s.wnd && s'.wl1 == s.wl1)
      && (ack < s.una || s.nxt < ack ==> s' == s)
  {
    Ordered(s);
    DupackIs(s);
    hide SndInv, SeqLeq, Acked, CcDupack, Unprobe, GotWindow;
    if s.una < ack <= s.nxt {
      AckedIs(s, ack, rtoBase, now);
    }
    WindowTaken(NewOrDuplicate(s, ack, window, bare, rtoBase, now), seg, ack, window);
  }

  lemma DupackIs(s: Snd)
    ensures var s' := CcDupack(s); s'.una == s.una && s'.nxt == s.nxt && s'.wnd == s.wnd && s'.wl1 == s.wl1
  {}

  /** With nothing being recovered an ack of something new widens the congestion window, by no more than one segment
      below the threshold and about one a round trip above it. */
  lemma WindowGrows(s: Snd, seg: u32, ack: int, window: nat, bare: bool, rtoBase: nat, now: nat)
    requires SndInv(s) && Synced(s.state) && s.una < ack <= s.nxt && s.recovery == NoRecovery && s.cwnd < CWND_MAX
    ensures var s' := GotAck(s, seg, ack, window, bare, rtoBase, now);
      && s.cwnd < s'.cwnd <= CWND_MAX && s'.recovery == NoRecovery && s'.ssthresh == s.ssthresh
      && (s.cwnd < s.ssthresh ==> s'.cwnd <= s.cwnd + Min(ack - s.una, s.mss))
      && (s.cwnd >= s.ssthresh ==> (s'.cwnd - s.cwnd) * s.cwnd <= Max(s.mss * s.mss, s.cwnd))
  {
    GrowIs(Advance(s, ack, rtoBase, now), ack - s.una) by { Started(s); }
    hide SndInv, SeqLeq, Acked, Unprobe, GotWindow, Grow;
    AckedIs(s, ack, rtoBase, now);
    AckedRecovers(s, ack, rtoBase, now);
    WindowTaken(Acked(s, ack, rtoBase, now), seg, ack, window);
  }

  lemma Started(s: Snd)
    requires SndInv(s) && Synced(s.state)
    ensures s.mss >= 1 && s.cwnd >= 1
  {}

  lemma GrowIs(s: Snd, acked: nat)
    requires s.mss >= 1 && 1 <= s.cwnd < CWND_MAX && acked > 0
    ensures var s' := Grow(s, acked);
      && s.cwnd < s'.cwnd <= CWND_MAX
      && (s.cwnd < s.ssthresh ==> s'.cwnd <= s.cwnd + Min(acked, s.mss))
      && (s.cwnd >= s.ssthresh ==> (s'.cwnd - s.cwnd) * s.cwnd <= Max(s.mss * s.mss, s.cwnd))
  {
    PerRoundTrip(s.mss, s.cwnd);
    hide Additive;
    if s.cwnd >= s.ssthresh {
      Fewer(Grow(s, acked).cwnd - s.cwnd, Additive(s.mss, s.cwnd), s.cwnd);
    }
  }

  lemma Fewer(a: nat, b: nat, n: nat)
    requires a <= b
    ensures a * n <= b * n
  {}

  lemma PerRoundTrip(mss: nat, cwnd: nat)
    requires cwnd > 0
    ensures Additive(mss, cwnd) * cwnd <= Max(mss * mss, cwnd)
  {}

  /** tcp_send takes all it is given, or fills the ring. */
  lemma AcceptTakes(s: Snd, data: seq<byte>)
    requires SndInv(s) && s.state in {Established, CloseWait}
    ensures var s' := Accept(s, data); var n := |s'.stream| - |s.stream|;
      && 0 <= n <= |data| && s' == s.(stream := s.stream + data[..n])
      && (n == |data| || |s'.stream| - s.una == TX_BUF)
  {}
}