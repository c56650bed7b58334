/** A transfer makes progress: one timeout, one segment and one ack that the network lets through move snd_una on,
    whatever either end has done before. */
module TcpDelivery {
  import opened TcpSeq
  import opened TcpSendSpec
  import opened TcpSendFacts
  import opened TcpReceiver
  import opened TcpEndpoint
  import opened TcpStream
  import opened TcpStates
  import opened TcpProgress

  // ---------------------------------------------------------------- the sender

  /** A tick that finds the timer run out with something in flight sends the oldest segment first. */
  lemma TickResends(x: End, env: Env, x': End, out: seq<Item>)
    requires EndInv(x) && Synced(x.snd.state) && x.snd.una < x.snd.nxt && x.snd.retries < RETRIES
    requires 0 < x.snd.rtoAt <= env.now && Called(x, Tick, env, x', out)
    ensures out != [] && IsOldest(x.snd, out[0])
    ensures x' == x.(snd := x'.snd) && Synced(x'.snd.state) && x'.snd.una == x.snd.una && x.snd.nxt <= x'.snd.nxt
  {
    InvOf(x);
    NoneOk(x.snd);
    StartsOver(x.snd, env.now);
    TimeoutResends(x.snd, env.now, env.now);
    TimeoutKeeps(x.snd, env.now, []);
    var (s, items) := Timeout(x.snd, env.now, []);
    hide EndInv, SndInv, Timeout, Push, IsOldest, ItemsOk;
    PushHolds(s, env.now, items);
  }

  // ---------------------------------------------------------------- the receiver

  /** New data at the reader's position is taken as far as there is room, and a FIN there ends the stream. */
  lemma TakesMore(r: Rcv, body: seq<byte>, fin: bool, dropped: bool, r': Rcv)
    requires RcvOk(r) && !r.peerFin && AbsorbAt(r, r.data, body, fin, dropped, r')
    requires if body == [] then fin else Room(r) > 0
    ensures Nxt(r) < Nxt(r')
  {
    var take := if |body| < Room(r) then |body| else Room(r);
    StoredIs(r.data, body[..take]);
    hide Stored;
  }

  /** Every segment a synchronised connection sends acks all it has in order. */
  predicate AllAck(items: seq<Item>) { forall i | 0 <= i < |items| :: items[i].Data? || items[i].Fin? || items[i].Ack? }

  lemma AllAckSegs(e: End, items: seq<Item>)
    requires AllAck(items)
    ensures forall i | 0 <= i < |items| ::
      var h := ToSeg(e, items[i]); h.isAck && !h.rst && !h.syn && h.ack == Nxt(e.rcv)
  {}

  lemma RecoversAck(s: Snd, s': Snd, items: seq<Item>, full: bool)
    requires Recovers(s, s', items, full)
    ensures AllAck(items)
  {
    hide InARow;
  }

  lemma SendsAck(s: Snd, s': Snd, items: seq<Item>, full: bool)
    requires Sends(s, s', items, full)
    ensures AllAck(items)
  {
    hide InARow, NoMore;
    var fin := items != [] && items[|items| - 1] == Fin(|s.stream|);
    var data := if fin then items[..|items| - 1] else items;
    forall i | 0 <= i < |items| ensures items[i].Data? || items[i].Fin? {
      if i < |data| {
        assert NewPiece(s, Min(s.wnd, s.cwnd), data[i]);
      }
    }
  }

  lemma PushAcks(s: Snd, now: nat)
    requires SndInv(s)
    ensures AllAck(Push(s, now, []).1)
  {
    hide SndInv, Push, Recovers, Sends;
    var none: seq<Item> := [];
    var k := PushSends(s, now, none);
    var (s', out) := Push(s, now, none);
    RecoversAck(s, s', out[|none|..k], k >= OUT_MAX && (s.recovery == Fast ==> |none| >= OUT_MAX));
    if s.state in {Established, CloseWait} {
      SendsAck(s, s', out[k..], |out| >= OUT_MAX);
    }
    assert out == out[0..k] + out[k..];
  }

  /** The two parts of tcp_input for a segment that is looked at. */
  lemma Parts(y: End, g: Seg, env: Env, y': End, out: seq<Item>) returns (mid: End)
    requires EndInv(y) && Synced(y.snd.state) && !g.rst && env.rtoBase >= 1 && Input(y, g, env, y', out)
    requires !(g.isAck && y.snd.nxt < g.ack) && !Unwanted(y, g)
    ensures TakeAckAndData(y, g, env, mid) && Answers(mid, g.data != [] || g.fin || g.syn, env.now, y', out)
    ensures EndInv(mid) && SndInv(mid.snd)
  {
    hide TakeAckAndData, Answers, Unwanted, EndInv, SndInv;
    mid :| TakeAckAndData(y, g, env, mid) && Answers(mid, g.data != [] || g.fin || g.syn, env.now, y', out);
    MiddleKeeps(y, g, env, mid);
    KeepsInv(y, mid);
    InvOf(mid);
  }

  lemma Dismissed(y: End, g: Seg, env: Env, y': End, out: seq<Item>)
    requires Synced(y.snd.state) && !g.rst && Input(y, g, env, y', out)
    requires (g.isAck && y.snd.nxt < g.ack) || Unwanted(y, g)
    ensures y'.snd.state == Closed || out == [Ack(y.snd.nxt)]
  {
    hide TakeAckAndData, Answers, Unwanted;
  }

  /** A segment that carries anything is answered, and every segment of the answer acks what has come. */
  lemma Answered(y: End, g: Seg, env: Env, y': End, out: seq<Item>)
    requires EndInv(y) && Synced(y.snd.state) && !g.rst && (g.data != [] || g.fin || g.syn) && env.rtoBase >= 1
    requires Input(y, g, env, y', out) && y'.snd.state != Closed
    ensures out != [] && AllAck(out) && (|out| < OUT_MAX ==> out[|out| - 1].Ack?)
  {
    hide EndInv, SndInv, TakeAckAndData, Push, Input, Unwanted;
    if !(g.isAck && y.snd.nxt < g.ack) && !Unwanted(y, g) {
      var mid := Parts(y, g, env, y', out);
      PushAcks(mid.snd, env.now);
    } else {
      Dismissed(y, g, env, y', out);
    }
  }

  /** What has been acked grows at the receiver with every segment at snd_una, if it was not there already: the bytes
      are taken if there is room for one of them, and the FIN always. */
  lemma OldestArrives(x: End, y: End, fromX: set<Seg>, g: Seg, env: Env, y': End, out: seq<Item>)
    requires Safe(x, y, fromX) && EndInv(y) && Synced(y.snd.state) && Synced(x.snd.state) && env.rtoBase >= 1
    requires SegOk(x, g) && g.pos == x.snd.una < x.snd.nxt && !g.rst
    requires if g.data == [] then g.fin else Room(y.rcv) > 0
    requires !(g.isAck && y.snd.nxt < g.ack) && !Unwanted(y, g) && Input(y, g, env, y', out)
    ensures x.snd.una < Nxt(y'.rcv)
  {
    hide Safe, EndInv, SegOk, TakeAckAndData, Push, Input, Unwanted, RcvOk, SndInv;
    InputAgrees(x, y, fromX, g, env, y', out);
    AllArrived(x, y, fromX);
    if x.snd.una == Nxt(y.rcv) {
      var mid := Parts(y, g, env, y', out);
      MiddleTakesMore(y, g, env, mid);
    }
  }

  /** The peer's FIN is past everything. */
  lemma AllArrived(x: End, y: End, fromX: set<Seg>)
    requires Safe(x, y, fromX)
    ensures y.rcv.peerFin ==> x.snd.nxt <= Nxt(y.rcv)
    ensures RcvOk(y.rcv) && x.snd.una <= Nxt(y.rcv)
  {}

  lemma MiddleTakesMore(y: End, g: Seg, env: Env, mid: End)
    requires EndInv(y) && Synced(y.snd.state) && RcvOk(y.rcv) && !y.rcv.peerFin && g.pos == Nxt(y.rcv)
    requires TakeAckAndData(y, g, env, mid) && (if g.data == [] then g.fin else Room(y.rcv) > 0)
    ensures Nxt(y.rcv) < Nxt(mid.rcv)
  {
    StillTakes(y, g, env);
    hide GotAck, Wire, Shl, EndInv, RcvOk;
    assert g.data[0..] == g.data;
    TakesMore(y.rcv, g.data, g.fin, env.dropped, mid.rcv);
  }

  /** An end whose peer has not finished goes on taking data, whatever the segment acks. */
  lemma StillTakes(y: End, g: Seg, env: Env)
    requires EndInv(y) && Synced(y.snd.state) && !y.rcv.peerFin
    ensures CanTake(AckedEnd(y, g, env).snd.state) && AckedEnd(y, g, env).rcv == y.rcv
  {
    if g.isAck {
      AckStates(y.snd, Wire(y.peer, g.pos), g.ack, Shl(g.window, y.sndShift), g.data == [] && !g.fin, env.rtoBase,
                env.now);
    }
    hide GotAck, Wire, Shl, SndInv;
  }

  // ---------------------------------------------------------------- and back

  /** An ack of something in flight moves snd_una to it, whatever else the segment brings. */
  lemma AckArrives(x: End, h: Seg, env: Env, x': End, out: seq<Item>)
    requires EndInv(x) && Synced(x.snd.state) && env.rtoBase >= 1 && !h.rst && h.isAck && x.snd.una < h.ack <= x.snd.nxt
    requires (x.detached ==> h.data == []) && Input(x, h, env, x', out)
    ensures x'.snd.una == h.ack
  {
    assert !Unwanted(x, h);
    hide EndInv, SndInv, TakeAckAndData, Push, Input, ItemsOk;
    var mid := Parts(x, h, env, x', out);
    MiddleUna(x, h, env, mid);
    NoItems(mid.snd);
    PushRing(mid.snd, env.now, []);
  }

  lemma MiddleUna(x: End, h: Seg, env: Env, mid: End)
    requires h.isAck && x.snd.una < h.ack <= x.snd.nxt && TakeAckAndData(x, h, env, mid)
    ensures mid.snd.una == h.ack
  {
    AckMoves(x.snd, Wire(x.peer, h.pos), h.ack, Shl(h.window, x.sndShift), h.data == [] && !h.fin, env.rtoBase,
             env.now);
    hide GotAck, Wire, Shl, Absorb;
  }

  /** The segment with which a tick answers its timer. */
  lemma OldestSeg(x: End, x': End, item: Item)
    requires EndInv(x) && IsOldest(x.snd, item) && x.snd.una < x.snd.nxt && Synced(x.snd.state) && x'.rcv == x.rcv
    ensures var g := ToSeg(x', item);
      g.pos == x.snd.una && !g.rst && g.isAck && g.ack == Nxt(x.rcv) && (g.data == [] ==> g.fin)
  {}

  /** Both ends synchronised, in any states and after any run: x has something in flight, its timer has run out and it
      has a retry left. The tick sends the oldest segment; if that gets through to y, which has room, and one segment of
      y's answer gets back to x, then x has moved snd_una on. (Neither ack may be of a probe that its receiver has since
      counted as thrown away, and nobody has closed y's socket.) */
  lemma RoundTrip(x: End, y: End, fromX: set<Seg>, fromY: set<Seg>, env: Env, x1: End, sent: seq<Item>,
                  envY: Env, y1: End, answer: seq<Item>, i: nat, envX: Env, x2: End, more: seq<Item>)
    requires Safe(x, y, fromX) && Safe(y, x, fromY) && EndInv(x) && EndInv(y)
    requires Synced(x.snd.state) && Synced(y.snd.state) && envY.rtoBase >= 1 && envX.rtoBase >= 1
    requires x.snd.una < x.snd.nxt && x.snd.retries < RETRIES && 0 < x.snd.rtoAt <= env.now
    requires Called(x, Tick, env, x1, sent)
    requires Room(y.rcv) > 0 && !y.detached && Nxt(x.rcv) <= y.snd.nxt
    requires sent != [] ==> Input(y, ToSeg(x1, sent[0]), envY, y1, answer)
    requires y1.snd.state != Closed && Nxt(y1.rcv) <= x1.snd.nxt
    requires i < |answer| && (x.detached ==> ToSeg(y1, answer[i]).data == [])
    requires Input(x1, ToSeg(y1, answer[i]), envX, x2, more)
    ensures sent != [] && answer != [] && x.snd.una < x2.snd.una == Nxt(y1.rcv)
  {
    TickResends(x, env, x1, sent);
    OldestSeg(x, x1, sent[0]);
    CalledSafe(y, x, fromY, fromX, Tick, env, x1, sent);
    var g := ToSeg(x1, sent[0]);
    assert g in Segs(x1, sent);
    SentOk(x1, y, fromX + Segs(x1, sent), g);
    hide Safe, EndInv, Input, Called, SegOk, Segs, IsOldest;
    OldestArrives(x1, y, fromX + Segs(x1, sent), g, envY, y1, answer);
    Answered(y, g, envY, y1, answer);
    AllAckSegs(y1, answer);
    AckArrives(x1, ToSeg(y1, answer[i]), envX, x2, more);
  }

  lemma SentOk(x: End, y: End, fromX: set<Seg>, g: Seg)
    requires Safe(x, y, fromX) && g in fromX
    ensures SegOk(x, g)
  {}
}
