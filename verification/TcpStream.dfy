/** Two endpoints and a network that loses, duplicates, delays and reorders segments.  In every
    run the bytes one side has read are a prefix of the bytes the other side's tcp_send accepted,
    and no byte has been acknowledged that did not arrive. */
module TcpStream {
  import opened Collections
  import opened TcpSeq
  import opened TcpSendSpec
  import opened TcpSendFacts
  import opened TcpReceiver
  import opened TcpEndpoint

  /** Both ends, and every segment each has ever sent: the network may deliver any of them, any
      number of times, in any order, or never. */
  datatype World = World(a: End, b: End, fromA: set<Seg>, fromB: set<Seg>)

  function Segs(e: End, out: seq<Item>): set<Seg> {
    set i | 0 <= i < |out| :: ToSeg(e, out[i])
  }

  /** No older, counted in sequence numbers, than half the number space. */
  predicate Recent(e: End, g: Seg) {
    && (Synced(e.snd.state) || e.snd.state == SynRcvd ==> -TWO31 <= g.pos - Nxt(e.rcv) < TWO31)
    && (g.isAck ==> -TWO31 < g.ack - e.snd.nxt <= TWO31)
  }

  /** y takes g for h.  Before y knows the peer's numbering it can place nothing but a SYN, and where no ack is meant
      the field may say anything. */
  predicate ReadAs(y: End, g: Seg, h: Seg) {
    && h == g.(pos := h.pos, ack := h.ack)
    && (y.snd.state != Closed && (Knows(y) || g.syn) ==> h.pos == g.pos)
    && (g.isAck ==> h.ack == g.ack)
  }

  /** h is how y reads something its peer has sent. */
  ghost predicate Arrives(from: set<Seg>, y: End, h: Seg) {
    exists g :: g in from && Recent(y, g) && ReadAs(y, g, h)
  }

  /** One thing y can do next, when `from` holds what its peer has sent. */
  ghost predicate Moves(from: set<Seg>, y: End, y': End, out: seq<Item>) {
    || (exists h, env: Env :: Arrives(from, y, h) && env.rtoBase >= 1 && env.mss >= 1 && Input(y, h, env, y', out))
    || (exists c, env :: Called(y, c, env, y', out))
  }

  ghost predicate Step(w: World, w': World) {
    exists e, out ::
      || (Moves(w.fromA, w.b, e, out) && w' == w.(b := e, fromB := w.fromB + Segs(e, out)))
      || (Moves(w.fromB, w.a, e, out) && w' == w.(a := e, fromA := w.fromA + Segs(e, out)))
  }

  /** A has just called tcp_connect; B listens. */
  ghost predicate Init(w: World) {
    && (exists now :: w.a.snd == Connecting(now))
    && (exists now :: w.b.snd == Connecting(now).(state := Listen))
    && w.a.rcv == w.b.rcv == FRESH && w.a.got == w.b.got == []
    && w.fromA == Segs(w.a, [Syn(-1)]) && w.fromB == {}
  }

  // ---------------------------------------------------------------- one direction

  /** e knows the peer's numbering. */
  predicate Knows(e: End) {
    e.snd.state !in {Listen, SynSent}
  }

  /** `data` is what the stream has at `pos`, and has been sent. */
  ghost predicate Excerpt(s: Snd, pos: int, data: seq<byte>) {
    && 0 <= pos && pos + |data| <= |s.stream| && pos + |data| <= s.high
    && data == s.stream[pos..pos + |data|]
  }

  /** What a segment in flight says is true of its sender. */
  ghost predicate SegOk(e: End, g: Seg) {
    && (g.data != [] ==> Excerpt(e.snd, g.pos, g.data))
    && (g.fin ==> e.snd.finSent && g.pos + |g.data| == |e.snd.stream|)
    && (g.syn ==> g.pos == -1 && g.data == [] && !g.fin)
    && (g.isAck ==> Knows(e) && g.ack <= Nxt(e.rcv))
  }

  /** y holds bytes of x's stream, each where it belongs, and x's FIN where the stream ends. */
  ghost predicate Agrees(x: Snd, y: End) {
    && RcvOk(y.rcv)
    && Bytes(x, y.rcv.known)
    && y.rcv.data <= x.high
    && y.rcv.read <= |x.stream| && y.got == x.stream[..y.rcv.read]
    && (y.rcv.fin.Some? ==> x.finSent && y.rcv.fin.value == |x.stream| <= y.rcv.read + RX_BUF)
    && (y.rcv.peerFin ==> x.finSent && y.rcv.data == |x.stream|)
  }

  /** Everything x has given up for acknowledged is at y. */
  ghost predicate Safe(x: End, y: End, fromX: set<Seg>) {
    && SndInv(x.snd)
    && (forall g | g in fromX :: SegOk(x, g))
    && Agrees(x.snd, y)
    && x.snd.una <= Nxt(y.rcv)
  }

  /** The state says whether the peer's FIN has come: with `OwnFin` this is the table of section
      3.3.2 of RFC 9293. */
  predicate PeerFinState(e: End) {
    && (e.snd.state in {Established, FinWait1, FinWait2} ==> !e.rcv.peerFin)
    && (e.snd.state in {CloseWait, Closing, TimeWait, LastAck} ==> e.rcv.peerFin)
  }

  // ---------------------------------------------------------------- the sender moves

  /** Only a connection past its SYN sends anything that acks. */
  ghost predicate Speaks(e: End, out: seq<Item>) {
    !Knows(e) ==> forall i | 0 <= i < |out| :: out[i].Syn? || (out[i].Rst? && !out[i].acks)
  }

  lemma ItemsToSegs(e: End, out: seq<Item>)
    requires SndInv(e.snd) && ItemsOk(e.snd, out) && Speaks(e, out)
    ensures forall g | g in Segs(e, out) :: SegOk(e, g)
  {}

  lemma OldSegs(e: End, e': End, gs: set<Seg>)
    requires forall g | g in gs :: SegOk(e, g)
    requires Later(e.snd, e'.snd) && Nxt(e.rcv) <= Nxt(e'.rcv) && (Knows(e) ==> Knows(e'))
    ensures forall g | g in gs :: SegOk(e', g)
  {}

  lemma LaterAgrees(x: Snd, x': Snd, y: End)
    requires Agrees(x, y) && Later(x, x')
    ensures Agrees(x', y)
  {}

  lemma SenderMoves(x: End, x': End, y: End, fromX: set<Seg>, out: seq<Item>)
    requires Safe(x, y, fromX)
    requires SndInv(x'.snd) && Later(x.snd, x'.snd) && ItemsOk(x'.snd, out) && Speaks(x', out)
    requires Nxt(x.rcv) <= Nxt(x'.rcv) && (Knows(x) ==> Knows(x'))
    requires x'.snd.una <= Nxt(y.rcv)
    ensures Safe(x', y, fromX + Segs(x', out))
  {
    hide SndInv, ItemsOk, Segs, SegOk, Later, Agrees;
    ItemsToSegs(x', out);
    OldSegs(x, x', fromX);
    LaterAgrees(x.snd, x'.snd, y);
  }

  // ---------------------------------------------------------------- the receiver moves

  /** Every byte of `known` is x's byte at that position. */
  ghost predicate Bytes(x: Snd, known: map<int, byte>) {
    forall p | p in known :: 0 <= p < |x.stream| && p < x.high && known[p] == x.stream[p]
  }

  lemma StoredBytes(x: Snd, known: map<int, byte>, at: int, body: seq<byte>, take: nat)
    requires Bytes(x, known) && take <= |body| && (body == [] || Excerpt(x, at, body))
    ensures Bytes(x, known + Stored(at, body[..take]))
    ensures forall p | p in Stored(at, body[..take]) :: at <= p < at + take
  {
    StoredIs(at, body[..take]);
  }

  lemma AbsorbAtAgrees(x: Snd, y: End, y': End, at: int, body: seq<byte>, fin: bool, dropped: bool)
    requires SndInv(x) && Agrees(x, y) && !y.rcv.peerFin && y.rcv.data <= at
    requires body == [] || Excerpt(x, at, body)
    requires fin ==> x.finSent && at + |body| == |x.stream|
    requires AbsorbAt(y.rcv, at, body, fin, dropped, y'.rcv) && y'.got == y.got
    ensures Agrees(x, y') && y.rcv.data <= y'.rcv.data
  {
    hide Excerpt, Stored;
    var r := y.rcv;
    var off := at - r.data;
    if !(0 < off && Room(r) <= off) {
      var take := if |body| < Room(r) - off then |body| else Room(r) - off;
      StoredBytes(x, r.known, at, body, take);
      assert Bytes(x, y'.rcv.known);
      if y'.rcv.data > r.data {
        KnownBelow(x, y'.rcv.known, y'.rcv.data - 1);
      }
    }
    AbsorbOk(r, at, body, fin, dropped, y'.rcv);
    hide Bytes, RcvOk;
  }

  lemma AbsorbOk(r: Rcv, at: int, body: seq<byte>, fin: bool, dropped: bool, r': Rcv)
    requires RcvOk(r) && r.data <= at && AbsorbAt(r, at, body, fin, dropped, r')
    ensures RcvOk(r') && r.data <= r'.data
  {
    var off := at - r.data;
    if !(0 < off && Room(r) <= off) {
      var take := if |body| < Room(r) - off then |body| else Room(r) - off;
      StoredIs(at, body[..take]);
      assert r'.data > r.data ==> r'.data - 1 in r'.known;
      hide Stored;
    }
  }

  lemma KnownBelow(x: Snd, known: map<int, byte>, p: int)
    requires Bytes(x, known) && p in known
    ensures 0 <= p < |x.stream| && p < x.high
  {}

  /** Bytes of x's stream stay bytes of x's stream, wherever the segment lands. */
  lemma AbsorbAgrees(x: End, y: End, y': End, g: Seg, dropped: bool)
    requires SndInv(x.snd) && SegOk(x, g) && Agrees(x.snd, y) && !y.rcv.peerFin
    requires Absorb(y.rcv, g.pos, g.data, g.fin, dropped, y'.rcv) && y'.got == y.got
    ensures Agrees(x.snd, y') && Nxt(y.rcv) <= Nxt(y'.rcv)
  {
    hide SndInv, Agrees, AbsorbAt;
    var skip := if g.pos < y.rcv.data then y.rcv.data - g.pos else 0;
    if skip > |g.data| {
      SameRcv(x.snd, y, y');
    } else {
      AbsorbAtAgrees(x.snd, y, y', g.pos + skip, g.data[skip..], g.fin, dropped);
    }
  }

  lemma SameRcv(x: Snd, y: End, y': End)
    requires Agrees(x, y) && y'.rcv == y.rcv && y'.got == y.got
    ensures Agrees(x, y')
  {}

  // ---------------------------------------------------------------- one endpoint's step

  /** A child between its SYN and the peer's ack: it has seen nothing but the SYN. */
  predicate HalfOpen(e: End) {
    e.snd.state == SynRcvd ==> e.snd.mss >= 1 && e.snd.cwnd >= 1 && e.snd.ssthresh >= 1 && !e.rcv.peerFin
  }

  /** What a step of one end keeps, whatever the other end is doing. */
  ghost predicate EndInv(e: End) {
    && SndInv(e.snd) && PeerFinState(e) && HalfOpen(e)
    && (!Knows(e) ==> e.rcv == FRESH && e.got == [])
    && (e.snd.state == Listen ==>
          e.snd.una == -1 && e.snd.high == 0 && e.snd.stream == [] && !e.snd.finWanted && !e.snd.finSent)
  }

  ghost predicate Keeps(e: End, e': End, out: seq<Item>) {
    && EndInv(e') && Later(e.snd, e'.snd) && ItemsOk(e'.snd, out) && Speaks(e', out)
    && (Knows(e) ==> Knows(e'))
  }

  lemma CloseKeeps(e: End, out: seq<Item>)
    requires EndInv(e) && (out == [] || (|out| == 1 && out[0].Rst? && (out[0].acks ==> Knows(e))))
    ensures Keeps(e, e.(snd := SetClosed(e.snd)), out)
  {}

  lemma PushItems(e: End, now: nat, items: seq<Item>)
    requires EndInv(e) && ItemsOk(e.snd, items) && Speaks(e, items)
    ensures var (s, out) := Push(e.snd, now, items); Keeps(e, e.(snd := s), out) && s.una == e.snd.una
  {
    PushKeeps(e.snd, now, items);
    PushRing(e.snd, now, items);
    PushStates(e.snd, now, items);
    hide SndInv, ItemsOk, Push;
  }

  /** tcp_push closes our side or leaves the state alone, and says nothing during the handshake. */
  lemma PushStates(s: Snd, now: nat, items: seq<Item>)
    requires SndInv(s) && ItemsOk(s, items)
    ensures var (s', out) := Push(s, now, items);
      && (s'.state == s.state || (s.state == Established && s'.state == FinWait1)
        || (s.state == CloseWait && s'.state == LastAck))
      && (!Synced(s.state) ==> out == items)
  {
    PushRecoveryKeeps(s, items);
    var (s1, items1) := PushRecovery(s, items);
    if s1.state in {Established, CloseWait} {
      PushDataKeeps(s1, Min(s1.wnd, s1.cwnd), now, items1);
    }
    hide SndInv, ItemsOk, PushData;
  }

  lemma DataKeeps(e: End, g: Seg, dropped: bool, e': End)
    requires EndInv(e) && CanTake(e.snd.state) && TakeData(e, g.pos, g.data, g.fin, dropped, e')
    ensures Keeps(e, e', [])
  {
    hide Absorb;
  }

  /** The middle of tcp_input keeps both halves consistent. */
  lemma MiddleKeeps(e: End, g: Seg, env: Env, mid: End)
    requires EndInv(e) && Synced(e.snd.state) && env.rtoBase >= 1 && TakeAckAndData(e, g, env, mid)
    ensures Keeps(e, mid, []) && Knows(mid)
    ensures mid.snd.una == e.snd.una || (g.isAck && mid.snd.una == g.ack)
  {
    var window, bare := Shl(g.window, e.sndShift), g.data == [] && !g.fin;
    var e1 := if g.isAck
      then e.(snd := GotAck(e.snd, Wire(e.peer, g.pos), g.ack, window, bare, env.rtoBase, env.now))
      else e;
    if g.isAck {
      AckEndKeeps(e, g, env.rtoBase, env.now);
    } else {
      KeepsSelf(e);
    }
    hide EndInv, Keeps, GotAck, TakeData, Wire, Shl;
    if (g.data != [] || g.fin) && CanTake(e1.snd.state) {
      KeepsInv(e, e1);
      DataKeeps(e1, g, env.dropped, mid);
      DataUna(e1, g, env.dropped, mid);
      KeepsTrans(e, e1, mid, [], []);
      KeepsKnows(e1, mid);
    }
  }

  lemma AckEndKeeps(e: End, g: Seg, rtoBase: nat, now: nat)
    requires EndInv(e) && Synced(e.snd.state) && rtoBase >= 1
    ensures var window, bare := Shl(g.window, e.sndShift), g.data == [] && !g.fin;
      var s := GotAck(e.snd, Wire(e.peer, g.pos), g.ack, window, bare, rtoBase, now);
      Keeps(e, e.(snd := s), []) && Knows(e.(snd := s)) && (s.una == e.snd.una || s.una == g.ack)
  {
    var window, bare := Shl(g.window, e.sndShift), g.data == [] && !g.fin;
    AckKeeps(e.snd, Wire(e.peer, g.pos), g.ack, window, bare, rtoBase, now);
    AckMoves(e.snd, Wire(e.peer, g.pos), g.ack, window, bare, rtoBase, now);
    AckStates(e.snd, Wire(e.peer, g.pos), g.ack, window, bare, rtoBase, now);
    hide SndInv, GotAck, Wire, Shl;
  }

  lemma KeepsSelf(e: End)
    requires EndInv(e) && Synced(e.snd.state)
    ensures Keeps(e, e, []) && Knows(e)
  {
    LaterSelf(e.snd);
    hide SndInv;
  }

  lemma KeepsInv(e: End, e': End)
    requires Keeps(e, e', [])
    ensures EndInv(e')
  {}

  lemma KeepsKnows(e: End, e': End)
    requires Keeps(e, e', []) && Knows(e)
    ensures Knows(e')
  {}

  lemma DataUna(e: End, g: Seg, dropped: bool, e': End)
    requires TakeData(e, g.pos, g.data, g.fin, dropped, e')
    ensures e'.snd.una == e.snd.una
  {}

  /** An ack moves the state only along our own FIN's edges. */
  lemma AckStates(s: Snd, seg: u32, ack: int, window: nat, bare: bool, rtoBase: nat, now: nat)
    ensures var s' := GotAck(s, seg, ack, window, bare, rtoBase, now);
      || s'.state == s.state
      || (s.state == FinWait1 && s'.state == FinWait2)
      || (s.state == Closing && s'.state == TimeWait)
      || (s.state == LastAck && s'.state == Closed)
  {
    hide SeqLeq, CcAcked, Unprobe;
    if s.una < ack {
      CcState(Advance(s, ack, rtoBase, now), ack - s.una, ack);
    }
    UnprobeState(NewOrDuplicate(s, ack, window, bare, rtoBase, now), ack, window);
  }

  lemma CcState(s: Snd, acked: nat, a: int)
    ensures CcAcked(s, acked, a).state == s.state
  {
    hide Additive;
  }

  lemma UnprobeState(s: Snd, a: int, window: nat)
    ensures Unprobe(s, a, window).state == s.state
  {}

  lemma SyncedKeeps(e: End, g: Seg, env: Env, e': End, out: seq<Item>)
    requires EndInv(e) && Synced(e.snd.state) && env.rtoBase >= 1 && SyncedInput(e, g, env, e', out)
    ensures Keeps(e, e', out)
    ensures e'.snd.una == e.snd.una || (g.isAck && e'.snd.una == g.ack)
  {
    hide TakeAckAndData, SndInv;
    LaterSelf(e.snd);
    if g.isAck && e.snd.nxt < g.ack {
    } else if Unwanted(e, g) {
      CloseKeeps(e, out);
    } else {
      var answer := g.data != [] || g.fin || g.syn;
      var mid :| TakeAckAndData(e, g, env, mid) && Answers(mid, answer, env.now, e', out);
      MiddleKeeps(e, g, env, mid);
      if mid.snd.state != Closed {
        PushItems(mid, env.now, []);
      }
    }
  }

  lemma ConnectedKeeps(e: End)
    requires EndInv(e) && e.snd.state == SynRcvd
    ensures Keeps(e, e.(snd := Connected(e.snd)), [])
  {}

  lemma SynSentKeeps(e: End, g: Seg, env: Env, e': End, out: seq<Item>)
    requires EndInv(e) && e.snd.state == SynSent && env.mss >= 1 && SynSentInput(e, g, env, e', out)
    ensures Keeps(e, e', out)
    ensures e'.snd.una == e.snd.una || (g.isAck && e'.snd.una == g.ack)
  {
    hide Wire;
  }

  lemma SynRcvdKeeps(e: End, g: Seg, env: Env, e': End, out: seq<Item>)
    requires EndInv(e) && e.snd.state == SynRcvd && env.rtoBase >= 1 && SynRcvdInput(e, g, env, e', out)
    ensures Keeps(e, e', out)
    ensures e'.snd.una == e.snd.una || (g.isAck && e'.snd.una == g.ack)
  {
    LaterSelf(e.snd);
    if !g.rst && !(g.syn && g.pos + 1 == Nxt(e.rcv)) && g.isAck && g.ack == e.snd.nxt && env.rings {
      var e1 := e.(snd := Connected(e.snd), rcvShift := env.rcvShift);
      ConnectedKeeps(e.(rcvShift := env.rcvShift));
      SyncedKeeps(e1, g, env, e', out);
      SyncedStates(e1, g, env, e', out);
    } else if g.rst || (g.isAck && g.ack == e.snd.nxt && !(g.syn && g.pos + 1 == Nxt(e.rcv))) {
      CloseKeeps(e, out);
    }
    hide SndInv, SyncedInput, SetClosed;
  }

  lemma SyncedStates(e: End, g: Seg, env: Env, e': End, out: seq<Item>)
    requires EndInv(e) && Synced(e.snd.state) && env.rtoBase >= 1 && SyncedInput(e, g, env, e', out)
    ensures Synced(e'.snd.state) || e'.snd.state == Closed
  {
    SyncedKeeps(e, g, env, e', out);
    hide SndInv, SyncedInput;
  }

  /** tcp_input, in any state. */
  lemma InputKeeps(e: End, g: Seg, env: Env, e': End, out: seq<Item>)
    requires EndInv(e) && env.rtoBase >= 1 && env.mss >= 1 && Input(e, g, env, e', out)
    ensures Keeps(e, e', out)
    ensures e'.snd.una == e.snd.una || (g.isAck && e'.snd.una == g.ack)
  {
    hide SndInv, SyncedInput, SynRcvdInput, SynSentInput;
    LaterSelf(e.snd);
    match e.snd.state
    case Closed =>
    case Listen => ListenKeeps(e, g, env, e', out);
    case SynSent => SynSentKeeps(e, g, env, e', out);
    case SynRcvd => SynRcvdKeeps(e, g, env, e', out);
    case _ =>
      if g.rst {
        CloseKeeps(e, out);
      } else {
        SyncedKeeps(e, g, env, e', out);
        SyncedStates(e, g, env, e', out);
      }
  }

  lemma ListenKeeps(e: End, g: Seg, env: Env, e': End, out: seq<Item>)
    requires EndInv(e) && e.snd.state == Listen && env.mss >= 1 && ListenInput(e, g, env, e', out)
    ensures Keeps(e, e', out) && e'.snd.una == e.snd.una
  {
    hide Wire;
  }

  lemma CalledKeeps(e: End, c: Call, env: Env, e': End, out: seq<Item>)
    requires EndInv(e) && Called(e, c, env, e', out)
    ensures Keeps(e, e', out) && e'.snd.una == e.snd.una
    ensures e.snd.state == Listen ==> e'.snd == e.snd || e'.snd.state == Closed
  {
    SelfKeeps(e);
    hide EndInv, SndInv, ItemsOk, Push;
    match c
    case Send(data) =>
      if e.snd.state in {Established, CloseWait} && !e.snd.finWanted {
        PushAfter(e, e.(snd := Accept(e.snd, data)), env.now, e', out) by {
          WriteKeeps(e, data);
        }
      }
    case Recv(len) => RecvKeeps(e, len, e', out);
    case Shutdown =>
      if Synced(e.snd.state) && !e.snd.finWanted {
        FinWantedKeeps(e, e.detached);
        PushAfter(e, e.(snd := e.snd.(finWanted := true)), env.now, e', out);
      }
    case Detach =>
      FinWantedKeeps(e, true);
      if Synced(e.snd.state) && e.snd.state != TimeWait {
        PushAfter(e, e.(detached := true, snd := e.snd.(finWanted := true)), env.now, e', out);
      }
    case Tick =>
      if e.snd.state !in {Closed, Listen} {
        TickKeeps(e, env, e', out);
      }
    case Probe => ProbeKeeps(e, out);
    case Drop => CloseKeeps(e, out);
  }

  lemma ProbeKeeps(e: End, out: seq<Item>)
    requires EndInv(e) && (out == [] || (out == [Ack(e.snd.nxt - 1)] && Synced(e.snd.state)))
    ensures Keeps(e, e, out)
  {}

  lemma SelfKeeps(e: End)
    requires EndInv(e)
    ensures Keeps(e, e, [])
  {}

  lemma WriteKeeps(e: End, data: seq<byte>)
    requires EndInv(e) && e.snd.state in {Established, CloseWait} && !e.snd.finWanted
    ensures Keeps(e, e.(snd := Accept(e.snd, data)), [])
  {
    AcceptKeeps(e.snd, data);
    hide SndInv;
  }

  lemma RecvKeeps(e: End, len: nat, e': End, out: seq<Item>)
    requires EndInv(e) && Reads(e, len, e', out)
    ensures Keeps(e, e', out)
  {
    LaterSelf(e.snd);
    hide SndInv;
    if !Knows(e) {
      assert AfterRead(FRESH, 0) == FRESH;
    }
  }

  lemma PushAfter(e: End, mid: End, now: nat, e': End, out: seq<Item>)
    requires Keeps(e, mid, []) && (e', out) == PushEnd(mid, now, []) && e.snd.una == mid.snd.una
    ensures Keeps(e, e', out) && e'.snd.una == e.snd.una
  {
    hide EndInv, Push;
    PushItems(mid, now, []);
    KeepsTrans(e, mid, e', [], out);
  }

  lemma FinWantedKeeps(e: End, detached: bool)
    requires EndInv(e)
    ensures Keeps(e, e.(detached := detached), [])
    ensures Synced(e.snd.state) ==> Keeps(e, e.(detached := detached, snd := e.snd.(finWanted := true)), [])
  {}

  lemma TickKeeps(e: End, env: Env, e': End, out: seq<Item>)
    requires EndInv(e) && e.snd.state !in {Closed, Listen} && Called(e, Tick, env, e', out)
    ensures Keeps(e, e', out) && e'.snd.una == e.snd.una
  {
    hide EndInv, Timeout, Push;
    var (s, items) := if 0 < e.snd.rtoAt <= env.now then Timeout(e.snd, env.now, []) else (e.snd, []);
    var mid := e.(snd := s);
    DueKeeps(e, env.now);
    PushItems(mid, env.now, items);
    KeepsTrans(e, mid, e', items, out);
  }

  lemma DueKeeps(e: End, now: nat)
    requires EndInv(e) && e.snd.state !in {Closed, Listen}
    ensures var (s, items) := Timeout(e.snd, now, []); Keeps(e, e.(snd := s), items) && s.una == e.snd.una
    ensures Keeps(e, e, [])
  {
    LaterSelf(e.snd);
    TimeoutKeeps(e.snd, now, []);
    TimeoutRing(e.snd, now, []);
    TimeoutStates(e.snd, now);
    hide SndInv, Timeout, ItemsOk;
    NoItems(e.snd);
  }

  lemma KeepsTrans(e: End, mid: End, e': End, items: seq<Item>, out: seq<Item>)
    requires Keeps(e, mid, items) && Keeps(mid, e', out)
    ensures Keeps(e, e', out)
  {
    hide EndInv, ItemsOk, Speaks;
  }

  lemma NoItems(s: Snd)
    ensures ItemsOk(s, [])
  {}

  /** A timeout gives up or leaves the state alone. */
  lemma TimeoutStates(s: Snd, now: nat)
    requires SndInv(s) && s.state !in {Closed, Listen}
    ensures var (s', out) := Timeout(s, now, []);
      && (s'.state == s.state || s'.state == Closed)
      && s'.mss == s.mss
      && (s.state == SynSent ==> forall i | 0 <= i < |out| :: out[i].Syn? || (out[i].Rst? && !out[i].acks))
      && (s.state == s'.state == SynRcvd ==> s'.cwnd == s.cwnd && s'.ssthresh == s.ssthresh)
  {}

  // ---------------------------------------------------------------- both ends

  ghost predicate WorldInv(w: World) {
    && EndInv(w.a) && EndInv(w.b)
    && Safe(w.a, w.b, w.fromA) && Safe(w.b, w.a, w.fromB)
  }

  /** What tcp_input does to the bytes held: nothing, or one segment absorbed, or a fresh start. */
  lemma InputRcv(e: End, g: Seg, env: Env, e': End, out: seq<Item>)
    requires EndInv(e) && Input(e, g, env, e', out)
    ensures e'.got == e.got
    ensures e'.rcv == e.rcv || (!Knows(e) && e'.rcv == FRESH)
         || (Knows(e) && e.snd.state != Closed && !e.rcv.peerFin
           && Absorb(e.rcv, g.pos, g.data, g.fin, env.dropped, e'.rcv))
  {
    hide SndInv, Absorb, GotAck, Push, Wire, Shl, SyncedInput;
    match e.snd.state
    case SynRcvd =>
      if e'.rcv != e.rcv || e'.got != e.got {
        SyncedRcv(e.(snd := Connected(e.snd), rcvShift := env.rcvShift), g, env, e', out);
      }
    case Closed | Listen | SynSent =>
    case _ =>
      if !g.rst {
        SyncedRcv(e, g, env, e', out);
      }
  }

  lemma SyncedRcv(e: End, g: Seg, env: Env, e': End, out: seq<Item>)
    requires PeerFinState(e) && Synced(e.snd.state) && SyncedInput(e, g, env, e', out)
    ensures e'.got == e.got
    ensures e'.rcv == e.rcv || (!e.rcv.peerFin && Absorb(e.rcv, g.pos, g.data, g.fin, env.dropped, e'.rcv))
  {
    var window, bare := Shl(g.window, e.sndShift), g.data == [] && !g.fin;
    AckStates(e.snd, Wire(e.peer, g.pos), g.ack, window, bare, env.rtoBase, env.now);
    hide Absorb, GotAck, Push, Wire, Shl;
  }

  /** A segment that is placed is read as its sender meant it. */
  lemma ArrivesOk(x: End, y: End, fromX: set<Seg>, h: Seg)
    requires Safe(x, y, fromX) && Arrives(fromX, y, h)
    ensures Knows(y) && y.snd.state != Closed ==> SegOk(x, h)
    ensures h.isAck ==> h.ack <= Nxt(x.rcv)
  {
    hide SndInv, Agrees, Excerpt;
  }

  lemma InputAgrees(x: End, y: End, fromX: set<Seg>, g: Seg, env: Env, y': End, out: seq<Item>)
    requires Safe(x, y, fromX) && EndInv(y) && Input(y, g, env, y', out)
    requires Knows(y) && y.snd.state != Closed ==> SegOk(x, g)
    ensures Safe(x, y', fromX) && Nxt(y.rcv) <= Nxt(y'.rcv)
  {
    InputRcv(y, g, env, y', out);
    hide SndInv, Input, SegOk, Agrees, Absorb;
    if y'.rcv == y.rcv {
      SameRcv(x.snd, y, y');
    } else if !Knows(y) && y'.rcv == FRESH {
      SameRcv(x.snd, y, y');
    } else {
      AbsorbAgrees(x, y, y', g, env.dropped);
    }
  }

  /** tcp_input at y of a segment from x. */
  lemma InputSafe(x: End, y: End, fromX: set<Seg>, fromY: set<Seg>, g: Seg, env: Env, y': End, out: seq<Item>)
    requires Safe(x, y, fromX) && Safe(y, x, fromY) && Arrives(fromX, y, g)
    requires EndInv(y) && env.rtoBase >= 1 && env.mss >= 1 && Input(y, g, env, y', out)
    ensures Safe(x, y', fromX) && Safe(y', x, fromY + Segs(y', out)) && EndInv(y')
  {
    InputKeeps(y, g, env, y', out);
    ArrivesOk(x, y, fromX, g);
    InputAgrees(x, y, fromX, g, env, y', out);
    hide SndInv, Input, Agrees, SegOk, Segs, ItemsOk;
    SenderMoves(y, y', x, fromY, out);
  }

  /** tcp_recv hands out the next bytes of the peer's stream. */
  lemma ReadsAgrees(x: Snd, y: End, len: nat, y': End, out: seq<Item>)
    requires Agrees(x, y) && Reads(y, len, y', out)
    ensures Agrees(x, y') && Nxt(y'.rcv) == Nxt(y.rcv)
  {
    var n := Min(len, y.rcv.data - y.rcv.read);
    ReadOk(x, y.rcv, n);
    hide Bytes, RcvOk;
    GotMore(x, y.rcv.known, y.got, n, y'.got);
  }

  lemma ReadOk(x: Snd, r: Rcv, n: nat)
    requires RcvOk(r) && Bytes(x, r.known) && n <= r.data - r.read
    ensures RcvOk(AfterRead(r, n)) && Bytes(x, AfterRead(r, n).known)
  {}

  lemma GotMore(x: Snd, known: map<int, byte>, got: seq<byte>, n: nat, got': seq<byte>)
    requires Bytes(x, known) && |got| <= |x.stream| && got == x.stream[..|got|] && got <= got' && |got'| == |got| + n
    requires forall p | |got| <= p < |got| + n :: p in known && got'[p] == known[p]
    ensures |got'| <= |x.stream| && got' == x.stream[..|got'|]
  {
    if n > 0 {
      KnownBelow(x, known, |got| + n - 1);
    }
    forall i | 0 <= i < |got'| ensures got'[i] == x.stream[i] {
      if i < |got| {
        assert got'[i] == got[i];
      } else {
        assert i in known;
      }
    }
  }

  /** A call at y. */
  lemma CalledSafe(x: End, y: End, fromX: set<Seg>, fromY: set<Seg>, c: Call, env: Env, y': End, out: seq<Item>)
    requires Safe(x, y, fromX) && Safe(y, x, fromY)
    requires EndInv(y) && Called(y, c, env, y', out)
    ensures Safe(x, y', fromX) && Safe(y', x, fromY + Segs(y', out)) && EndInv(y')
  {
    CalledKeeps(y, c, env, y', out);
    if c.Recv? {
      ReadsAgrees(x.snd, y, c.len, y', out);
    } else {
      CalledRcv(y, c, env, y', out);
      SameRcv(x.snd, y, y');
    }
    hide SndInv, Called, Agrees, SegOk, Segs, ItemsOk;
    SenderMoves(y, y', x, fromY, out);
  }

  lemma CalledRcv(e: End, c: Call, env: Env, e': End, out: seq<Item>)
    requires Called(e, c, env, e', out) && !c.Recv?
    ensures e'.rcv == e.rcv && e'.got == e.got
  {
    hide Push, Timeout;
  }

  lemma InitSafe(w: World)
    requires Init(w)
    ensures WorldInv(w)
  {}

  lemma MoveSafe(x: End, y: End, fromX: set<Seg>, fromY: set<Seg>, y': End, out: seq<Item>)
    requires Safe(x, y, fromX) && Safe(y, x, fromY) && EndInv(y) && Moves(fromX, y, y', out)
    ensures Safe(x, y', fromX) && Safe(y', x, fromY + Segs(y', out)) && EndInv(y')
  {
    hide Safe, EndInv, Input, Called, Segs, Arrives;
    if g, env: Env :| Arrives(fromX, y, g) && env.rtoBase >= 1 && env.mss >= 1 && Input(y, g, env, y', out) {
      InputSafe(x, y, fromX, fromY, g, env, y', out);
    } else {
      var c, env :| Called(y, c, env, y', out);
      CalledSafe(x, y, fromX, fromY, c, env, y', out);
    }
  }

  lemma StepSafe(w: World, w': World)
    requires WorldInv(w) && Step(w, w')
    ensures WorldInv(w')
  {
    hide Safe, EndInv, Moves, Segs;
    var e, out :|
      || (Moves(w.fromA, w.b, e, out) && w' == w.(b := e, fromB := w.fromB + Segs(e, out)))
      || (Moves(w.fromB, w.a, e, out) && w' == w.(a := e, fromA := w.fromA + Segs(e, out)));
    if Moves(w.fromA, w.b, e, out) && w' == w.(b := e, fromB := w.fromB + Segs(e, out)) {
      MoveSafe(w.a, w.b, w.fromA, w.fromB, e, out);
    } else {
      MoveSafe(w.b, w.a, w.fromB, w.fromA, e, out);
    }
  }

  ghost predicate Run(run: seq<World>) {
    |run| > 0 && Init(run[0]) && forall i | 0 < i < |run| :: Step(run[i - 1], run[i])
  }

  lemma {:induction false} RunSafe(run: seq<World>, n: nat)
    requires Run(run) && n < |run|
    ensures WorldInv(run[n])
  {
    if n == 0 {
      InitSafe(run[0]);
    } else {
      RunSafe(run, n - 1);
      StepSafe(run[n - 1], run[n]);
    }
  }

  /** In every state of every run, in both directions: what has been read is a prefix of what was
      accepted, what has been acknowledged has arrived, and end of file means all of it. */
  lemma StreamSafety(run: seq<World>, n: nat)
    requires Run(run) && n < |run|
    ensures var w := run[n];
      && w.b.got <= w.a.snd.stream && w.a.got <= w.b.snd.stream
      && w.a.snd.una <= Nxt(w.b.rcv) && w.b.snd.una <= Nxt(w.a.rcv)
      && (w.b.rcv.peerFin && w.b.rcv.read == w.b.rcv.data ==> w.b.got == w.a.snd.stream)
      && (w.a.rcv.peerFin && w.a.rcv.read == w.a.rcv.data ==> w.a.got == w.b.snd.stream)
  {
    RunSafe(run, n);
    hide SndInv;
  }
}
