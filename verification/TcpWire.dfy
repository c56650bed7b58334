/** Two kernels that exchange nothing but segments with 32-bit numbers.  Their runs are runs of the endpoints on stream
    positions, so that what TcpStream proves of those holds on the wire. */
module TcpWire {
  import opened TcpSeq
  import opened TcpSendSpec
  import opened TcpSendFacts
  import opened TcpReceiver
  import opened TcpEndpoint
  import opened TcpStream
  import opened TcpConnection

  /** One kernel's end, and the number of its first byte (of a listener: the number its child will draw). */
  datatype Host = Host(end: End, base: u32)

  /** A segment in the network: what crosses it, and what its sender meant. */
  datatype Flight = Flight(seg: Seg, wire: Segment)

  datatype Net = Net(a: Host, b: Host, fromA: set<Flight>, fromB: set<Flight>)

  function Meant(from: set<Flight>): set<Seg> { set f | f in from :: f.seg }

  function Abs(w: Net): World { World(w.a.end, w.b.end, Meant(w.fromA), Meant(w.fromB)) }

  ghost function Flights(e: End, items: seq<Item>, out: seq<Segment>): set<Flight>
    requires |items| == |out|
  {
    set i | 0 <= i < |out| :: Flight(ToSeg(e, items[i]), out[i])
  }

  /** One thing host y can do next.  What it does on an arrival is decided by the wire segment alone; of the network it
      is only asked that it keeps no segment until half the number space has gone by. */
  ghost predicate Acts(from: set<Flight>, y: Host, e': End, items: seq<Item>, out: seq<Segment>) {
    || (exists f, env: Env :: f in from && Recent(y.end, f.seg) && env.rtoBase >= 1 && env.mss >= 1
          && Handles(y.end, y.base, f.wire, env, e', items, out))
    || (exists c, env :: Performs(y.end, y.base, c, env, e', items, out))
  }

  ghost predicate WireStep(w: Net, w': Net) {
    exists e, items: seq<Item>, out: seq<Segment> :: |items| == |out| && (
      || (Acts(w.fromA, w.b, e, items, out)
          && w' == w.(b := w.b.(end := e), fromB := w.fromB + Flights(e, items, out)))
      || (Acts(w.fromB, w.a, e, items, out)
          && w' == w.(a := w.a.(end := e), fromA := w.fromA + Flights(e, items, out))))
  }

  /** tcp_connect has been called at A and its SYN is out; B listens. */
  ghost predicate WireInit(w: Net) {
    && Init(Abs(w)) && w.fromB == {}
    && w.fromA == {Flight(ToSeg(w.a.end, Syn(-1)), OnWire(ToSeg(w.a.end, Syn(-1)), w.a.base, w.a.end.peer))}
  }

  // ---------------------------------------------------------------- what the numbers mean

  /** The wire says what was meant, in x's numbers and, for an ack, in y's. */
  predicate Says(f: Flight, x: u32, y: u32) {
    && f.wire == OnWire(f.seg, x, y).(ack := f.wire.ack)
    && (f.seg.isAck ==> f.wire.ack == Wire(y, f.seg.ack))
  }

  ghost predicate Fits(x: Host, y: Host, fromX: set<Flight>) {
    && (Met(y.end) ==> y.end.peer == x.base)
    && forall f | f in fromX :: Says(f, x.base, y.base)
  }

  lemma SameBase(a: u32, b: u32)
    requires Wire(a, -1) == Wire(b, -1)
    ensures a == b
  {}

  /** Every recent segment is read as its sender meant it. */
  lemma ReadBack(x: Host, y: Host, f: Flight)
    requires Says(f, x.base, y.base) && (Met(y.end) ==> y.end.peer == x.base)
    requires Recent(y.end, f.seg) && (f.seg.syn ==> f.seg.pos == -1)
    ensures ReadAs(y.end, f.seg, ReadAt(y.end, y.base, f.wire))
  {
    hide Wire, Unwrap, UnwrapUp;
    if Met(y.end) {
      UnwrapWire(x.base, Nxt(y.end.rcv), f.seg.pos);
    }
    if f.seg.isAck {
      UnwrapUpWire(y.base, y.end.snd.nxt, f.seg.ack);
    }
  }

  /** tcp_input learns the peer's numbering only from a SYN and never forgets it. */
  lemma InputPeer(e: End, g: Seg, env: Env, e': End, out: seq<Item>)
    requires Input(e, g, env, e', out)
    ensures Met(e) ==> e'.peer == e.peer
    ensures !Met(e) && Met(e') ==> g.syn
    ensures !Met(e) && !Met(e') ==> NoAcks(e', out)
  {
    hide SyncedInput, Wire;
    if Synced(e.snd.state) && !g.rst {
      SyncedPeer(e, g, env, e', out);
    } else if e.snd.state == SynRcvd && e'.peer != e.peer {
      SyncedPeer(e.(snd := Connected(e.snd), rcvShift := env.rcvShift), g, env, e', out);
    }
  }

  lemma SyncedPeer(e: End, g: Seg, env: Env, e': End, out: seq<Item>)
    requires SyncedInput(e, g, env, e', out)
    ensures e'.peer == e.peer
  {
    hide Absorb, GotAck, Push, Wire, Shl;
  }

  predicate NoAcks(e: End, out: seq<Item>) { forall i | 0 <= i < |out| :: !ToSeg(e, out[i]).isAck }

  lemma CalledPeer(e: End, c: Call, env: Env, e': End, out: seq<Item>)
    requires EndInv(e) && Called(e, c, env, e', out)
    ensures e'.peer == e.peer && (Met(e') ==> Met(e))
    ensures !Met(e) ==> NoAcks(e', out)
  {
    if c == Tick && e.snd.state == SynSent {
      TickPeer(e, env, e', out);
    } else {
      hide SndInv, Push, Timeout;
      CalledKeeps(e, c, env, e', out);
    }
  }

  lemma TickPeer(e: End, env: Env, e': End, out: seq<Item>)
    requires EndInv(e) && e.snd.state == SynSent && Called(e, Tick, env, e', out)
    ensures e'.peer == e.peer && !Met(e') && NoAcks(e', out)
  {
    TimeoutStates(e.snd, env.now);
    DueKeeps(e, env.now);
    NoItems(e.snd);
    var (s, items) := if 0 < e.snd.rtoAt <= env.now then Timeout(e.snd, env.now, []) else (e.snd, []);
    hide SndInv, Timeout, Push, ItemsOk;
    PushStates(s, env.now, items);
  }

  // ---------------------------------------------------------------- refinement

  lemma MeantOf(e: End, base: u32, items: seq<Item>, out: seq<Segment>)
    requires Stamped(e, base, items, out)
    ensures Meant(Flights(e, items, out)) == Segs(e, items)
  {
    forall g | g in Segs(e, items) ensures g in Meant(Flights(e, items, out)) {
      var i :| 0 <= i < |items| && g == ToSeg(e, items[i]);
      assert Flight(ToSeg(e, items[i]), out[i]) in Flights(e, items, out);
    }
  }

  lemma MeantBoth(a: set<Flight>, b: set<Flight>)
    ensures Meant(a + b) == Meant(a) + Meant(b)
  {}

  /** What y sends is numbered as both sides count. */
  lemma Sends(x: Host, y: Host, e': End, items: seq<Item>, out: seq<Segment>)
    requires Stamped(e', y.base, items, out) && (e'.peer == x.base || NoAcks(e', items))
    ensures forall f | f in Flights(e', items, out) :: Says(f, y.base, x.base)
  {
    hide Wire;
  }

  /** One action of y is a move of the endpoint, and leaves the numbers meaning what they should. */
  lemma ActRefines(x: Host, y: Host, fromX: set<Flight>, fromY: set<Flight>, e': End, items: seq<Item>,
                   out: seq<Segment>)
    requires Fits(x, y, fromX) && Fits(y, x, fromY) && EndInv(y.end) && Safe(x.end, y.end, Meant(fromX))
    requires |items| == |out| && Acts(fromX, y, e', items, out)
    ensures Moves(Meant(fromX), y.end, e', items)
      && Meant(fromY + Flights(e', items, out)) == Meant(fromY) + Segs(e', items)
    ensures Fits(x, y.(end := e'), fromX) && Fits(y.(end := e'), x, fromY + Flights(e', items, out))
  {
    hide Input, Called, EndInv, Safe, Flights, Meant;
    MeantBoth(fromY, Flights(e', items, out));
    if f, env: Env :| f in fromX && Recent(y.end, f.seg) && env.rtoBase >= 1 && env.mss >= 1
                      && Handles(y.end, y.base, f.wire, env, e', items, out) {
      Arrived(x, y, fromX, f, env, e', items, out);
    } else {
      var c, env :| Performs(y.end, y.base, c, env, e', items, out);
      CalledPeer(y.end, c, env, e', items);
    }
    MeantOf(e', y.base, items, out);
    Sends(x, y, e', items, out);
  }

  lemma Arrived(x: Host, y: Host, fromX: set<Flight>, f: Flight, env: Env, e': End, items: seq<Item>, out: seq<Segment>)
    requires Fits(x, y, fromX) && f in fromX && Recent(y.end, f.seg) && Safe(x.end, y.end, Meant(fromX))
    requires Handles(y.end, y.base, f.wire, env, e', items, out)
    ensures Arrives(Meant(fromX), y.end, ReadAt(y.end, y.base, f.wire))
    ensures (Met(e') ==> e'.peer == x.base) && (e'.peer == x.base || NoAcks(e', items))
  {
    var h := ReadAt(y.end, y.base, f.wire);
    assert f.seg in Meant(fromX);
    assert SegOk(x.end, f.seg);
    hide Input, Safe, Recent, Meant, Stamped;
    ReadBack(x, y, f);
    InputPeer(y.end, h, env, e', items);
    if !Met(y.end) && Met(e') {
      SameBase(e'.peer, x.base);
    }
  }

  ghost predicate NetInv(w: Net) {
    WorldInv(Abs(w)) && Fits(w.a, w.b, w.fromA) && Fits(w.b, w.a, w.fromB)
  }

  lemma WireStepRefines(w: Net, w': Net)
    requires NetInv(w) && WireStep(w, w')
    ensures Step(Abs(w), Abs(w')) && NetInv(w')
  {
    hide Acts, Fits, Safe, EndInv, Moves, Flights, Segs, Meant;
    var e, items: seq<Item>, out: seq<Segment> :| |items| == |out| && (
      || (Acts(w.fromA, w.b, e, items, out)
          && w' == w.(b := w.b.(end := e), fromB := w.fromB + Flights(e, items, out)))
      || (Acts(w.fromB, w.a, e, items, out)
          && w' == w.(a := w.a.(end := e), fromA := w.fromA + Flights(e, items, out))));
    if Acts(w.fromA, w.b, e, items, out) && w' == w.(b := w.b.(end := e), fromB := w.fromB + Flights(e, items, out)) {
      ActRefines(w.a, w.b, w.fromA, w.fromB, e, items, out);
    } else {
      ActRefines(w.b, w.a, w.fromB, w.fromA, e, items, out);
    }
    StepSafe(Abs(w), Abs(w'));
  }

  lemma InitFits(w: Net)
    requires WireInit(w)
    ensures NetInv(w)
  {
    InitSafe(Abs(w));
  }

  ghost predicate WireRun(run: seq<Net>) {
    |run| > 0 && WireInit(run[0]) && forall i | 0 < i < |run| :: WireStep(run[i - 1], run[i])
  }

  /** Every run on the wire is a run of the endpoints. */
  lemma {:induction false} WireRunRefines(run: seq<Net>)
    requires WireRun(run)
    ensures Run(seq(|run|, i requires 0 <= i < |run| => Abs(run[i]))) && NetInv(run[|run| - 1])
  {
    hide WireStep, Step, NetInv, WireInit, Init, Abs;
    var n := |run| - 1;
    if n == 0 {
      FirstOfRun(run[0]);
    } else {
      forall i | 0 < i < n ensures WireStep(run[..n][i - 1], run[..n][i]) {
        assert WireStep(run[i - 1], run[i]);
      }
      WireRunRefines(run[..n]);
      var was := seq(n, i requires 0 <= i < n => Abs(run[..n][i]));
      var now := seq(|run|, i requires 0 <= i < |run| => Abs(run[i]));
      WireStepRefines(run[n - 1], run[n]);
      forall i | 0 < i < |now| ensures Step(now[i - 1], now[i]) {
        if i < n {
          assert Step(was[i - 1], was[i]);
        }
      }
      assert now[0] == was[0];
    }
  }

  lemma FirstOfRun(w: Net)
    requires WireInit(w)
    ensures Init(Abs(w)) && NetInv(w)
  {
    InitFits(w);
  }

  /** TcpStream.StreamSafety on the wire: whatever the network does with the segments, what one kernel's tcp_recv has
      handed out is a prefix of what the other's tcp_send took, and end of file means all of it. */
  lemma WireSafety(run: seq<Net>)
    requires WireRun(run)
    ensures var w := run[|run| - 1];
      && w.b.end.got <= w.a.end.snd.stream && w.a.end.got <= w.b.end.snd.stream
      && (w.b.end.rcv.peerFin && w.b.end.rcv.read == w.b.end.rcv.data ==> w.b.end.got == w.a.end.snd.stream)
      && (w.a.end.rcv.peerFin && w.a.end.rcv.read == w.a.end.rcv.data ==> w.a.end.got == w.b.end.snd.stream)
  {
    WireRunRefines(run);
    var now := seq(|run|, i requires 0 <= i < |run| => Abs(run[i]));
    StreamSafety(now, |run| - 1);
  }
}
