/** tcp_input as the kernel runs it, on rings and 32-bit numbers, proved to be a step of the
    endpoint whose runs TcpStream is about. */
module TcpConnection {
  import opened TcpSeq
  import opened TcpSendSpec
  import opened TcpSendFacts
  import opened TcpSender
  import opened TcpReceiver
  import opened TcpEndpoint
  import opened TcpStream

  /** A segment as it crosses the network. */
  datatype Segment = Segment(
    num: u32, ack: u32,
    isAck: bool, syn: bool, fin: bool, rst: bool,
    window: nat,
    data: seq<byte>)

  /** Segment g, its sender numbering from `from` and its receiver from `to`. */
  function OnWire(g: Seg, from: u32, to: u32): Segment {
    Segment(Wire(from, g.pos), Wire(to, g.ack), g.isAck, g.syn, g.fin, g.rst, g.window, g.data)
  }

  /** How an end that numbers its own stream from `base` reads a segment: its numbers as the positions nearest to its
      own.  Before the peer's numbering is known nothing but its SYN can be placed, and that stands at -1. */
  function ReadAt(e: End, base: u32, g: Segment): Seg {
    Seg(if e.snd.state in {SynSent, Listen} then -1 else Unwrap(e.peer, Nxt(e.rcv), g.num),
        UnwrapUp(base, e.snd.nxt, g.ack),
        g.isAck, g.syn, g.fin, g.rst, g.window, g.data)
  }

  /** e knows how its peer numbers. */
  predicate Met(e: End) { e.snd.state !in {Closed, Listen, SynSent} }

  predicate Listening(e: End) { e.snd.state == Listen && !e.detached && e.got == [] }

  /** `out` is what goes out for `items`, each with the ack and the window of the receiving half. */
  ghost predicate Stamped(e: End, base: u32, items: seq<Item>, out: seq<Segment>) {
    |items| == |out| && forall i | 0 <= i < |out| :: out[i] == OnWire(ToSeg(e, items[i]), base, e.peer)
  }

  /** A segment shows that the peer is alive: no reset, and not one that leaves the handshake where it was. */
  predicate Heard(before: State, g: Segment, after: State) {
    before != Closed && !g.rst && !(before in {SynSent, SynRcvd} && after in {before, Closed})
  }

  /** rcv_adv is the edge of the window that the last segment sent announced. */
  predicate Told(adv: u32, out: seq<Segment>, shift: nat, adv': u32) {
    adv' == if out == [] then adv else Add32(out[|out| - 1].ack, Shl(out[|out| - 1].window, shift))
  }

  /** One call of tcp_input, on the wire: segment g in, `out` out, and the peer's numbering learnt from its SYN. */
  ghost predicate Handles(e: End, base: u32, g: Segment, env: Env, e': End, items: seq<Item>, out: seq<Segment>) {
    && Input(e, ReadAt(e, base, g), env, e', items) && Stamped(e', base, items, out)
    && (!Met(e) && Met(e') ==> Wire(e'.peer, -1) == g.num)
  }

  /** One call from the socket or the tick. */
  ghost predicate Performs(e: End, base: u32, c: Call, env: Env, e': End, items: seq<Item>, out: seq<Segment>) {
    Called(e, c, env, e', items) && Stamped(e', base, items, out)
  }

  /** Everything with data, a FIN or a SYN is answered with an ack. */
  predicate Carries(g: Segment) {
    g.data != [] || g.fin || g.syn
  }

  /** A segment without data, on its own. */
  method One(num: u32, kind: Kind, ghost base: u32, ghost item: Item) returns (out: seq<Packet>, ghost items: seq<Item>)
    requires Encode(base, item) == Packet(num, kind, [])
    ensures Encoded(base, items, out) && items == [item]
  {
    out, items := [Packet(num, kind, [])], [item];
  }

  lemma EncodeBare(base: u32, pos: int)
    ensures Encode(base, Ack(pos)) == Packet(Wire(base, pos), KAck, [])
    ensures Encode(base, Rst(pos, false)) == Packet(Wire(base, pos), KRst, [])
    ensures Encode(base, Rst(pos, true)) == Packet(Wire(base, pos), KRstAck, [])
    ensures Encode(base, Syn(pos)) == Packet(Wire(base, pos), KSyn, [])
  {}

  lemma SegCarries(e: End, base: u32, g: Segment)
    ensures var h := ReadAt(e, base, g); (h.data != [] || h.fin || h.syn) == Carries(g) && h.isAck == g.isAck
  {}

  lemma NeverSent(e: End, g: Seg, env: Env)
    requires g.isAck && e.snd.nxt < g.ack
    ensures SyncedInput(e, g, env, e, [Ack(e.snd.nxt)])
  {}

  lemma NobodyReads(e: End, g: Seg, env: Env)
    requires !(g.isAck && e.snd.nxt < g.ack) && Unwanted(e, g)
    ensures SyncedInput(e, g, env, e.(snd := SetClosed(e.snd)), [Rst(g.ack, true)])
  {}

  lemma Processed(e: End, g: Seg, env: Env, e': End, out: seq<Item>)
    requires !(g.isAck && e.snd.nxt < g.ack) && !Unwanted(e, g)
    requires exists mid: End ::
      TakeAckAndData(e, g, env, mid)
      && Answers(mid, g.data != [] || g.fin || g.syn, env.now, e', out)
    ensures SyncedInput(e, g, env, e', out)
  {}

  /** What tcp_emit makes of one item. */
  lemma StampIs(e: End, base: u32, item: Item)
    ensures var p := Encode(base, item);
      var acks := if p.kind == KSyn then e.snd.state == SynRcvd else p.kind != KRst;
      OnWire(ToSeg(e, item), base, e.peer)
        == Segment(p.num, Wire(e.peer, Nxt(e.rcv)), acks, p.kind == KSyn, p.kind == KFin,
                   p.kind == KRst || p.kind == KRstAck, RcvWindow(e), p.bytes)
  {
    hide Wire, RcvWindow;
  }

  lemma ChildHandles(e: End, base: u32, g: Segment, env: Env, e': End, items: seq<Item>, out: seq<Segment>)
    requires Listening(e) && g.syn && !g.isAck && !g.rst && items == [Syn(-1)] && Stamped(e', base, items, out)
    requires e' == End(Accepting(env.mss, g.window, g.num, env.now), FRESH, Add32(g.num, 1), env.sndShift, 0, false, [])
    ensures Handles(e, base, g, env, e', items, out)
  {
    SynNumber(g.num);
    hide Stamped, Unwrap, UnwrapUp, Wire;
  }

  class Connection {
    const snd: Sender
    var rcv: Receiver
    var sndShift: nat
    var rcvShift: nat
    var detached: bool
    var rcvAdv: u32                 // the right edge of the window last announced
    var keepalive: bool
    var keepIdle: nat
    var keepIntvl: nat
    var keepCnt: nat
    var keepSent: nat
    var lastRx: nat
    var doneAt: nat                 // when TIME_WAIT or lingering ends, 0 while neither is on
    ghost var got: seq<byte>

    ghost predicate Valid()
      reads this, snd, snd.tx, rcv, rcv.rx
    {
      && snd.Valid() && rcv.Valid()
      && snd.tx != rcv.rx
    }

    ghost function View(): End
      reads this, snd, rcv
    {
      End(snd.view, rcv.view, rcv.base, sndShift, rcvShift, detached, got)
    }

    ghost function Read(g: Segment): Seg
      reads this, snd, rcv
    {
      ReadAt(View(), snd.base, g)
    }

    constructor (snd: Sender, rcv: Receiver)
      requires snd.Valid() && rcv.Valid() && snd.tx != rcv.rx
      ensures Valid() && View() == End(snd.view, rcv.view, rcv.base, 0, 0, false, [])
      ensures this.snd == snd && this.rcv == rcv && rcvAdv == 0 && !keepalive && keepSent == 0 && doneAt == 0
    {
      this.snd, this.rcv, sndShift, rcvShift, detached, got := snd, rcv, 0, 0, false, [];
      rcvAdv, keepalive, keepIdle, keepIntvl, keepCnt, keepSent := 0, false, KEEP_IDLE_S, KEEP_INTVL_S, KEEP_CNT, 0;
      lastRx, doneAt := 0, 0;
    }

    /** tcp_listen_input on a SYN: the child it makes, whose own SYN takes number `iss`, and its answer. */
    static method Child(g: Segment, iss: u32, env: Env)
      returns (c: Connection, out: seq<Segment>, ghost items: seq<Item>)
      requires g.syn && !g.isAck && !g.rst
      ensures fresh(c) && c.Valid() && c.snd.base == Add32(iss, 1)
      ensures Told(0, out, c.rcvShift, c.rcvAdv) && c.lastRx == env.now
      ensures forall e: End | Listening(e) :: Handles(e, c.snd.base, g, env, c.View(), items, out)
    {
      hide Receiver.Valid, Sender.Valid, Encode, Encoded, Stamped, Told;
      c := Made(g, iss, env);
      var packets;
      packets, items := c.OwnSyn();
      out := c.Flush(packets, items);
      forall e: End | Listening(e) ensures Handles(e, c.snd.base, g, env, c.View(), items, out) {
        ChildHandles(e, c.snd.base, g, env, c.View(), items, out);
      }
    }

    static method Made(g: Segment, iss: u32, env: Env) returns (c: Connection)
      ensures fresh(c) && fresh(c.snd) && fresh(c.rcv) && c.Valid() && c.snd.base == Add32(iss, 1)
      ensures c.lastRx == env.now && c.rcvAdv == 0
      ensures c.View() == End(Accepting(env.mss, g.window, g.num, env.now), FRESH, Add32(g.num, 1), env.sndShift, 0,
                              false, [])
    {
      hide Receiver.Valid, Sender.Valid, Accepting, Add32;
      var snd := new Sender.Child(iss, env.mss, g.window, g.num, env.now);
      var rcv := new Receiver(g.num);
      c := new Connection(snd, rcv);
      c.sndShift, c.lastRx := env.sndShift, env.now;
    }

    /** The SYN of a connection that has sent nothing else. */
    method OwnSyn() returns (out: seq<Packet>, ghost items: seq<Item>)
      requires Valid() && View().snd.una == -1
      ensures Encoded(snd.base, items, out) && items == [Syn(-1)]
    {
      snd.Fields();
      hide Receiver.Valid, Sender.Valid, Wire;
      EncodeBare(snd.base, -1);
      out, items := One(snd.t.sndUna, KSyn, snd.base, Syn(-1));
    }

    /** tcp_rcv_window */
    method Window() returns (window: nat)
      requires Valid()
      ensures window == RcvWindow(View())
    {
      rcv.Fields();
      hide Receiver.Valid, Sender.Valid, Shr;
      var room := Shr(RX_BUF - rcv.rxLen, rcvShift);
      window := if room > 0xFFFF then 0xFFFF else room;
    }

    /** tcp_emit and tcp_out_flush: every segment of the batch carries the receiving half's ack and window, which no
        call changes any more once it has begun to send. */
    method Flush(packets: seq<Packet>, ghost items: seq<Item>) returns (out: seq<Segment>)
      requires Valid() && Encoded(snd.base, items, packets)
      modifies this`rcvAdv
      ensures Valid() && View() == old(View()) && Stamped(View(), snd.base, items, out)
      ensures Told(old(rcvAdv), out, rcvShift, rcvAdv)
    {
      hide Receiver.Valid, Sender.Valid, Shl, RcvWindow, Wire, Encoded, Stamped;
      var window := Window();
      out := Stamp(packets, items, window);
      if packets != [] {
        rcvAdv := Add32(rcv.rcvNxt, Shl(window, rcvShift));
      }
    }

    method Stamp(packets: seq<Packet>, ghost items: seq<Item>, window: nat) returns (out: seq<Segment>)
      requires Valid() && Encoded(snd.base, items, packets) && window == RcvWindow(View())
      ensures Stamped(View(), snd.base, items, out) && |out| == |packets|
      ensures forall k | 0 <= k < |out| :: out[k].ack == rcv.rcvNxt && out[k].window == window
    {
      snd.Fields();
      rcv.Fields();
      hide Receiver.Valid, Sender.Valid, RcvWindow, Wire, Encode, OnWire, ToSeg;
      out := [];
      var i := 0;
      while i < |packets|
        invariant 0 <= i <= |packets| == |items| && |out| == i
        invariant forall k | 0 <= k < i :: out[k] == OnWire(ToSeg(View(), items[k]), snd.base, rcv.base)
        invariant forall k | 0 <= k < i :: out[k].ack == rcv.rcvNxt && out[k].window == window
      {
        var p := packets[i];
        StampIs(View(), snd.base, items[i]);
        var acks := if p.kind == KSyn then snd.t.state == SynRcvd else p.kind != KRst;
        var rst := p.kind == KRst || p.kind == KRstAck;
        out := out + [Segment(p.num, rcv.rcvNxt, acks, p.kind == KSyn, p.kind == KFin, rst, window, p.bytes)];
        i := i + 1;
      }
    }

    /** tcp_got_data with its state change. */
    method GotData(g: Segment) returns (ghost dropped: bool)
      requires Valid() && CanTake(snd.t.state) && PeerFinState(View())
      modifies rcv, rcv.rx, snd`t, snd`view
      ensures Valid() && snd.base == old(snd.base)
      ensures TakeData(old(View()), old(Read(g)).pos, g.data, g.fin, dropped, View())
    {
      hide SndInv, Absorb, Wire, Unwrap, UnwrapUp, Receiver.Valid, Sender.Valid;
      snd.Fields();
      dropped := rcv.GotData(g.num, g.data, g.fin);
      rcv.Fields();
      if rcv.peerFin {
        snd.PeerFinish();
      }
    }

    /** tcp_got_ack, if the segment carries an ack. */
    method AckPart(g: Segment, env: Env)
      requires Valid() && Synced(snd.t.state) && env.rtoBase >= 1
      requires g.isAck ==> !SeqLt(snd.t.sndNxt, g.ack)
      modifies snd
      ensures Valid() && snd.base == old(snd.base) && snd.t.state == snd.view.state
      ensures View() == AckedEnd(old(View()), old(Read(g)), env)
    {
      hide SndInv, TcpSendSpec.GotAck, Wire, Unwrap, UnwrapUp, Receiver.Valid, Sender.Valid, Shl, SeqLt;
      snd.Fields();
      if g.isAck {
        snd.GotAck(g.num, g.ack, Shl(g.window, sndShift), g.data == [] && !g.fin, env.rtoBase, env.now);
        snd.Fields();
      }
    }

    /** The middle of tcp_input: ack, then data. */
    method Middle(g: Segment, env: Env) returns (ghost dropped: bool)
      requires Valid() && Synced(snd.t.state) && PeerFinState(View()) && env.rtoBase >= 1
      requires g.isAck ==> !SeqLt(snd.t.sndNxt, g.ack)
      modifies snd, rcv, rcv.rx
      ensures Valid() && snd.base == old(snd.base)
      ensures TakeAckAndData(old(View()), old(Read(g)), env.(dropped := dropped), View())
    {
      AckedEndState(View(), Read(g), env);
      hide TakeData, AckedEnd, Unwrap, UnwrapUp, Receiver.Valid, Sender.Valid, SeqLt;
      dropped := false;
      AckPart(g, env);
      if (g.data != [] || g.fin) && (snd.t.state == Established || snd.t.state == FinWait1 || snd.t.state == FinWait2) {
        dropped := GotData(g);
      }
    }

    /** The end of tcp_input: send what can go, and ack everything that carried anything. */
    method Answer(answer: bool, now: nat) returns (out: seq<Packet>, ghost items: seq<Item>)
      requires Valid()
      modifies snd`t, snd`view
      ensures Valid() && Encoded(snd.base, items, out)
      ensures Answers(old(View()), answer, now, View(), items)
    {
      hide SndInv, TcpSendSpec.Push, Wire, Receiver.Valid, Sender.Valid;
      out, items := [], [];
      snd.Fields();
      if snd.t.state != Closed {
        out, items := snd.Push(now, out, items);
        snd.Fields();
        if answer {
          out := EmitPacket(out, Packet(snd.t.sndNxt, KAck, []), snd.base, items, Ack(snd.view.nxt));
          items := Emit(items, Ack(snd.view.nxt));
        }
      }
    }

    /** The body of tcp_input: ack, data, then whatever can be sent. */
    method Process(g: Segment, env: Env) returns (out: seq<Packet>, ghost items: seq<Item>, ghost dropped: bool)
      requires Valid() && Synced(snd.t.state) && PeerFinState(View()) && env.rtoBase >= 1
      requires g.isAck ==> !SeqLt(snd.t.sndNxt, g.ack)
      requires !(g.isAck && View().snd.nxt < Read(g).ack) && !Unwanted(View(), Read(g))
      modifies snd, rcv, rcv.rx
      ensures Valid() && snd.base == old(snd.base) && Encoded(snd.base, items, out)
      ensures SyncedInput(old(View()), old(Read(g)), env.(dropped := dropped), View(), items)
    {
      hide TakeAckAndData, Answers, Receiver.Valid, Sender.Valid, ReadAt, View, SeqLt, SyncedInput, Unwanted;
      ghost var e, seg := View(), Read(g);
      dropped := Middle(g, env);
      ghost var mid := View();
      out, items := Answer(Carries(g), env.now);
      SegCarries(e, snd.base, g);
      Processed(e, seg, env.(dropped := dropped), View(), items);
    }

    /** What the 32-bit tests of tcp_input decide. */
    lemma SyncedTests(g: Segment)
      requires Valid()
      ensures SeqLt(snd.t.sndNxt, g.ack) <==> View().snd.nxt < Read(g).ack
      ensures SeqLt(rcv.rcvNxt, Add32(g.num, |g.data|)) <==>
              SeqLt(Wire(rcv.base, Nxt(rcv.view)), Wire(rcv.base, Unwrap(rcv.base, Nxt(rcv.view), g.num) + |g.data|))
      ensures Wire(snd.base, Read(g).ack) == g.ack && snd.t.state == snd.view.state
    {
      snd.Fields();
      rcv.Fields();
      hide Receiver.Valid, Sender.Valid, Wire, SeqLt, Add32, Unwrap, UnwrapUp;
      BeforeReader(snd.base, snd.view.nxt, g.ack);
      WireShift(rcv.base, Unwrap(rcv.base, Nxt(rcv.view), g.num), |g.data|);
    }

    /** An ack beyond snd_nxt is answered with where we are. */
    method Correct(g: Segment, env: Env) returns (out: seq<Packet>, ghost items: seq<Item>)
      requires Valid() && g.isAck && View().snd.nxt < Read(g).ack
      ensures Encoded(snd.base, items, out) && SyncedInput(View(), Read(g), env, View(), items)
    {
      snd.Fields();
      hide Receiver.Valid, Sender.Valid, Wire, Encoded, Encode, SyncedInput, ReadAt;
      EncodeBare(snd.base, snd.view.nxt);
      out, items := One(snd.t.sndNxt, KAck, snd.base, Ack(snd.view.nxt));
      SegCarries(View(), snd.base, g);
      NeverSent(View(), Read(g), env);
    }

    /** Data for a socket that has been closed. */
    method Refuse(g: Segment, env: Env) returns (out: seq<Packet>, ghost items: seq<Item>)
      requires Valid() && Wire(snd.base, Read(g).ack) == g.ack
      requires !(g.isAck && View().snd.nxt < Read(g).ack) && Unwanted(View(), Read(g))
      modifies snd`t, snd`view
      ensures Valid() && snd.base == old(snd.base) && Encoded(snd.base, items, out)
      ensures SyncedInput(old(View()), old(Read(g)), env, View(), items)
    {
      hide Receiver.Valid, Sender.Valid, Wire, Encoded, Encode, ReadAt, SetClosed, SyncedInput, Unwanted;
      ghost var e, seg := View(), Read(g);
      SegCarries(e, snd.base, g);
      EncodeBare(snd.base, seg.ack);
      out, items := One(g.ack, KRstAck, snd.base, Rst(seg.ack, true));
      snd.Close();
      NobodyReads(e, seg, env);
    }

    /** tcp_input for a connection past its handshake, segment not a reset. */
    method SyncedArrival(g: Segment, env: Env)
      returns (out: seq<Packet>, ghost items: seq<Item>, ghost dropped: bool)
      requires Valid() && Synced(snd.t.state) && PeerFinState(View()) && env.rtoBase >= 1
      modifies snd, rcv, rcv.rx
      ensures Valid() && snd.base == old(snd.base) && Encoded(snd.base, items, out)
      ensures SyncedInput(old(View()), old(Read(g)), env.(dropped := dropped), View(), items)
    {
      SyncedTests(g);
      hide SyncedInput, Wire, SeqLt, Unwrap, UnwrapUp, Receiver.Valid, Sender.Valid, Encoded, PeerFinState;
      var e := env.(dropped := false);
      dropped := false;
      if g.isAck && SeqLt(snd.t.sndNxt, g.ack) {
        out, items := Correct(g, e);
      } else if detached && g.data != [] && SeqLt(rcv.rcvNxt, Add32(g.num, |g.data|))
                && (snd.t.state == Established || snd.t.state == FinWait1 || snd.t.state == FinWait2) {
        out, items := Refuse(g, e);
      } else {
        out, items, dropped := Process(g, env);
      }
    }

    /** tcp_syn_rcvd, then the rest of tcp_input if the connection stands. */
    method HalfOpenArrival(g: Segment, env: Env)
      returns (out: seq<Packet>, ghost items: seq<Item>, ghost dropped: bool)
      requires Valid() && snd.t.state == SynRcvd && EndInv(View()) && env.rtoBase >= 1
      modifies this`rcvShift, snd, rcv, rcv.rx
      ensures Valid() && snd.base == old(snd.base) && Encoded(snd.base, items, out)
      ensures SynRcvdInput(old(View()), old(Read(g)), env.(dropped := dropped), View(), items)
    {
      ghost var e, seg := View(), Read(g);
      dropped, items, out := false, [], [];
      HalfOpenNumbers(seg.pos, e.rcv, rcv.base, g.num, seg.ack, e.snd, snd.base, g.ack);
      snd.Fields();
      rcv.Fields();
      hide SyncedInput, Wire, SeqLt, Unwrap, UnwrapUp, Receiver.Valid, SndInv;
      if g.rst {
        if g.num == rcv.rcvNxt {
          snd.Close();
        }
      } else if g.syn && Add32(g.num, 1) == rcv.rcvNxt {
        out, items := [Packet(snd.t.sndUna, KSyn, [])], [Syn(-1)];
      } else if !g.isAck {
      } else if g.ack != snd.t.sndNxt {
        out, items := [Packet(g.ack, KRst, [])], [Rst(seg.ack, false)];
      } else if !env.rings {
        out, items := [Packet(g.ack, KRst, [])], [Rst(seg.ack, false)];
        snd.Close();
      } else {
        out, items, dropped := Establish(g, env);
      }
    }

    /** The ack that ends the handshake, and what else the segment carries. */
    method Establish(g: Segment, env: Env)
      returns (out: seq<Packet>, ghost items: seq<Item>, ghost dropped: bool)
      requires Valid() && snd.t.state == SynRcvd && EndInv(View()) && env.rtoBase >= 1
      modifies this`rcvShift, snd, rcv, rcv.rx
      ensures Valid() && snd.base == old(snd.base) && Encoded(snd.base, items, out)
      ensures var e := old(View());
        SyncedInput(e.(snd := Connected(e.snd), rcvShift := env.rcvShift), old(Read(g)), env.(dropped := dropped),
          View(), items)
    {
      snd.Fields();
      hide SyncedInput, Wire, Unwrap, UnwrapUp, Receiver.Valid, Sender.Valid, SndInv, Encoded;
      snd.Connect();
      rcvShift := env.rcvShift;
      snd.Fields();
      assert Read(g) == old(Read(g));
      out, items, dropped := SyncedArrival(g, env);
    }

    /** tcp_syn_sent */
    method SynSentArrival(g: Segment, env: Env)
      returns (out: seq<Packet>, ghost items: seq<Item>)
      requires Valid() && snd.t.state == SynSent && EndInv(View()) && env.mss >= 1
      modifies this`sndShift, this`rcvShift, snd, rcv
      ensures Valid() && snd.base == old(snd.base) && Encoded(snd.base, items, out)
      ensures SynSentInput(old(View()), old(Read(g)), env, View(), items)
      ensures Met(View()) ==> Wire(View().peer, -1) == g.num
    {
      ghost var e, seg := View(), Read(g);
      out, items := [], [];
      WireCompare(snd.base, seg.ack, snd.view.nxt);
      SynNumber(g.num);
      snd.Fields();
      hide Receiver.Valid, Sender.Valid, SndInv, UnwrapUp, Unwrap, Wire, Add32, SetClosed, Encode;
      EncodeBare(snd.base, seg.ack);
      if g.isAck && g.ack != snd.t.sndNxt {
        if !g.rst {
          out, items := One(g.ack, KRst, snd.base, Rst(seg.ack, false));
        }
      } else if g.rst {
        if g.isAck {
          snd.Close();
        }
      } else if g.syn && g.isAck {
        hide SynSentInput, Encoded;
        out, items := Greeted(g, env);
        Greeting(e, seg, env, View(), items);
      }
    }

    /** The peer answered our SYN with its own. */
    method Greeted(g: Segment, env: Env) returns (out: seq<Packet>, ghost items: seq<Item>)
      requires Valid() && snd.t.state == SynSent && EndInv(View()) && env.mss >= 1
      modifies this`sndShift, this`rcvShift, snd, rcv
      ensures Valid() && snd.base == old(snd.base) && Encoded(snd.base, items, out)
      ensures items == [Ack(old(View()).snd.nxt)]
      ensures Wire(View().peer, -1) == g.num
      ensures View() == old(View()).(snd := SynAcked(old(View()).snd, env.mss, g.window, g.num), rcv := FRESH,
                                     peer := View().peer, sndShift := env.sndShift, rcvShift := env.rcvShift)
    {
      SynNumber(g.num);
      snd.Fields();
      hide Receiver.Valid, Sender.Valid, SndInv, Wire, Add32, Encode, Encoded;
      snd.SynAcked(env.mss, g.window, g.num);
      rcv.Start(g.num);
      sndShift, rcvShift := env.sndShift, env.rcvShift;
      snd.Fields();
      EncodeBare(snd.base, snd.view.nxt);
      out, items := One(snd.t.sndNxt, KAck, snd.base, Ack(snd.view.nxt));
    }

    /** A reset for a connection past its handshake. */
    method ResetArrival(g: Segment)
      requires Valid() && Synced(snd.t.state)
      modifies snd`t, snd`view
      ensures Valid()
      ensures View() == if ResetFits(old(View()), old(Read(g))) then old(View()).(snd := SetClosed(old(View()).snd))
        else old(View())
    {
      ghost var pos := Read(g).pos;
      rcv.Fields();
      ResetNumbers(pos, rcv.view, rcv.base, g.num);
      hide Receiver.Valid, Sender.Valid, SndInv, Unwrap, UnwrapUp, Wire, SeqLt, SeqLeq;
      snd.Fields();
      var win := RX_BUF - rcv.rxLen;
      if g.num == rcv.rcvNxt
         || (SeqLeq(rcv.rcvNxt, g.num) && SeqLt(g.num, Add32(rcv.rcvNxt, if win > 0 then win else 1))) {
        snd.Close();
      }
    }

    /** tcp_input by state. */
    method Dispatch(g: Segment, env: Env) returns (out: seq<Packet>, ghost items: seq<Item>, ghost env': Env)
      requires Valid() && EndInv(View()) && snd.t.state != Listen && env.rtoBase >= 1 && env.mss >= 1
      modifies this`sndShift, this`rcvShift, snd, rcv, rcv.rx
      ensures Valid() && snd.base == old(snd.base) && Encoded(snd.base, items, out)
      ensures env' == env.(dropped := env'.dropped)
      ensures Input(old(View()), old(Read(g)), env', View(), items)
      ensures !Met(old(View())) && Met(View()) ==> Wire(View().peer, -1) == g.num
    {
      snd.Fields();
      hide Receiver.Valid, Sender.Valid, SndInv, Unwrap, UnwrapUp, Wire, SyncedInput, SynRcvdInput, SynSentInput,
           ResetFits;
      out, items := [], [];
      ghost var dropped := false;
      if snd.t.state == Closed {
      } else if snd.t.state == SynSent {
        out, items := SynSentArrival(g, env);
      } else if snd.t.state == SynRcvd {
        out, items, dropped := HalfOpenArrival(g, env);
      } else if g.rst {
        ResetArrival(g);
      } else {
        out, items, dropped := SyncedArrival(g, env);
      }
      env' := env.(dropped := dropped);
    }

    /** tcp_input for a connection that is not a listener. */
    method Arrive(g: Segment, env: Env) returns (out: seq<Segment>, ghost items: seq<Item>, ghost env': Env)
      requires Valid() && EndInv(View()) && snd.t.state != Listen && env.rtoBase >= 1 && env.mss >= 1
      modifies this`sndShift, this`rcvShift, this`rcvAdv, this`lastRx, this`keepSent, this`doneAt, snd, rcv, rcv.rx
      ensures Told(old(rcvAdv), out, rcvShift, rcvAdv)
      ensures Valid() && snd.base == old(snd.base) && env' == env.(dropped := env'.dropped)
      ensures Handles(old(View()), snd.base, g, env', View(), items, out)
      ensures lastRx == if Heard(old(snd.t.state), g, snd.t.state) then env.now else old(lastRx)
      ensures keepSent ==
        if Heard(old(snd.t.state), g, snd.t.state) && old(snd.t.state) != SynSent then 0 else old(keepSent)
      ensures doneAt == if old(snd.t.state) != TimeWait && snd.t.state == TimeWait then env.now + TIMEWAIT_MS
        else old(doneAt)
    {
      hide Receiver.Valid, Sender.Valid, EndInv, Input, Wire, Stamped, Encoded, ReadAt;
      var before := snd.t.state;
      var packets;
      packets, items, env' := Dispatch(g, env);
      if Heard(before, g, snd.t.state) {
        lastRx := env.now;
        keepSent := if before == SynSent then keepSent else 0;
      }
      if before != TimeWait && snd.t.state == TimeWait {
        doneAt := env.now + TIMEWAIT_MS;
      }
      out := Flush(packets, items);
    }

    /** tcp_push on the whole connection. */
    method PushOut(now: nat, out0: seq<Packet>, ghost items0: seq<Item>)
      returns (out: seq<Packet>, ghost items: seq<Item>)
      requires Valid() && ItemsOk(snd.view, items0) && Encoded(snd.base, items0, out0)
      modifies snd`t, snd`view
      ensures Valid() && Encoded(snd.base, items, out)
      ensures (View(), items) == PushEnd(old(View()), now, items0)
    {
      hide Receiver.Valid, Sender.Valid, TcpSendSpec.Push, ItemsOk;
      out, items := snd.Push(now, out0, items0);
    }

    /** tcp_send: as many bytes as the ring takes are the connection's to deliver. */
    method Write(data: seq<byte>, env: Env) returns (n: nat, out: seq<Segment>, ghost items: seq<Item>)
      requires Valid()
      modifies this`rcvAdv, snd, snd.tx
      ensures Told(old(rcvAdv), out, rcvShift, rcvAdv)
      ensures Valid() && snd.base == old(snd.base)
      ensures Performs(old(View()), snd.base, Send(data), env, View(), items, out)
      ensures n <= |data| && View().snd.stream == old(View()).snd.stream + data[..n]
    {
      hide Receiver.Valid, SndInv, Wire, TcpSendSpec.Push, TxHolds;
      var packets: seq<Packet>;
      n, packets, items := 0, [], [];
      if (snd.t.state == Established || snd.t.state == CloseWait) && !snd.t.finWanted {
        n := snd.Send(data);
        ghost var mid := View();
        NoItems(mid.snd);
        packets, items := PushOut(env.now, [], []);
        PushRing(mid.snd, env.now, []);
      }
      out := Flush(packets, items);
    }

    /** tcp_recv without peek: the oldest bytes are handed out, and the peer hears of the room made if it is short of
        it. */
    method Take(len: nat, env: Env) returns (bytes: seq<byte>, out: seq<Segment>, ghost items: seq<Item>)
      requires Valid()
      modifies this`got, this`rcvAdv, rcv
      ensures Told(old(rcvAdv), out, rcvShift, rcvAdv)
      ensures Valid() && snd.base == old(snd.base)
      ensures Performs(old(View()), snd.base, Recv(len), env, View(), items, out)
      ensures View().got == old(View()).got + bytes
      ensures out != [] <==>
        bytes != [] && View().snd.state != Closed && WorthTelling(rcv.rcvNxt, old(rcvAdv), RX_BUF - rcv.rxLen)
    {
      var packets;
      bytes, packets, items := Drain(len, env);
      hide Receiver.Valid, Sender.Valid, Called, Encoded, Stamped;
      out := Flush(packets, items);
    }

    method Drain(len: nat, env: Env) returns (bytes: seq<byte>, out: seq<Packet>, ghost items: seq<Item>)
      requires Valid()
      modifies this`got, rcv
      ensures Valid() && snd.base == old(snd.base) && Encoded(snd.base, items, out)
      ensures Called(old(View()), Recv(len), env, View(), items)
      ensures View().got == old(View()).got + bytes
      ensures items != [] <==>
        bytes != [] && View().snd.state != Closed && WorthTelling(rcv.rcvNxt, rcvAdv, RX_BUF - rcv.rxLen)
    {
      hide Receiver.Valid, Sender.Valid, Wire, AfterRead, Reads, Encoded;
      ghost var e := View();
      bytes := HandOut(len);
      NothingOut(snd.base);
      out, items := [], [];
      if bytes != [] {
        out, items := Tell();
        ReadsAndTells(e, len, View(), items);
      }
    }

    method HandOut(len: nat) returns (bytes: seq<byte>)
      requires Valid()
      modifies this`got, rcv
      ensures Valid() && Reads(old(View()), len, View(), []) && View().got == old(View()).got + bytes
    {
      rcv.Fields();
      hide Receiver.Valid, Sender.Valid, Wire, AfterRead, Reads;
      ghost var e := View();
      bytes := rcv.Recv(len, false);
      got := got + bytes;
      ReadsIs(e, len, View(), bytes);
    }

    /** The peer is told of the room made, or not. */
    method Tell() returns (out: seq<Packet>, ghost items: seq<Item>)
      requires Valid()
      ensures Encoded(snd.base, items, out)
      ensures items == if View().snd.state != Closed && WorthTelling(rcv.rcvNxt, rcvAdv, RX_BUF - rcv.rxLen)
                       then [Ack(View().snd.nxt)] else []
    {
      snd.Fields();
      rcv.Fields();
      hide Receiver.Valid, Sender.Valid, Wire, Encoded, Encode, Sub32, Add32;
      NothingOut(snd.base);
      out, items := [], [];
      var told, edge := Sub32(rcvAdv, rcv.rcvNxt), Add32(rcv.rcvNxt, RX_BUF - rcv.rxLen);
      if told < RX_BUF / 4 && SignedSub(edge, rcvAdv) >= 2 * TCP_MSS && snd.t.state != Closed {
        EncodeBare(snd.base, snd.view.nxt);
        out, items := One(snd.t.sndNxt, KAck, snd.base, Ack(snd.view.nxt));
      }
    }

    /** tcp_shutdown of the writing side. */
    method CloseWriting(env: Env) returns (out: seq<Segment>, ghost items: seq<Item>)
      requires Valid()
      modifies this`rcvAdv, snd`t, snd`view
      ensures Told(old(rcvAdv), out, rcvShift, rcvAdv)
      ensures Valid() && snd.base == old(snd.base)
      ensures Performs(old(View()), snd.base, Shutdown, env, View(), items, out)
    {
      snd.Fields();
      hide Receiver.Valid, Sender.Valid, SndInv, Wire, TcpSendSpec.Push, Stamped;
      var packets: seq<Packet>;
      packets, items := [], [];
      if Synced(snd.t.state) && !snd.t.finWanted {
        snd.WantFin();
        NoItems(snd.view);
        packets, items := PushOut(env.now, [], []);
      }
      out := Flush(packets, items);
    }

    /** A reset from our side, and the connection is closed. */
    method Reset(acks: bool, env: Env) returns (out: seq<Packet>, ghost items: seq<Item>)
      requires Valid() && Met(View())
      modifies snd`t, snd`view
      ensures Valid() && Encoded(snd.base, items, out) && items == [Rst(old(View()).snd.nxt, acks)]
      ensures Called(old(View()), Call.Drop, env, View(), items)
    {
      snd.Fields();
      hide Receiver.Valid, Sender.Valid, SndInv, Wire, SetClosed, Encoded, Encode;
      EncodeBare(snd.base, snd.view.nxt);
      out, items := One(snd.t.sndNxt, if acks then KRstAck else KRst, snd.base, Rst(snd.view.nxt, acks));
      snd.Close();
    }

    /** Closed without a word. */
    method CloseNow(env: Env)
      requires Valid()
      modifies snd`t, snd`view
      ensures Valid() && Called(old(View()), Call.Drop, env, View(), [])
    {
      hide Receiver.Valid, Sender.Valid, SndInv, SetClosed;
      snd.Close();
    }

    /** A socket that lets go of a connection which may still have something to send. */
    method Linger(env: Env) returns (out: seq<Packet>, ghost items: seq<Item>)
      requires Valid() && Met(View())
      modifies this`detached, this`doneAt, snd`t, snd`view
      ensures Valid() && snd.base == old(snd.base) && Encoded(snd.base, items, out)
      ensures Called(old(View()), Call.Detach, env, View(), items)
    {
      snd.Fields();
      hide Receiver.Valid, Sender.Valid, SndInv, Wire, TcpSendSpec.Push;
      out, items := [], [];
      detached := true;
      if Synced(snd.t.state) && snd.t.state != TimeWait {
        doneAt := env.now + LINGER_MS;
        snd.WantFin();
        NoItems(snd.view);
        out, items := PushOut(env.now, [], []);
      }
    }

    /** tcp_detach, for a connection: with bytes left in the ring the peer gets a reset, otherwise a FIN in time. */
    method Detach(abort: bool, env: Env) returns (freed: bool, out: seq<Segment>, ghost items: seq<Item>)
      requires Valid() && snd.t.state != Listen
      modifies this`detached, this`doneAt, this`rcvAdv, snd`t, snd`view
      ensures Told(old(rcvAdv), out, rcvShift, rcvAdv)
      ensures Valid() && snd.base == old(snd.base)
      ensures freed <==> abort || !Met(old(View())) || (old(rcv.rxLen) > 0 && !old(snd.view.finSent))
      ensures freed ==> Performs(old(View()), snd.base, Call.Drop, env, View(), items, out)
      ensures freed && Met(old(View())) ==> items == [Rst(old(View()).snd.nxt, true)]
      ensures !freed ==> Performs(old(View()), snd.base, Call.Detach, env, View(), items, out)
    {
      snd.Fields();
      hide Receiver.Valid, Sender.Valid, Called, Stamped, Encoded;
      NothingOut(snd.base);
      var packets: seq<Packet>;
      packets, items, freed := [], [], true;
      if snd.t.state == Closed || snd.t.state == SynSent {
        CloseNow(env);
      } else if abort || (rcv.rxLen > 0 && !snd.t.finSent) {
        packets, items := Reset(true, env);
      } else {
        freed := false;
        packets, items := Linger(env);
      }
      out := Flush(packets, items);
    }

    /** One connection's share of tcp_tick, first part: the retransmit timer, then whatever can go. */
    method TickOne(env: Env) returns (out: seq<Segment>, ghost items: seq<Item>)
      requires Valid()
      modifies this`rcvAdv, snd`t, snd`view
      ensures Told(old(rcvAdv), out, rcvShift, rcvAdv)
      ensures Valid() && snd.base == old(snd.base)
      ensures Performs(old(View()), snd.base, Tick, env, View(), items, out)
    {
      var packets;
      packets, items := Retransmit(env);
      hide Receiver.Valid, Sender.Valid, Called, Stamped, Encoded;
      out := Flush(packets, items);
    }

    method Retransmit(env: Env) returns (out: seq<Packet>, ghost items: seq<Item>)
      requires Valid()
      modifies snd`t, snd`view
      ensures Valid() && snd.base == old(snd.base) && Encoded(snd.base, items, out)
      ensures Called(old(View()), Tick, env, View(), items)
    {
      snd.Fields();
      hide Receiver.Valid, Sender.Valid, SndInv, Wire, TcpSendSpec.Push, TcpSendSpec.Timeout;
      out, items := [], [];
      if snd.t.state != Closed && snd.t.state != Listen {
        NoItems(snd.view);
        if 0 < snd.t.rtoAt <= env.now {
          out, items := snd.Timeout(env.now, out, items);
        }
        out, items := PushOut(env.now, out, items);
      }
    }

    /** Second part, tcp_keepalive: ask a peer that has been silent too long, and give up on one that does
        not answer. */
    method KeepAlive(env: Env) returns (gone: bool, out: seq<Segment>, ghost items: seq<Item>)
      requires Valid()
      modifies this`rcvAdv, this`keepSent, snd`t, snd`view
      ensures Told(old(rcvAdv), out, rcvShift, rcvAdv)
      ensures Valid() && snd.base == old(snd.base)
      ensures Performs(old(View()), snd.base, if gone then Call.Drop else Probe, env, View(), items, out)
      ensures gone ==> old(keepSent) >= keepCnt && items == [Rst(old(View()).snd.nxt, false)]
      ensures keepSent == old(keepSent) + if !gone && items != [] then 1 else 0
    {
      snd.Fields();
      hide Receiver.Valid, Sender.Valid, SndInv, Wire, Stamped, Encoded;
      NothingOut(snd.base);
      var packets: seq<Packet>;
      packets, items, gone := [], [], false;
      if keepalive && (snd.t.state == Established || snd.t.state == CloseWait) && snd.t.sndUna == snd.t.sndNxt
         && env.now >= lastRx + (keepIdle + keepSent * keepIntvl) * 1000 {
        if keepSent >= keepCnt {
          packets, items := Reset(false, env);
          gone := true;
        } else {
          keepSent := keepSent + 1;
          packets, items := Ask();
        }
      }
      out := Flush(packets, items);
    }

    /** An ack one short of what was sent, which the peer must answer. */
    method Ask() returns (out: seq<Packet>, ghost items: seq<Item>)
      requires Valid()
      ensures Encoded(snd.base, items, out) && items == [Ack(View().snd.nxt - 1)]
    {
      snd.Fields();
      hide Receiver.Valid, Sender.Valid, Wire, Encoded, Encode;
      WireShift(snd.base, snd.view.nxt, -1);
      EncodeBare(snd.base, snd.view.nxt - 1);
      out, items := One(Add32(snd.t.sndNxt, -1), KAck, snd.base, Ack(snd.view.nxt - 1));
    }

    /** Last part: TIME_WAIT is over, or the peer has taken too long over a connection whose socket is gone. */
    method Expire(env: Env) returns (gone: bool, out: seq<Segment>, ghost items: seq<Item>)
      requires Valid() && (detached ==> snd.t.state !in {Listen, SynSent})
      modifies this`rcvAdv, snd`t, snd`view
      ensures Told(old(rcvAdv), out, rcvShift, rcvAdv)
      ensures Valid() && snd.base == old(snd.base)
      ensures gone ==> Performs(old(View()), snd.base, Call.Drop, env, View(), items, out)
      ensures !gone ==> View() == old(View()) && out == []
      ensures gone <==> doneAt <= env.now && (old(snd.view.state) == TimeWait
                                              || (detached && doneAt > 0 && old(snd.view.state) != Closed))
    {
      snd.Fields();
      hide Receiver.Valid, Sender.Valid, Called, Encoded;
      NothingOut(snd.base);
      var packets: seq<Packet>;
      packets, items, gone := [], [], false;
      if snd.t.state == TimeWait && env.now >= doneAt {
        CloseNow(env);
        gone := true;
      } else if detached && snd.t.state != Closed && doneAt > 0 && env.now >= doneAt {
        packets, items := Reset(true, env);
        gone := true;
      }
      out := Flush(packets, items);
    }
  }

  /** On the numbers: the peer has less than a quarter of the buffer left of the window last announced, and could be
      told of two whole segments more. */
  predicate WorthTelling(nxt: u32, adv: u32, room: nat) {
    Sub32(adv, nxt) < RX_BUF / 4 && SignedSub(Add32(nxt, room), adv) >= 2 * TCP_MSS
  }

  /** And on the positions they stand for, while the reader is not past the window announced. */
  lemma TellsOf(base: u32, nxt: int, adv: int, room: nat)
    requires nxt <= adv <= nxt + RX_BUF && room <= RX_BUF
    ensures WorthTelling(Wire(base, nxt), Wire(base, adv), room) <==>
      adv - nxt < RX_BUF / 4 && nxt + room - adv >= 2 * TCP_MSS
  {
    WireSub(base, adv, nxt);
    WireShift(base, nxt, room);
    WireSub(base, nxt + room, adv);
    hide Wire, Sub32, Add32;
  }

  lemma ReadsIs(e: End, len: nat, e': End, bytes: seq<byte>)
    requires |bytes| == Min(len, e.rcv.data - e.rcv.read)
    requires forall p | e.rcv.read <= p < e.rcv.read + |bytes| ::
      p in e.rcv.known
      && bytes[p - e.rcv.read] == e.rcv.known[p]
    requires e' == e.(rcv := AfterRead(e.rcv, |bytes|), got := e.got + bytes)
    ensures Reads(e, len, e', [])
  {
    hide AfterRead;
  }

  lemma ReadsAndTells(e: End, len: nat, e': End, items: seq<Item>)
    requires Reads(e, len, e', []) && |e.got| < |e'.got|
    requires items == [] || (items == [Ack(e'.snd.nxt)] && e'.snd.state != Closed)
    ensures Reads(e, len, e', items)
  {}

  lemma NothingOut(base: u32)
    ensures Encoded(base, [], [])
  {}

  const KEEP_IDLE_S: nat := 7200
  const KEEP_INTVL_S: nat := 75
  const KEEP_CNT: nat := 9
  const TIMEWAIT_MS: nat := 2000
  const LINGER_MS: nat := 30000

  /** A 32-bit difference read as a signed number. */
  function SignedSub(a: u32, b: u32): int {
    if Sub32(a, b) < TWO31 then Sub32(a, b) else Sub32(a, b) - TWO32
  }

  lemma AckedEndState(e: End, g: Seg, env: Env)
    requires PeerFinState(e)
    ensures var e' := AckedEnd(e, g, env); PeerFinState(e') && e'.rcv == e.rcv
  {
    var window, bare := Shl(g.window, e.sndShift), g.data == [] && !g.fin;
    AckStates(e.snd, Wire(e.peer, g.pos), g.ack, window, bare, env.rtoBase, env.now);
    hide TcpSendSpec.GotAck, Wire, Shl;
  }

  lemma Greeting(e: End, g: Seg, env: Env, e': End, out: seq<Item>)
    requires g.isAck && g.ack == e.snd.nxt && !g.rst && g.syn
    requires e' == e.(snd := SynAcked(e.snd, env.mss, g.window, Wire(e'.peer, g.pos)), rcv := FRESH, peer := e'.peer,
                      sndShift := env.sndShift, rcvShift := env.rcvShift)
    requires out == [Ack(e.snd.nxt)]
    ensures SynSentInput(e, g, env, e', out)
  {}

  lemma SynNumber(irs: u32)
    ensures Wire(Add32(irs, 1), -1) == irs
  {
    WireShift(Add32(irs, 1), 0, -1);
  }

  lemma HalfOpenNumbers(pos: int, r: Rcv, rbase: u32, num: u32, ack: int, s: Snd, sbase: u32, ackNum: u32)
    requires pos == Unwrap(rbase, Nxt(r), num) && ack == UnwrapUp(sbase, s.nxt, ackNum)
    requires SndInv(s) && s.state == SynRcvd
    ensures num == Wire(rbase, Nxt(r)) <==> pos == Nxt(r)
    ensures Add32(num, 1) == Wire(rbase, Nxt(r)) <==> pos + 1 == Nxt(r)
    ensures ackNum == Wire(sbase, s.nxt) <==> ack == s.nxt
    ensures Wire(sbase, ack) == ackNum && s.una == -1
  {
    hide Wire, SeqLt, SeqLeq, Unwrap, UnwrapUp, Add32;
    WireCompare(rbase, pos, Nxt(r));
    WireShift(rbase, pos, 1);
    WireCompare(rbase, pos + 1, Nxt(r));
    WireCompare(sbase, ack, s.nxt);
  }

  lemma ResetNumbers(pos: int, r: Rcv, base: u32, num: u32)
    requires pos == Unwrap(base, Nxt(r), num) && 0 <= Room(r) <= RX_BUF
    ensures var win := if Room(r) > 0 then Room(r) else 1;
      var nxt := Wire(base, Nxt(r));
      (num == nxt || (SeqLeq(nxt, num) && SeqLt(num, Add32(nxt, win))))
        <==> (pos == Nxt(r) || Nxt(r) <= pos < Nxt(r) + win)
  {
    var win := if Room(r) > 0 then Room(r) else 1;
    hide Wire, SeqLt, SeqLeq, Unwrap, Add32;
    WireCompare(base, Nxt(r), pos);
    WireShift(base, Nxt(r), win);
    WireCompare(base, pos, Nxt(r) + win);
  }
}
