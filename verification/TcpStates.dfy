/** The states of a connection over whole runs (section 3.3.2 of RFC 9293), and what becomes of a
    connection whose peer has gone silent. */
module TcpStates {
  import opened TcpSeq
  import opened TcpSendSpec
  import opened TcpSendFacts
  import opened TcpReceiver
  import opened TcpEndpoint
  import opened TcpStream

  // ---------------------------------------------------------------- the state table

  /** What is true of the two FINs in each synchronised state. */
  function TableState(finSent: bool, finAcked: bool, peerFin: bool): State {
    if !finSent then (if peerFin then CloseWait else Established)
    else if !finAcked then (if peerFin then Closing else FinWait1)
    else (if peerFin then TimeWait else FinWait2)
  }

  predicate InTable(e: End) {
    Synced(e.snd.state) ==>
      var st := TableState(e.snd.finSent, e.snd.una == e.snd.nxt, e.rcv.peerFin);
      e.snd.state == st || (e.snd.state == LastAck && st == Closing)
  }

  /** In every state of every run each end's state is the one its FINs dictate; a connection whose
      peer closed first waits in LAST_ACK where one that closed first waits in CLOSING. */
  lemma StateTable(run: seq<World>, n: nat)
    requires Run(run) && n < |run|
    ensures InTable(run[n].a) && InTable(run[n].b)
  {
    RunSafe(run, n);
    hide Safe, Positions, Recovering, Timed;
  }

  // ---------------------------------------------------------------- the edges of one step

  /** Our FIN is acked. */
  predicate AckEdge(s: State, t: State) {
    (s == FinWait1 && t == FinWait2) || (s == Closing && t == TimeWait) || (s == LastAck && t == Closed)
  }

  /** The peer's FIN is taken. */
  predicate FinEdge(s: State, t: State) {
    (s == Established && t == CloseWait) || (s == FinWait1 && t == Closing) || (s == FinWait2 && t == TimeWait)
  }

  /** Our FIN is sent. */
  predicate PushEdge(s: State, t: State) {
    (s == Established && t == FinWait1) || (s == CloseWait && t == LastAck)
  }

  /** From s to t along one edge of each kind, in this order, for each of the three things that happened; nothing leads
      on from CLOSED. */
  ghost predicate Along(s: State, acked: bool, took: bool, sent: bool, t: State) {
    exists u, v :: Via(s, acked, u, took, v, sent, t)
  }

  predicate Via(s: State, acked: bool, u: State, took: bool, v: State, sent: bool, t: State) {
    && (if acked then AckEdge(s, u) else u == s)
    && (if took then FinEdge(u, v) else v == u)
    && (if sent then PushEdge(v, t) else t == v)
  }

  /** The segment acks our FIN. */
  predicate FinAck(e: End, g: Seg) {
    g.isAck && e.snd.finSent && e.snd.una < g.ack == e.snd.nxt
  }

  predicate PeerFins(e: End, e': End) { e'.rcv.peerFin && !e.rcv.peerFin }

  predicate OwnFins(e: End, e': End) { e'.snd.finSent && !e.snd.finSent }

  /** What a segment that is no reset makes of a synchronised state. */
  ghost predicate SyncedWalk(e: End, g: Seg, e': End) {
    if g.isAck && e.snd.nxt < g.ack then e'.snd.state == e.snd.state
    else if Unwanted(e, g) then e'.snd.state == Closed
    else Along(e.snd.state, FinAck(e, g), PeerFins(e, e'), OwnFins(e, e'), e'.snd.state)
  }

  /** The ack that ends a child's handshake, with memory for its rings. */
  predicate Completes(e: End, g: Seg, env: Env) {
    !g.rst && !(g.syn && g.pos + 1 == Nxt(e.rcv)) && g.isAck && g.ack == e.snd.nxt && env.rings
  }

  /** A child is dropped: reset in order, or no memory for its rings. */
  predicate Dropped(e: End, g: Seg, env: Env) {
    if g.rst then g.pos == Nxt(e.rcv)
    else !(g.syn && g.pos + 1 == Nxt(e.rcv)) && g.isAck && g.ack == e.snd.nxt && !env.rings
  }

  /** What a segment makes of any state. */
  ghost predicate Walk(e: End, g: Seg, env: Env, e': End) {
    var t := e'.snd.state;
    match e.snd.state
    case Closed => t == Closed
    case Listen => t == if g.syn && !g.isAck && !g.rst then SynRcvd else Listen
    case SynSent =>
      t == if !g.isAck || g.ack != e.snd.nxt then SynSent else if g.rst then Closed else if g.syn then Established
        else SynSent
    case SynRcvd =>
      if Completes(e, g, env) then SyncedWalk(e.(snd := Connected(e.snd), rcvShift := env.rcvShift), g, e')
      else t == if Dropped(e, g, env) then Closed else SynRcvd
    case _ => if g.rst then t == (if ResetFits(e, g) then Closed else e.snd.state) else SyncedWalk(e, g, e')
  }

  /** Which events an ack, data and a push are, and the edge each takes. */
  lemma AckTakes(s: Snd, seg: u32, ack: int, window: nat, bare: bool, rtoBase: nat, now: nat)
    requires SndInv(s) && Synced(s.state)
    ensures var s' := GotAck(s, seg, ack, window, bare, rtoBase, now);
      && s'.finSent == s.finSent
      && if s.finSent && s.una < ack == s.nxt then AckEdge(s.state, s'.state) else s'.state == s.state
  {
    hide SeqLeq, CcAcked, Unprobe, Recovering, Timed;
    if s.una < ack {
      CcFin(Advance(s, ack, rtoBase, now), ack - s.una, ack);
    }
    var s1 := if s.una < ack <= s.nxt then Acked(s, ack, rtoBase, now)
              else if ack == s.una && bare && window == s.wnd && s.una != s.nxt then CcDupack(s) else s;
    UnprobeFin(s1, ack, window);
  }

  lemma CcFin(s: Snd, acked: nat, a: int)
    ensures var s' := CcAcked(s, acked, a); s'.state == s.state && s'.finSent == s.finSent && s'.nxt == s.nxt
  {
    hide Additive;
  }

  lemma UnprobeFin(s: Snd, a: int, window: nat)
    ensures var s' := Unprobe(s, a, window); s'.state == s.state && s'.finSent == s.finSent
  {}

  lemma PushTakes(s: Snd, now: nat, items: seq<Item>)
    requires SndInv(s) && ItemsOk(s, items)
    ensures var s' := Push(s, now, items).0;
      && (s.finSent ==> s'.finSent)
      && if s'.finSent && !s.finSent then PushEdge(s.state, s'.state) else s'.state == s.state
  {
    PushRecoveryKeeps(s, items);
    var (s1, items1) := PushRecovery(s, items);
    if s1.state in {Established, CloseWait} {
      PushDataKeeps(s1, Min(s1.wnd, s1.cwnd), now, items1);
    }
    hide SndInv, ItemsOk, PushData;
  }

  /** The middle of tcp_input: at most one ack edge, then at most one of the peer's FIN. */
  lemma MiddleTakes(e: End, g: Seg, env: Env, mid: End) returns (u: State)
    requires EndInv(e) && Synced(e.snd.state) && TakeAckAndData(e, g, env, mid)
    ensures if FinAck(e, g) then AckEdge(e.snd.state, u) else u == e.snd.state
    ensures if PeerFins(e, mid) then FinEdge(u, mid.snd.state) else mid.snd.state == u
    ensures mid.snd.finSent == e.snd.finSent
  {
    var window, bare := Shl(g.window, e.sndShift), g.data == [] && !g.fin;
    AckTakes(e.snd, Wire(e.peer, g.pos), g.ack, window, bare, env.rtoBase, env.now);
    hide GotAck, Wire, Shl, Absorb, SndInv;
    u := AckedEnd(e, g, env).snd.state;
  }

  lemma SyncedTakes(e: End, g: Seg, env: Env, e': End, out: seq<Item>)
    requires EndInv(e) && Synced(e.snd.state) && env.rtoBase >= 1 && SyncedInput(e, g, env, e', out)
    ensures SyncedWalk(e, g, e')
  {
    hide EndInv, Push, Absorb, SeqLt, TakeAckAndData, Wire;
    if !(g.isAck && e.snd.nxt < g.ack) && !Unwanted(e, g) {
      var answer := g.data != [] || g.fin || g.syn;
      var mid :| TakeAckAndData(e, g, env, mid) && Answers(mid, answer, env.now, e', out);
      var u := MiddleTakes(e, g, env, mid);
      MiddleKeeps(e, g, env, mid);
      if mid.snd.state != Closed {
        KeepsInv(e, mid);
        InvOf(mid);
        NoItems(mid.snd);
        PushTakes(mid.snd, env.now, []);
      }
      assert Via(e.snd.state, FinAck(e, g), u, PeerFins(e, e'), mid.snd.state, OwnFins(e, e'), e'.snd.state);
    }
  }

  lemma InvOf(e: End)
    requires EndInv(e)
    ensures SndInv(e.snd)
  {}

  /** Whatever arrives, the state is the one the three things a segment can bring about lead to, one edge each; and it
      is closed exactly by a reset, by unwanted data, for want of rings, or by the ack of the last FIN. */
  lemma InputWalk(e: End, g: Seg, env: Env, e': End, out: seq<Item>)
    requires EndInv(e) && env.rtoBase >= 1 && Input(e, g, env, e', out)
    ensures Walk(e, g, env, e')
  {
    hide SyncedInput, Wire, SyncedWalk;
    match e.snd.state
    case SynRcvd =>
      if Completes(e, g, env) {
        ConnectedKeeps(e.(rcvShift := env.rcvShift));
        SyncedTakes(e.(snd := Connected(e.snd), rcvShift := env.rcvShift), g, env, e', out);
      }
    case Closed | Listen | SynSent =>
    case _ =>
      if !g.rst {
        SyncedTakes(e, g, env, e', out);
      }
  }

  /** What a call makes of a state: the edge of our FIN if it sends it, CLOSED if the timer gives up or the connection
      is dropped, and nothing else. */
  ghost predicate CallWalks(e: End, c: Call, now: nat, e': End) {
    var t := e'.snd.state;
    if c == Drop || (c == Tick && GivesUp(e.snd, now)) then t == Closed
    else if OwnFins(e, e') then PushEdge(e.snd.state, t)
    else t == e.snd.state
  }

  lemma CallWalk(e: End, c: Call, env: Env, e': End, out: seq<Item>)
    requires EndInv(e) && Called(e, c, env, e', out)
    ensures CallWalks(e, c, env.now, e')
  {
    hide Push, Timeout, EndInv, GivesUp;
    NoItems(e.snd);
    match c
    case Send(data) =>
      if e.snd.state in {Established, CloseWait} && !e.snd.finWanted {
        WriteKeeps(e, data);
        PushAlone(e, e.(snd := Accept(e.snd, data)), env.now);
      }
    case Shutdown =>
      if Synced(e.snd.state) && !e.snd.finWanted {
        FinWantedKeeps(e, e.detached);
        PushAlone(e, e.(snd := e.snd.(finWanted := true)), env.now);
      }
    case Detach =>
      if Synced(e.snd.state) && e.snd.state != TimeWait {
        FinWantedKeeps(e, true);
        PushAlone(e, e.(detached := true, snd := e.snd.(finWanted := true)), env.now);
      }
    case Tick => TickWalk(e, env, e', out);
    case _ =>
  }

  lemma PushAlone(e: End, mid: End, now: nat)
    requires Keeps(e, mid, [])
    ensures var s' := Push(mid.snd, now, []).0;
      if s'.finSent && !mid.snd.finSent then PushEdge(mid.snd.state, s'.state) else s'.state == mid.snd.state
  {
    hide SndInv, Push;
    NoItems(mid.snd);
    PushTakes(mid.snd, now, []);
  }

  lemma TickWalk(e: End, env: Env, e': End, out: seq<Item>)
    requires EndInv(e) && Called(e, Tick, env, e', out)
    ensures CallWalks(e, Tick, env.now, e')
  {
    if e.snd.state !in {Closed, Listen} {
      DueKeeps(e, env.now);
      InvOf(e);
      TimeoutTakes(e.snd, env.now);
      hide Push, Timeout, EndInv, ItemsOk, GivesUp;
      var (s, items) := if Due(e.snd, env.now) then Timeout(e.snd, env.now, []) else (e.snd, []);
      InvOf(e.(snd := s));
      PushTakes(s, env.now, items);
    }
  }

  /** A timeout closes the connection, or leaves state and FIN alone. */
  lemma TimeoutTakes(s: Snd, now: nat)
    requires SndInv(s) && s.state !in {Closed, Listen}
    ensures var s' := Timeout(s, now, []).0;
      && s'.finSent == s.finSent
      && (Due(s, now) ==> s'.state == if GivesUp(s, now) then Closed else s.state)
      && (!Due(s, now) ==> !GivesUp(s, now))
  {}

  // ---------------------------------------------------------------- states over runs

  /** How far along a connection is. */
  function Rank(s: State): nat {
    match s
    case Listen => 0
    case SynSent | SynRcvd => 1
    case Established => 2
    case FinWait1 | CloseWait => 3
    case FinWait2 | Closing | LastAck => 4
    case TimeWait => 5
    case Closed => 6
  }

  predicate Forward(s: State, t: State) { s == t || Rank(s) < Rank(t) }

  lemma WalkForward(e: End, g: Seg, env: Env, e': End)
    requires Walk(e, g, env, e')
    ensures Forward(e.snd.state, e'.snd.state)
  {
    hide Unwanted, ResetFits, FinAck, Wire;
    match e.snd.state
    case SynRcvd =>
      if Completes(e, g, env) {
        SyncedForward(e.(snd := Connected(e.snd), rcvShift := env.rcvShift), g, e');
      }
    case Closed | Listen | SynSent =>
    case _ =>
      if !g.rst {
        SyncedForward(e, g, e');
      }
  }

  lemma SyncedForward(e: End, g: Seg, e': End)
    requires SyncedWalk(e, g, e')
    ensures Forward(e.snd.state, e'.snd.state)
  {
    hide Unwanted, FinAck;
  }

  lemma MoveForward(from: set<Seg>, e: End, e': End, out: seq<Item>)
    requires EndInv(e) && Moves(from, e, e', out)
    ensures Forward(e.snd.state, e'.snd.state)
  {
    hide EndInv, Input, Called, Walk, Recent;
    if g, env: Env :| Arrives(from, e, g) && env.rtoBase >= 1 && env.mss >= 1 && Input(e, g, env, e', out) {
      InputWalk(e, g, env, e', out);
      WalkForward(e, g, env, e');
    } else {
      var c, env :| Called(e, c, env, e', out);
      CallWalk(e, c, env, e', out);
    }
  }

  lemma StepForward(w: World, w': World)
    requires WorldInv(w) && Step(w, w')
    ensures Forward(w.a.snd.state, w'.a.snd.state) && Forward(w.b.snd.state, w'.b.snd.state)
  {
    hide Safe, EndInv, Moves, Segs;
    var e, out :|
      || (Moves(w.fromA, w.b, e, out) && w' == w.(b := e, fromB := w.fromB + Segs(e, out)))
      || (Moves(w.fromB, w.a, e, out) && w' == w.(a := e, fromA := w.fromA + Segs(e, out)));
    if Moves(w.fromA, w.b, e, out) && w' == w.(b := e, fromB := w.fromB + Segs(e, out)) {
      MoveForward(w.fromA, w.b, e, out);
    } else {
      MoveForward(w.fromB, w.a, e, out);
    }
  }

  /** No connection is ever in a state again that it has left, and none leaves CLOSED. */
  lemma {:induction false} NeverBack(run: seq<World>, i: nat, j: nat)
    requires Run(run) && i <= j < |run|
    ensures Forward(run[i].a.snd.state, run[j].a.snd.state) && Forward(run[i].b.snd.state, run[j].b.snd.state)
    decreases j - i
  {
    hide WorldInv, Step, Init;
    if i < j {
      NeverBack(run, i, j - 1);
      RunSafe(run, j - 1);
      StepForward(run[j - 1], run[j]);
    }
  }

  // ---------------------------------------------------------------- whoever waits has the timer running

  /** Something is owed an answer: a SYN, unacked bytes, or a shut window with data behind it. */
  predicate Waiting(s: Snd) {
    Handshaking(s) || (Synced(s.state) && (s.una < s.nxt || (TxLen(s) > 0 && s.wnd == 0)))
  }

  predicate Armed(s: Snd) { Waiting(s) ==> s.rtoAt > 0 }

  /** After every push whoever waits has the timer running, be it for a shut window only. */
  lemma PushArms(s: Snd, now: nat, items: seq<Item>)
    requires SndInv(s) && ItemsOk(s, items)
    ensures Armed(Push(s, now, items).0)
  {
    PushKeeps(s, now, items);
    var s' := Push(s, now, items).0;
    PushRecoveryKeeps(s, items);
    var (s1, items1) := PushRecovery(s, items);
    if s1.state in {Established, CloseWait} {
      PushDataKeeps(s1, Min(s1.wnd, s1.cwnd), now, items1);
      hide ItemsOk, PushData, PushRecovery, Recovering;
    } else {
      hide ItemsOk, PushData, PushRecovery, Recovering;
    }
  }

  lemma InputArms(e: End, g: Seg, env: Env, e': End, out: seq<Item>)
    requires EndInv(e) && Armed(e.snd) && env.rtoBase >= 1 && Input(e, g, env, e', out)
    ensures Armed(e'.snd)
  {
    hide SyncedInput, Wire;
    match e.snd.state
    case SynRcvd =>
      if Completes(e, g, env) {
        ConnectedKeeps(e.(rcvShift := env.rcvShift));
        SyncedArms(e.(snd := Connected(e.snd), rcvShift := env.rcvShift), g, env, e', out);
      }
    case Closed | Listen | SynSent =>
    case _ =>
      if !g.rst {
        SyncedArms(e, g, env, e', out);
      }
  }

  lemma SyncedArms(e: End, g: Seg, env: Env, e': End, out: seq<Item>)
    requires EndInv(e) && Synced(e.snd.state) && Armed(e.snd) && env.rtoBase >= 1 && SyncedInput(e, g, env, e', out)
    ensures Armed(e'.snd)
  {
    hide EndInv, Push, SeqLt, TakeAckAndData, Wire, TxLen;
    if !(g.isAck && e.snd.nxt < g.ack) && !Unwanted(e, g) {
      var answer := g.data != [] || g.fin || g.syn;
      var mid :| TakeAckAndData(e, g, env, mid) && Answers(mid, answer, env.now, e', out);
      MiddleKeeps(e, g, env, mid);
      if mid.snd.state != Closed {
        KeepsInv(e, mid);
        InvOf(mid);
        NoItems(mid.snd);
        PushArms(mid.snd, env.now, []);
      }
    }
  }

  lemma CallArms(e: End, c: Call, env: Env, e': End, out: seq<Item>)
    requires EndInv(e) && Armed(e.snd) && Called(e, c, env, e', out)
    ensures Armed(e'.snd)
  {
    hide Push, Timeout, EndInv, TxLen;
    match c
    case Send(data) =>
      if e.snd.state in {Established, CloseWait} && !e.snd.finWanted {
        WriteKeeps(e, data);
        PushAfterArms(e, e.(snd := Accept(e.snd, data)), env.now);
      }
    case Shutdown =>
      if Synced(e.snd.state) && !e.snd.finWanted {
        FinWantedKeeps(e, e.detached);
        PushAfterArms(e, e.(snd := e.snd.(finWanted := true)), env.now);
      }
    case Detach =>
      if Synced(e.snd.state) && e.snd.state != TimeWait {
        FinWantedKeeps(e, true);
        PushAfterArms(e, e.(detached := true, snd := e.snd.(finWanted := true)), env.now);
      }
    case Tick =>
      if e.snd.state !in {Closed, Listen} {
        DueKeeps(e, env.now);
        var (s, items) := if Due(e.snd, env.now) then Timeout(e.snd, env.now, []) else (e.snd, []);
        InvOf(e.(snd := s));
        hide ItemsOk;
        PushArms(s, env.now, items);
      }
    case _ =>
  }

  lemma PushAfterArms(e: End, mid: End, now: nat)
    requires Keeps(e, mid, [])
    ensures Armed(Push(mid.snd, now, []).0)
  {
    NoItems(mid.snd);
    PushArms(mid.snd, now, []);
  }

  lemma MoveArms(from: set<Seg>, e: End, e': End, out: seq<Item>)
    requires EndInv(e) && Armed(e.snd) && Moves(from, e, e', out)
    ensures Armed(e'.snd)
  {
    hide EndInv, Input, Called, Recent, Armed;
    if g, env: Env :| Arrives(from, e, g) && env.rtoBase >= 1 && env.mss >= 1 && Input(e, g, env, e', out) {
      InputArms(e, g, env, e', out);
    } else {
      var c, env :| Called(e, c, env, e', out);
      CallArms(e, c, env, e', out);
    }
  }

  lemma StepArms(w: World, w': World)
    requires WorldInv(w) && Armed(w.a.snd) && Armed(w.b.snd) && Step(w, w')
    ensures Armed(w'.a.snd) && Armed(w'.b.snd)
  {
    hide Safe, EndInv, Moves, Segs, Armed;
    var e, out :|
      || (Moves(w.fromA, w.b, e, out) && w' == w.(b := e, fromB := w.fromB + Segs(e, out)))
      || (Moves(w.fromB, w.a, e, out) && w' == w.(a := e, fromA := w.fromA + Segs(e, out)));
    if Moves(w.fromA, w.b, e, out) && w' == w.(b := e, fromB := w.fromB + Segs(e, out)) {
      MoveArms(w.fromA, w.b, e, out);
    } else {
      MoveArms(w.fromB, w.a, e, out);
    }
  }

  /** In every state of every run, an end that waits for an answer has its timer running. */
  lemma {:induction false} AlwaysArmed(run: seq<World>, n: nat)
    requires Run(run) && n < |run|
    ensures Armed(run[n].a.snd) && Armed(run[n].b.snd)
  {
    if n > 0 {
      AlwaysArmed(run, n - 1);
      RunSafe(run, n - 1);
      hide WorldInv, Step, Init, Armed;
      StepArms(run[n - 1], run[n]);
    }
  }

  // ---------------------------------------------------------------- a silent peer

  function Patience(s: Snd): nat {
    if Handshaking(s) then SYN_RETRIES else RETRIES
  }

  /** The timer has run out by now. */
  predicate Due(s: Snd, now: nat) { s.state !in {Closed, Listen} && 0 < s.rtoAt <= now }

  predicate GivesUp(s: Snd, now: nat) { Due(s, now) && Waiting(s) && s.retries >= Patience(s) }

  datatype Event = Event(call: Call, env: Env)

  /** A stretch of calls and ticks in which nothing arrives: e[i + 1] is what the i-th of them makes of e[i]. */
  ghost predicate Quiet(es: seq<End>, vs: seq<Event>) {
    |es| == |vs| + 1 && forall i | 0 <= i < |vs| :: Goes(es[i], vs[i], es[i + 1])
  }

  ghost predicate Goes(e: End, v: Event, e': End) { exists out :: Called(e, v.call, v.env, e', out) }

  predicate DueTick(s: Snd, v: Event) { v.call == Tick && Due(s, v.env.now) }

  /** How many of the first n events were ticks that found the timer run out. */
  function DueTicks(es: seq<End>, vs: seq<Event>, n: nat): nat
    requires n <= |vs| < |es|
  {
    if n == 0 then 0 else DueTicks(es, vs, n - 1) + if DueTick(es[n - 1].snd, vs[n - 1]) then 1 else 0
  }

  /** Who waited still waits with as many retries to go, less one if the timer was due, or has given up. */
  predicate WaitsOn(s: Snd, due: bool, now: nat, s': Snd) {
    s'.state == Closed || (
      && Waiting(s') && Patience(s') == Patience(s) && s'.retries == s.retries + (if due then 1 else 0)
      && (if due then now < s'.rtoAt <= now + RTO_MAX_MS else s.rtoAt > 0 ==> s'.rtoAt == s.rtoAt))
  }

  /** Without an answer whoever waits goes on waiting, and only a due tick counts. */
  lemma QuietStep(e: End, v: Event, e': End)
    requires EndInv(e) && Waiting(e.snd) && Goes(e, v, e')
    ensures EndInv(e') && WaitsOn(e.snd, DueTick(e.snd, v), v.env.now, e'.snd)
  {
    var out :| Called(e, v.call, v.env, e', out);
    CalledKeeps(e, v.call, v.env, e', out);
    hide EndInv;
    if v.call == Tick {
      TickWaits(e, v.env, e', out);
    } else if v.call.Recv? || v.call == Probe || v.call == Drop {
      hide Waiting, Patience, Push;
    } else {
      hide Called, WaitsOn;
      CallWaits(e, v.call, v.env, e', out);
    }
  }

  lemma CallWaits(e: End, c: Call, env: Env, e': End, out: seq<Item>)
    requires EndInv(e) && Waiting(e.snd) && Called(e, c, env, e', out) && (c.Send? || c.Shutdown? || c.Detach?)
    ensures WaitsOn(e.snd, false, env.now, e'.snd)
  {
    InvOf(e);
    hide EndInv, SndInv, Push, Waiting, Patience, Keeps;
    match c
    case Send(data) =>
      if e.snd.state in {Established, CloseWait} && !e.snd.finWanted {
        WriteKeeps(e, data);
        SentWaits(e.snd, data);
        PushWaits(e, e.(snd := Accept(e.snd, data)), env.now);
      }
    case Shutdown =>
      if Synced(e.snd.state) && !e.snd.finWanted {
        FinWantedKeeps(e, e.detached);
        FinWaits(e.snd);
        PushWaits(e, e.(snd := e.snd.(finWanted := true)), env.now);
      }
    case Detach =>
      if Synced(e.snd.state) && e.snd.state != TimeWait {
        FinWantedKeeps(e, true);
        FinWaits(e.snd);
        PushWaits(e, e.(detached := true, snd := e.snd.(finWanted := true)), env.now);
      }
  }

  lemma SentWaits(s: Snd, data: seq<byte>)
    requires SndInv(s) && Waiting(s) && s.state in {Established, CloseWait}
    ensures Waiting(Accept(s, data)) && Patience(Accept(s, data)) == Patience(s)
  {}

  lemma FinWaits(s: Snd)
    requires Waiting(s)
    ensures Waiting(s.(finWanted := true)) && Patience(s.(finWanted := true)) == Patience(s)
  {}

  lemma PushWaits(e: End, mid: End, now: nat)
    requires Keeps(e, mid, []) && Waiting(mid.snd)
    ensures var s' := Push(mid.snd, now, []).0;
      && Waiting(s') && Patience(s') == Patience(mid.snd) && s'.retries == mid.snd.retries
      && (mid.snd.rtoAt > 0 ==> s'.rtoAt == mid.snd.rtoAt)
  {
    NoItems(mid.snd);
    PushHolds(mid.snd, now, []);
    hide SndInv, Push;
  }

  lemma TickWaits(e: End, env: Env, e': End, out: seq<Item>)
    requires EndInv(e) && Waiting(e.snd) && Called(e, Tick, env, e', out)
    ensures WaitsOn(e.snd, Due(e.snd, env.now), env.now, e'.snd)
  {
    assert e.snd.state !in {Closed, Listen};
    hide EndInv, Timeout, Push, ItemsOk, TxLen, SndInv, Waiting, Patience, HeldBy;
    DueKeeps(e, env.now);
    InvOf(e);
    var (s, items) := if Due(e.snd, env.now) then Timeout(e.snd, env.now, []) else (e.snd, []);
    if Due(e.snd, env.now) {
      TimeoutCounts(e.snd, env.now);
      TimeoutWaits(e.snd, s, env.now);
    }
    InvOf(e.(snd := s));
    PushHolds(s, env.now, items);
    HeldOn(e.snd, Due(e.snd, env.now), env.now, s, e'.snd);
  }

  lemma TimeoutWaits(s: Snd, s': Snd, now: nat)
    requires Waiting(s) && s'.state != Closed ==> s'.state == s.state
    requires Waiting(s) && s'.state != Closed && Synced(s.state) ==> s'.una < s'.nxt
    ensures Waiting(s) && s'.state != Closed ==> Waiting(s') && Patience(s') == Patience(s)
  {}

  lemma HeldOn(s: Snd, due: bool, now: nat, mid: Snd, s': Snd)
    requires WaitsOn(s, due, now, mid) && HeldBy(mid, s')
    ensures WaitsOn(s, due, now, s')
  {
    if mid.state != Closed {
      HeldWaits(mid, s');
    }
  }

  lemma TimeoutCounts(s: Snd, now: nat)
    requires SndInv(s) && Waiting(s) && Due(s, now)
    ensures var s1 := Timeout(s, now, []).0;
      if s.retries >= Patience(s) then s1.state == Closed
      else
        && s1.state == s.state && s1.retries == s.retries + 1 && now < s1.rtoAt <= now + RTO_MAX_MS
        && (Synced(s.state) ==> s1.una < s1.nxt)
  {}

  /** Nothing taken back, and a running timer left alone. */
  predicate HeldBy(s: Snd, s': Snd) {
    && s'.una == s.una && s.nxt <= s'.nxt && s'.retries == s.retries && s'.wnd == s.wnd && s'.stream == s.stream
    && (s.rtoAt > 0 ==> s'.rtoAt == s.rtoAt)
    && (Synced(s.state) <==> Synced(s'.state)) && (!Synced(s.state) ==> s'.state == s.state)
  }

  lemma PushHolds(s: Snd, now: nat, items: seq<Item>)
    requires SndInv(s) && ItemsOk(s, items)
    ensures HeldBy(s, Push(s, now, items).0)
  {
    hide SndInv, ItemsOk, PushRecovery, PushData, PushFin, TxLen;
    PushRecoveryKeeps(s, items);
    var (s1, items1) := PushRecovery(s, items);
    if s1.state in {Established, CloseWait} {
      PushDataKeeps(s1, Min(s1.wnd, s1.cwnd), now, items1);
      PushDataTimer(s1, Min(s1.wnd, s1.cwnd), now, items1);
      var (s2, items2) := PushData(s1, Min(s1.wnd, s1.cwnd), now, items1);
      FinHolds(s2, now, items2);
    }
  }

  lemma FinHolds(s: Snd, now: nat, items: seq<Item>)
    requires s.state in {Established, CloseWait}
    ensures HeldBy(s, PushFin(s, now, items).0)
  {
    hide TxLen;
  }

  lemma HeldWaits(s: Snd, s': Snd)
    requires Waiting(s) && HeldBy(s, s')
    ensures Waiting(s') && Patience(s') == Patience(s)
  {}

  lemma {:induction false} PushDataTimer(s: Snd, wnd: nat, now: nat, out: seq<Item>)
    ensures s.rtoAt > 0 ==> PushData(s, wnd, now, out).0.rtoAt == s.rtoAt
    decreases OUT_MAX - |out|
  {
    var n := SegSize(s, wnd);
    if |out| < OUT_MAX && n > 0 {
      PushDataTimer(Sent(s, n, now), wnd, now, Emit(out, Data(s.nxt, Slice(s, s.nxt, n))));
    }
  }

  lemma ClosedStays(e: End, v: Event, e': End)
    requires EndInv(e) && e.snd.state == Closed && Goes(e, v, e')
    ensures EndInv(e') && e'.snd.state == Closed
  {
    var out :| Called(e, v.call, v.env, e', out);
    CalledKeeps(e, v.call, v.env, e', out);
  }

  /** Nothing but due ticks has been counted. */
  lemma {:induction false} QuietCount(es: seq<End>, vs: seq<Event>, n: nat)
    requires Quiet(es, vs) && n <= |vs| && EndInv(es[0]) && Waiting(es[0].snd)
    ensures EndInv(es[n])
    ensures es[n].snd.state == Closed || (
      && Waiting(es[n].snd) && Patience(es[n].snd) == Patience(es[0].snd)
      && es[n].snd.retries == es[0].snd.retries + DueTicks(es, vs, n))
  {
    hide EndInv, Goes, Waiting, DueTick, Patience;
    if n > 0 {
      QuietCount(es, vs, n - 1);
      assert Goes(es[n - 1], vs[n - 1], es[n - 1 + 1]);
      if es[n - 1].snd.state == Closed {
        ClosedStays(es[n - 1], vs[n - 1], es[n]);
      } else {
        QuietStep(es[n - 1], vs[n - 1], es[n]);
      }
    }
  }

  lemma RetriesBound(e: End)
    requires EndInv(e) && Waiting(e.snd)
    ensures e.snd.retries <= Patience(e.snd)
  {}

  /** A peer that never answers: whatever the socket's owner does meanwhile and however many ticks find the timer still
      running, the connection is closed once one tick more than it has retries left has found it run out. */
  lemma SilentPeer(es: seq<End>, vs: seq<Event>)
    requires Quiet(es, vs) && EndInv(es[0]) && Waiting(es[0].snd)
    requires es[0].snd.retries + DueTicks(es, vs, |vs|) > Patience(es[0].snd)
    ensures es[|vs|].snd.state == Closed
  {
    hide EndInv, Waiting, Patience;
    QuietCount(es, vs, |vs|);
    if es[|vs|].snd.state != Closed {
      RetriesBound(es[|vs|]);
    }
  }

  // ---------------------------------------------------------------- and when that is

  /** The latest the timer can run out for good, with ticks at most `gap` apart. */
  function LastCall(s: Snd, gap: nat): int {
    s.rtoAt + (Patience(s) - s.retries) * (RTO_MAX_MS + gap)
  }

  /** Ticks keep coming: `was` is when the one before the first event came, and each comes at most `gap` after
      the last. */
  predicate Ticking(vs: seq<Event>, was: nat, gap: nat)
    decreases |vs|
  {
    vs == [] ||
      if vs[0].call == Tick then was <= vs[0].env.now <= was + gap && Ticking(vs[1..], vs[0].env.now, gap)
      else Ticking(vs[1..], was, gap)
  }

  /** When the last tick came. */
  function LastTick(vs: seq<Event>, was: nat): nat
    decreases |vs|
  {
    if vs == [] then was else LastTick(vs[1..], if vs[0].call == Tick then vs[0].env.now else was)
  }

  lemma LastCallStep(s: Snd, s': Snd, gap: nat, was: nat, now: nat)
    requires Patience(s') == Patience(s) >= s'.retries == s.retries + 1
    requires was < s.rtoAt <= now <= was + gap && s'.rtoAt <= now + RTO_MAX_MS
    ensures LastCall(s', gap) <= LastCall(s, gap)
  {
    var d := RTO_MAX_MS + gap;
    assert (Patience(s) - s.retries) * d == (Patience(s') - s'.retries) * d + d;
  }

  lemma LastCallLater(s: Snd, gap: nat)
    requires s.retries <= Patience(s)
    ensures s.rtoAt <= LastCall(s, gap)
  {
    assert (Patience(s) - s.retries) * (RTO_MAX_MS + gap) >= 0;
  }

  /** So a connection whose peer has gone is closed by then: with ticks at most `gap` milliseconds apart the wait is at
      most (RTO_MAX_MS + gap) for each retry left, after the time the timer is set for. */
  lemma {:induction false} SilentPeerInTime(es: seq<End>, vs: seq<Event>, was: nat, gap: nat)
    requires Quiet(es, vs) && EndInv(es[0]) && Waiting(es[0].snd) && Ticking(vs, was, gap)
    requires was < es[0].snd.rtoAt && LastCall(es[0].snd, gap) <= LastTick(vs, was)
    ensures es[|vs|].snd.state == Closed
    decreases |vs|
  {
    hide EndInv, Goes, Waiting, Patience, LastCall;
    RetriesBound(es[0]);
    LastCallLater(es[0].snd, gap);
    if vs != [] {
      assert Goes(es[0], vs[0], es[0 + 1]);
      QuietStep(es[0], vs[0], es[1]);
      assert Quiet(es[1..], vs[1..]) by {
        forall i | 0 <= i < |vs[1..]| ensures Goes(es[1..][i], vs[1..][i], es[1..][i + 1]) {
          assert Goes(es[i + 1], vs[i + 1], es[i + 1 + 1]);
        }
      }
      if es[1].snd.state == Closed {
        StaysClosed(es[1..], vs[1..]);
      } else {
        NextCall(es[0], es[1], vs[0], was, gap);
        SilentPeerInTime(es[1..], vs[1..], if vs[0].call == Tick then vs[0].env.now else was, gap);
      }
    }
  }

  lemma NextCall(e: End, e': End, v: Event, was: nat, gap: nat)
    requires EndInv(e) && Waiting(e.snd) && EndInv(e') && Waiting(e'.snd) && Patience(e'.snd) == Patience(e.snd)
    requires e'.snd.retries == e.snd.retries + (if DueTick(e.snd, v) then 1 else 0)
    requires if DueTick(e.snd, v) then v.env.now < e'.snd.rtoAt <= v.env.now + RTO_MAX_MS
      else e'.snd.rtoAt == e.snd.rtoAt
    requires was < e.snd.rtoAt && (v.call == Tick ==> was <= v.env.now <= was + gap)
    ensures LastCall(e'.snd, gap) <= LastCall(e.snd, gap)
    ensures (if v.call == Tick then v.env.now else was) < e'.snd.rtoAt
  {
    RetriesBound(e');
    hide EndInv, Patience;
    if DueTick(e.snd, v) {
      LastCallStep(e.snd, e'.snd, gap, was, v.env.now);
    }
  }

  lemma {:induction false} StaysClosed(es: seq<End>, vs: seq<Event>)
    requires Quiet(es, vs) && EndInv(es[0]) && es[0].snd.state == Closed
    ensures es[|vs|].snd.state == Closed
    decreases |vs|
  {
    hide EndInv, Goes;
    if vs != [] {
      assert Goes(es[0], vs[0], es[0 + 1]);
      ClosedStays(es[0], vs[0], es[1]);
      forall i | 0 <= i < |vs[1..]| ensures Goes(es[1..][i], vs[1..][i], es[1..][i + 1]) {
        assert Goes(es[i + 1], vs[i + 1], es[i + 1 + 1]);
      }
      StaysClosed(es[1..], vs[1..]);
    }
  }
}
