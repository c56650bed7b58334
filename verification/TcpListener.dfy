/** A listening socket and the connections it has not handed out yet (kernel/src/net/tcp_input.c, kernel/src/net/tcp.c,
    kernel/src/net/tcp_output.c). */
module TcpListener {
  import opened Collections

  const TCP_BACKLOG_MAX: nat := 128

  datatype State = SynRcvd | Open | Closed      // Open: any synchronised state

  /** A connection born of this listener. */
  datatype Child = Child(state: State, parent: bool, detached: bool)

  ghost function HalfOpen(cs: map<nat, Child>): set<nat> {
    set id | id in cs && cs[id].parent && cs[id].state == SynRcvd
  }

  class Listener {
    var children: map<nat, Child>
    var queue: seq<nat>            // accept_head to accept_tail
    var pending: int
    var backlog: nat
    var gone: bool

    /** pending counts the half open children and those waiting to be accepted; whoever has this parent is one or the
        other, and a closed connection stays in the queue until it is accepted. */
    ghost predicate Valid()
      reads this
    {
      && NoDup(queue)
      && (forall id | id in queue ::
        id in children && children[id].parent && children[id].state != SynRcvd
        && !children[id].detached)
      && (forall id | id in children && children[id].parent :: children[id].state == SynRcvd || id in queue)
      && (forall id | id in children && children[id].detached && children[id].state != Closed :: !children[id].parent)
      && pending == |HalfOpen(children)| + |queue|
      && 1 <= backlog <= TCP_BACKLOG_MAX && pending <= TCP_BACKLOG_MAX
      && (gone ==> pending == 0)
    }

    /** tcp_listen */
    constructor (size: int)
      ensures Valid() && pending == 0 && children == map[] && !gone
      ensures backlog == if size < 1 then 1 else if size > TCP_BACKLOG_MAX then TCP_BACKLOG_MAX else size
    {
      children, queue, pending, gone := map[], [], 0, false;
      backlog := if size < 1 then 1 else if size > TCP_BACKLOG_MAX then TCP_BACKLOG_MAX else size;
    }

    /** tcp_listen again, with another backlog */
    method Resize(size: int)
      requires Valid() && !gone
      modifies this`backlog
      ensures Valid() && backlog == if size < 1 then 1 else if size > TCP_BACKLOG_MAX then TCP_BACKLOG_MAX else size
    {
      backlog := if size < 1 then 1 else if size > TCP_BACKLOG_MAX then TCP_BACKLOG_MAX else size;
    }

    /** tcp_listen_input on a SYN: a new half open child, unless there are as many as the backlog allows. */
    method Syn(id: nat, memory: bool) returns (made: bool)
      requires Valid() && !gone && id !in children
      modifies this`children, this`pending
      ensures Valid() && (made <==> old(pending) < backlog && memory)
      ensures children == if made then old(children)[id := Child(SynRcvd, true, false)] else old(children)
      ensures made ==> HalfOpen(children) == old(HalfOpen(children)) + {id} && pending == old(pending) + 1
    {
      hide HalfOpen;
      if pending >= backlog || !memory {
        return false;
      }
      HalfOpenSet(children, id, Child(SynRcvd, true, false));
      children := children[id := Child(SynRcvd, true, false)];
      pending := pending + 1;
      return true;
    }

    /** tcp_drop_child: reset, out of memory or out of patience before the handshake was done. */
    method DropChild(id: nat)
      requires Valid() && id in children && children[id].state == SynRcvd
      modifies this`children, this`pending
      ensures Valid() && children == old(children)[id := Child(Closed, false, true)]
        && HalfOpen(children) == old(HalfOpen(children)) - {id}
      ensures pending == old(pending) - if old(children)[id].parent then 1 else 0
    {
      hide HalfOpen;
      HalfOpenSet(children, id, Child(Closed, false, true));
      if children[id].parent {
        pending := pending - 1;
      }
      children := children[id := Child(Closed, false, true)];
    }

    /** tcp_syn_rcvd on the ack that ends the handshake: to the tail of the queue, and pending stays as it is. */
    method Established(id: nat, rings: bool) returns (ok: bool)
      requires Valid() && id in children && children[id] == Child(SynRcvd, true, false)
      modifies this`children, this`queue, this`pending
      ensures Valid() && (ok <==> rings)
      ensures ok ==>
        queue == old(queue) + [id] && pending == old(pending)
        && HalfOpen(children) == old(HalfOpen(children)) - {id}
      ensures !ok ==> queue == old(queue) && pending == old(pending) - 1
    {
      hide HalfOpen;
      HalfOpenSet(children, id, Child(Open, true, false));
      if !rings {
        DropChild(id);
        return false;
      }
      children := children[id := Child(Open, true, false)];
      queue := queue + [id];
      return true;
    }

    /** A connection that is past the handshake is reset or times out; if it is still in the queue it stays there. */
    method Close(id: nat)
      requires Valid() && id in children && children[id].state == Open
      modifies this`children
      ensures Valid() && children == old(children)[id := old(children)[id].(state := Closed)]
    {
      hide HalfOpen;
      HalfOpenSet(children, id, children[id].(state := Closed));
      children := children[id := children[id].(state := Closed)];
    }

    /** tcp_accept: the one that has waited longest. */
    method Accept() returns (id: nat, ok: bool)
      requires Valid()
      modifies this`children, this`queue, this`pending
      ensures Valid() && (ok <==> !gone && old(queue) != [])
      ensures ok ==> id == old(queue)[0] && queue == old(queue)[1..] && pending == old(pending) - 1
                     && children == old(children)[id := old(children)[id].(parent := false)]
      ensures !ok ==> queue == old(queue) && children == old(children) && pending == old(pending)
    {
      hide HalfOpen;
      id := 0;
      if gone || queue == [] {
        return id, false;
      }
      id := queue[0];
      assert id in queue;
      HalfOpenSet(children, id, children[id].(parent := false));
      assert id !in queue[1..];
      assert forall x | x in queue :: x == id || x in queue[1..];
      queue := queue[1..];
      pending := pending - 1;
      children := children[id := children[id].(parent := false)];
      return id, true;
    }

    /** tcp_tick on a connection nobody has a handle on any more. */
    method Reap(id: nat)
      requires Valid() && id in children && children[id].detached && children[id].state == Closed
      modifies this`children
      ensures Valid() && children == old(children) - {id}
    {
      assert id !in queue;
      HalfOpenWithout(children, id);
      hide HalfOpen;
      children := children - {id};
    }

    /** The queued connections are freed. */
    method FreeQueue()
      requires Valid()
      modifies this`children, this`queue, this`pending
      ensures Valid() && queue == []
      ensures forall id :: id in children <==> id in old(children) && id !in old(queue)
    {
      ghost var was := children;
      ghost var all := queue;
      hide HalfOpen;
      while queue != []
        invariant Valid()
        invariant forall id :: id in children <==> id in was && (id in all ==> id in queue)
        invariant forall id | id in queue :: id in all
        decreases |queue|
      {
        var c := queue[0];
        assert c in queue && c !in queue[1..];
        assert forall x | x in queue :: x == c || x in queue[1..];
        HalfOpenWithout(children, c);
        children, queue, pending := children - {c}, queue[1..], pending - 1;
      }
    }

    /** tcp_listener_gone: queued connections are freed, half open ones dropped, and nothing is left that points
        to it. */
    method Gone(ids: seq<nat>)
      requires Valid() && !gone && forall id :: id in ids <==> id in children
      modifies this
      ensures Valid() && gone && pending == 0 && queue == []
      ensures forall id | id in children :: !children[id].parent
      ensures forall id :: id in children <==> id in old(children) && id !in old(queue)
    {
      hide HalfOpen;
      FreeQueue();
      ghost var was := children;
      var i := 0;
      while i < |ids|
        invariant 0 <= i <= |ids| && Valid() && queue == []
        invariant children.Keys == was.Keys
        invariant forall k | 0 <= k < i && ids[k] in children :: !children[ids[k]].parent
      {
        if ids[i] in children && children[ids[i]].parent {
          DropChild(ids[i]);
        }
        i := i + 1;
      }
      forall id | id in children ensures !children[id].parent { assert id in ids; }
      NoneHalfOpen(children);
      gone := true;
    }
  }

  lemma HalfOpenSet(cs: map<nat, Child>, id: nat, c: Child)
    ensures HalfOpen(cs[id := c]) == HalfOpen(cs) - {id} + (if c.parent && c.state == SynRcvd then {id} else {})
    ensures |HalfOpen(cs[id := c])| ==
      |HalfOpen(cs)| - (if id in HalfOpen(cs) then 1 else 0) + (if c.parent && c.state == SynRcvd then 1 else 0)
    ensures id in HalfOpen(cs) <==> id in cs && cs[id].parent && cs[id].state == SynRcvd
  {
    HalfOpenIs(cs, id, c);
    assert id in HalfOpen(cs) <==> id in cs && cs[id].parent && cs[id].state == SynRcvd;
    hide HalfOpen;
    SizeAfter(HalfOpen(cs), id, c.parent && c.state == SynRcvd);
  }

  lemma HalfOpenIs(cs: map<nat, Child>, id: nat, c: Child)
    ensures HalfOpen(cs[id := c]) == HalfOpen(cs) - {id} + (if c.parent && c.state == SynRcvd then {id} else {})
  {}

  lemma HalfOpenWithout(cs: map<nat, Child>, id: nat)
    requires id in cs ==> !(cs[id].parent && cs[id].state == SynRcvd)
    ensures HalfOpen(cs - {id}) == HalfOpen(cs)
  {}

  lemma NoneHalfOpen(cs: map<nat, Child>)
    requires forall id | id in cs :: !cs[id].parent
    ensures HalfOpen(cs) == {}
  {}
}
