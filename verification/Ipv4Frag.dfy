/** IPv4 fragmentation and reassembly (kernel/src/net/ipv4.c, kernel/src/net/ipv4_frag.c), after section 3.2 of
    RFC 791. */
module Ipv4Frag {
  import opened Bitmaps
  import opened Collections

  type byte = bv8

  const IP_MAX_PAYLOAD: nat := 65515
  const IP_FRAG_CHUNK: nat := 1480
  const IP_FLAG_MF: nat := 0x2000
  const FRAG_BLOCKS: nat := 8190

  /** What is sent: the fragment field of the header, and the bytes after it. */
  datatype Frag = Frag(field: nat, data: seq<byte>)

  function Field(off: nat, more: bool): nat { off / 8 + if more then IP_FLAG_MF else 0 }

  function Offset(f: Frag): nat { f.field % IP_FLAG_MF * 8 }

  function More(f: Frag): bool { f.field / IP_FLAG_MF % 2 == 1 }

  function End(f: Frag): nat { Offset(f) + |f.data| }

  // ---------------------------------------------------------------- the sender

  /** How many fragments a payload takes: at least one. */
  function Pieces(p: seq<byte>): nat { if p == [] then 1 else (|p| + IP_FRAG_CHUNK - 1) / IP_FRAG_CHUNK }

  function Piece(p: seq<byte>, i: nat): Frag
    requires i < Pieces(p)
  {
    var lo := i * IP_FRAG_CHUNK;
    var hi := if i + 1 < Pieces(p) then lo + IP_FRAG_CHUNK else |p|;
    PieceFits(|p|, i);
    Frag(Field(lo, i + 1 < Pieces(p)), p[lo..hi])
  }

  lemma PieceFits(n: nat, i: nat)
    requires i < if n == 0 then 1 else (n + IP_FRAG_CHUNK - 1) / IP_FRAG_CHUNK
    ensures i * IP_FRAG_CHUNK <= n && (i + 1 < (n + IP_FRAG_CHUNK - 1) / IP_FRAG_CHUNK ==> (i + 1) * IP_FRAG_CHUNK < n)
    ensures i + 1 >= (n + IP_FRAG_CHUNK - 1) / IP_FRAG_CHUNK ==> n <= (i + 1) * IP_FRAG_CHUNK
    ensures n > 0 ==> i * IP_FRAG_CHUNK < n
  {}

  /** How much is left from a piece's offset on says what the piece is and whether it is the last. */
  lemma PieceAt(p: seq<byte>, i: nat)
    requires i < Pieces(p)
    ensures var off := i * IP_FRAG_CHUNK;
      && off <= |p| && (off < |p| || off == 0)
      && var chunk := if |p| - off < IP_FRAG_CHUNK then |p| - off else IP_FRAG_CHUNK;
        && (off + chunk < |p| <==> i + 1 < Pieces(p))
        && Piece(p, i) == Frag(Field(off, off + chunk < |p|), p[off..off + chunk])
  {
    PieceFits(|p|, i);
  }

  /** The loop of ipv4_output_flat. */
  method Fragment(p: seq<byte>) returns (sent: Option<seq<Frag>>)
    ensures sent == None <==> |p| > IP_MAX_PAYLOAD
    ensures sent.Some? ==> |sent.value| == Pieces(p) && forall i | 0 <= i < Pieces(p) :: sent.value[i] == Piece(p, i)
  {
    if |p| > IP_MAX_PAYLOAD {
      return None;
    }
    var out: seq<Frag> := [];
    var off := 0;
    PieceAt(p, 0);
    assert 0 < Pieces(p);
    hide Piece, Pieces, Field;
    while off < |p| || off == 0
      invariant |out| < Pieces(p) && off == |out| * IP_FRAG_CHUNK && (off < |p| || off == 0)
      invariant forall i | 0 <= i < |out| :: out[i] == Piece(p, i)
      decreases Pieces(p) - |out|
    {
      PieceAt(p, |out|);
      var chunk := if |p| - off < IP_FRAG_CHUNK then |p| - off else IP_FRAG_CHUNK;
      var more := off + chunk < |p|;
      out := out + [Frag(Field(off, more), p[off..off + chunk])];
      off := off + IP_FRAG_CHUNK;
      if !more {
        break;
      }
      PieceAt(p, |out|);
    }
    return Some(out);
  }

  // ---------------------------------------------------------------- one slot of the receiver

  /** What a slot has: the bytes, which blocks of eight have arrived, how many, and the length once known. */
  datatype View = View(total: nat, blocks: nat, data: seq<byte>, have: seq<bool>)

  predicate Sized(v: View) { |v.data| == IP_MAX_PAYLOAD && |v.have| == FRAG_BLOCKS }

  predicate Acceptable(f: Frag) { End(f) <= IP_MAX_PAYLOAD && !(More(f) && (|f.data| % 8 != 0 || f.data == [])) }

  function FirstBlock(f: Frag): nat { Offset(f) / 8 }

  function LastBlock(f: Frag): nat { (End(f) + 7) / 8 }

  function Count(have: seq<bool>): nat {
    if have == [] then 0 else Count(have[..|have| - 1]) + if have[|have| - 1] then 1 else 0
  }

  function Marked(have: seq<bool>, lo: nat, hi: nat): seq<bool> {
    seq(|have|, b requires 0 <= b < |have| => have[b] || lo <= b < hi)
  }

  function Written(data: seq<byte>, off: nat, d: seq<byte>): seq<byte>
    requires off + |d| <= |data|
  {
    data[..off] + d + data[off + |d|..]
  }

  /** The slot after an acceptable fragment. */
  function Arrived(v: View, f: Frag): View
    requires Sized(v) && Acceptable(f)
  {
    var have := Marked(v.have, FirstBlock(f), LastBlock(f));
    View(if More(f) then v.total else End(f), Count(have), Written(v.data, Offset(f), f.data), have)
  }

  predicate Complete(v: View) { v.total != 0 && v.blocks == (v.total + 7) / 8 }

  class Slot {
    var used: bool
    var total: nat
    var blocks: nat
    const data: array<byte>
    const have: array<bv8>

    /** Which blocks have arrived. */
    ghost function H(): seq<bool>
      requires have.Length == FRAG_BLOCKS / 8 + 1
      reads have
    {
      Bits(have[..], FRAG_BLOCKS)
    }

    ghost predicate Valid()
      reads this, data, have
    {
      data.Length == IP_MAX_PAYLOAD && have.Length == FRAG_BLOCKS / 8 + 1 && blocks == Count(H())
    }

    ghost function V(): View
      requires have.Length == FRAG_BLOCKS / 8 + 1
      reads this, data, have
    {
      View(total, blocks, data[..], H())
    }

    /** ipv4_reassemble, from the moment the slot for the datagram is known. */
    method Accept(f: Frag) returns (whole: Option<seq<byte>>)
      requires Valid() && used
      modifies this, data, have
      ensures Valid()
      ensures !Acceptable(f) ==> V() == old(V()) && used && whole == None
      ensures Acceptable(f) ==> V() == Arrived(old(V()), f) && (used <==> !Complete(V()))
      ensures Acceptable(f) ==>
        whole == if Complete(V()) && V().total <= IP_MAX_PAYLOAD then Some(V().data[..V().total]) else None
    {
      if End(f) > IP_MAX_PAYLOAD || (More(f) && (|f.data| % 8 != 0 || f.data == [])) {
        return None;
      }
      hide Bits, Count;
      Copy(f);
      Mark(FirstBlock(f), LastBlock(f));
      if !More(f) {
        total := End(f);
      }
      whole := None;
      if total != 0 && blocks == (total + 7) / 8 {
        used := false;
        if total <= data.Length {
          whole := Some(data[..total]);
          assert data[..total] == V().data[..total];
        }
      }
    }

    method Copy(f: Frag)
      requires data.Length == IP_MAX_PAYLOAD && End(f) <= IP_MAX_PAYLOAD
      modifies data
      ensures data[..] == Written(old(data[..]), Offset(f), f.data)
    {
      for i := 0 to |f.data|
        invariant forall j | 0 <= j < data.Length ::
          data[j] == if Offset(f) <= j < Offset(f) + i then f.data[j - Offset(f)] else old(data[j])
      {
        data[Offset(f) + i] := f.data[i];
      }
    }

    method Mark(lo: nat, hi: nat)
      requires Valid() && lo <= hi <= FRAG_BLOCKS
      modifies this`blocks, have
      ensures Valid() && H() == Marked(old(H()), lo, hi)
    {
      hide Bits, Count, Used, WithBit, BitOf;
      var b := lo;
      while b < hi
        invariant lo <= b <= hi && blocks == Count(H()) && H() == Marked(old(H()), lo, b)
      {
        ghost var before := have[..];
        BitIs(before, FRAG_BLOCKS, b);
        if !BitOf(have[ByteAt(b)], BitAt(b)) {
          have[ByteAt(b)] := WithBit(have[ByteAt(b)], BitAt(b), true);
          assert have[..] == Changed(before, b, true);
          ChangedBits(before, FRAG_BLOCKS, b, true);
          CountSet(Bits(before, FRAG_BLOCKS), b);
          blocks := blocks + 1;
        }
        b := b + 1;
      }
    }
  }

  lemma {:induction false} CountSet(have: seq<bool>, b: nat)
    requires b < |have| && !have[b]
    ensures Count(have[b := true]) == Count(have) + 1
  {
    var n := |have| - 1;
    if b == n {
      assert have[b := true][..n] == have[..n];
    } else {
      assert have[b := true][..n] == have[..n][b := true];
      CountSet(have[..n], b);
    }
  }

  lemma {:induction false} CountIs(have: seq<bool>, n: nat)
    requires n <= |have| && forall b | n <= b < |have| :: !have[b]
    ensures Count(have) <= n
    ensures Count(have) == n <==> forall b | 0 <= b < n :: have[b]
  {
    if have != [] {
      var m := |have| - 1;
      CountIs(have[..m], if n <= m then n else m);
      assert forall b | 0 <= b < m :: have[..m][b] == have[b];
    }
  }

  // ---------------------------------------------------------------- datagrams

  /** Fragment f is a fragment of p: its bytes are p's, and it claims to be the last exactly if it is. */
  predicate Of(p: seq<byte>, f: Frag) {
    && End(f) <= |p| && f.data == p[Offset(f)..End(f)]
    && (if More(f) then End(f) < |p| && |f.data| % 8 == 0 && f.data != [] else End(f) == |p|)
  }

  /** A slot as frag_slot hands it out; what is in the buffer then does not matter. */
  predicate Fresh(v: View) { Sized(v) && v.total == 0 && v.blocks == 0 && forall b | 0 <= b < |v.have| :: !v.have[b] }

  predicate AllOf(p: seq<byte>, fs: seq<Frag>) { forall i | 0 <= i < |fs| :: Of(p, fs[i]) }

  /** The slot after a sequence of fragments of p. */
  function Feed(v: View, p: seq<byte>, fs: seq<Frag>): (r: View)
    requires Sized(v) && |p| <= IP_MAX_PAYLOAD && AllOf(p, fs)
    ensures Sized(r)
  {
    if fs == [] then v
    else
      var last := fs[|fs| - 1];
      assert Of(p, last);
      Arrived(Feed(v, p, fs[..|fs| - 1]), last)
  }

  predicate Covers(f: Frag, b: nat) { FirstBlock(f) <= b < LastBlock(f) }

  predicate Covered(fs: seq<Frag>, b: nat) { exists i :: 0 <= i < |fs| && Covers(fs[i], b) }

  predicate LastSeen(fs: seq<Frag>) { exists i :: 0 <= i < |fs| && !More(fs[i]) }

  function Blocks(p: seq<byte>): nat { (|p| + 7) / 8 }

  /** What the slot knows after the fragments fs of p. */
  ghost predicate Knows(v: View, p: seq<byte>, fs: seq<Frag>) {
    && Sized(v) && v.blocks == Count(v.have)
    && v.total == (if LastSeen(fs) then |p| else 0)
    && (forall b | 0 <= b < |v.have| :: v.have[b] <==> Covered(fs, b))
    && (forall j | 0 <= j < |p| && j < |v.data| && Covered(fs, j / 8) :: v.data[j] == p[j])
  }

  lemma CoversInside(p: seq<byte>, f: Frag, b: nat)
    requires Of(p, f) && Covers(f, b)
    ensures b < Blocks(p)
  {}

  /** The block of a byte is covered exactly by the fragments that bring the byte. */
  lemma CoversByte(p: seq<byte>, f: Frag, j: nat)
    requires Of(p, f) && j < |p|
    ensures Covers(f, j / 8) <==> Offset(f) <= j < End(f)
  {}

  lemma CoveredMore(fs: seq<Frag>, b: nat)
    requires fs != []
    ensures Covered(fs, b) <==> Covered(fs[..|fs| - 1], b) || Covers(fs[|fs| - 1], b)
  {
    var n := |fs| - 1;
    if Covered(fs[..n], b) {
      var i :| 0 <= i < n && Covers(fs[..n][i], b);
      assert Covers(fs[i], b);
    }
    if Covered(fs, b) {
      var i :| 0 <= i < |fs| && Covers(fs[i], b);
      if i < n {
        assert Covers(fs[..n][i], b);
      }
    }
  }

  lemma LastSeenMore(fs: seq<Frag>)
    requires fs != []
    ensures LastSeen(fs) <==> LastSeen(fs[..|fs| - 1]) || !More(fs[|fs| - 1])
  {
    var n := |fs| - 1;
    if LastSeen(fs[..n]) {
      var i :| 0 <= i < n && !More(fs[..n][i]);
      assert !More(fs[i]);
    }
    if LastSeen(fs) {
      var i :| 0 <= i < |fs| && !More(fs[i]);
      if i < n {
        assert !More(fs[..n][i]);
      }
    }
  }

  lemma {:induction false} FeedKnows(v: View, p: seq<byte>, fs: seq<Frag>)
    requires Fresh(v) && |p| <= IP_MAX_PAYLOAD && AllOf(p, fs)
    ensures Knows(Feed(v, p, fs), p, fs)
  {
    if fs == [] {
      CountIs(v.have, 0);
    } else {
      var n := |fs| - 1;
      FeedKnows(v, p, fs[..n]);
      ArrivedKnows(Feed(v, p, fs[..n]), p, fs);
    }
  }

  lemma ArrivedKnows(v: View, p: seq<byte>, fs: seq<Frag>)
    requires |p| <= IP_MAX_PAYLOAD && AllOf(p, fs) && fs != [] && Knows(v, p, fs[..|fs| - 1])
    ensures Acceptable(fs[|fs| - 1]) && Knows(Arrived(v, fs[|fs| - 1]), p, fs)
  {
    var n := |fs| - 1;
    var f := fs[n];
    assert Of(p, f);
    var r := Arrived(v, f);
    LastSeenMore(fs);
    forall b | 0 <= b < |r.have| ensures r.have[b] <==> Covered(fs, b) {
      CoveredMore(fs, b);
      assert v.have[b] <==> Covered(fs[..n], b);
    }
    forall j | 0 <= j < |p| && j < |r.data| && Covered(fs, j / 8) ensures r.data[j] == p[j] {
      CoveredMore(fs, j / 8);
      ArrivedByte(v, p, f, j);
    }
    hide Covered, LastSeen, Count, AllOf, Covers, Written;
  }

  lemma ArrivedByte(v: View, p: seq<byte>, f: Frag, j: nat)
    requires Sized(v) && |p| <= IP_MAX_PAYLOAD && Of(p, f) && j < |p|
    ensures Acceptable(f)
    ensures Arrived(v, f).data[j] == if Covers(f, j / 8) then p[j] else v.data[j]
  {
    CoversByte(p, f, j);
    hide Covers;
  }

  ghost predicate Everything(p: seq<byte>, fs: seq<Frag>) { forall b: nat | b < Blocks(p) :: Covered(fs, b) }

  /** However a datagram was cut up, and however its fragments are ordered, repeated or overlap: the slot is complete
      exactly when every block has arrived, and then holds exactly the payload. */
  lemma Exact(v: View, p: seq<byte>, fs: seq<Frag>)
    requires Fresh(v) && 0 < |p| <= IP_MAX_PAYLOAD && AllOf(p, fs)
    ensures Complete(Feed(v, p, fs)) <==> Everything(p, fs)
    ensures Complete(Feed(v, p, fs)) ==> Feed(v, p, fs).total == |p| && Feed(v, p, fs).data[..|p|] == p
  {
    FeedKnows(v, p, fs);
    var r := Feed(v, p, fs);
    hide Feed, Count;
    forall b | Blocks(p) <= b < |r.have| ensures !r.have[b] { NothingBeyond(p, fs, b); }
    CountIs(r.have, Blocks(p));
    if Everything(p, fs) {
      EverythingHasLast(p, fs);
      forall b | 0 <= b < Blocks(p) ensures r.have[b] { assert Covered(fs, b); }
    }
    if Complete(r) {
      forall b: nat | b < Blocks(p) ensures Covered(fs, b) { assert r.have[b]; }
      forall j | 0 <= j < |p| ensures r.data[j] == p[j] { assert Covered(fs, j / 8); }
    }
    hide Covered;
  }

  lemma NothingBeyond(p: seq<byte>, fs: seq<Frag>, b: nat)
    requires AllOf(p, fs) && b >= Blocks(p)
    ensures !Covered(fs, b)
  {
    if Covered(fs, b) {
      var i :| 0 <= i < |fs| && Covers(fs[i], b);
      CoversInside(p, fs[i], b);
    }
  }

  lemma EverythingHasLast(p: seq<byte>, fs: seq<Frag>)
    requires AllOf(p, fs) && Everything(p, fs) && p != []
    ensures LastSeen(fs)
  {
    assert Covered(fs, Blocks(p) - 1);
    var i :| 0 <= i < |fs| && Covers(fs[i], Blocks(p) - 1);
    EndCovered(p, fs[i]);
  }

  lemma EndCovered(p: seq<byte>, f: Frag)
    requires Of(p, f) && p != [] && Covers(f, Blocks(p) - 1)
    ensures !More(f)
  {}

  // ---------------------------------------------------------------- there and back

  /** Each piece sent is a fragment of the payload, and covers the blocks of its own 1480 bytes; its offset fits the
      13 bits it has. */
  lemma PieceOf(p: seq<byte>, i: nat)
    requires |p| <= IP_MAX_PAYLOAD && i < Pieces(p)
    ensures Of(p, Piece(p, i)) && Offset(Piece(p, i)) == i * IP_FRAG_CHUNK && (More(Piece(p, i)) <==> i + 1 < Pieces(p))
  {
    PieceFits(|p|, i);
    assert i * IP_FRAG_CHUNK / 8 == i * 185 < IP_FLAG_MF;
    FieldBack(i * IP_FRAG_CHUNK, i + 1 < Pieces(p));
  }

  lemma FieldBack(off: nat, more: bool)
    requires off % 8 == 0 && off / 8 < IP_FLAG_MF
    ensures Field(off, more) % IP_FLAG_MF * 8 == off && (Field(off, more) / IP_FLAG_MF % 2 == 1 <==> more)
  {}

  lemma PieceCovers(p: seq<byte>, i: nat, b: nat)
    requires 0 < |p| <= IP_MAX_PAYLOAD && i < Pieces(p) && b < Blocks(p)
    ensures Covers(Piece(p, i), b) <==> b / 185 == i
  {
    PieceOf(p, i);
    PieceFits(|p|, i);
    var f := Piece(p, i);
    assert FirstBlock(f) == 185 * i;
    if i + 1 < Pieces(p) {
      assert LastBlock(f) == 185 * (i + 1);
    } else {
      assert End(f) == |p| && LastBlock(f) == Blocks(p) <= 185 * (i + 1);
    }
  }

  /** The pieces of p in some order, with repetitions. */
  function Pick(p: seq<byte>, order: seq<nat>): seq<Frag>
    requires forall k | 0 <= k < |order| :: order[k] < Pieces(p)
  {
    seq(|order|, k requires 0 <= k < |order| => Piece(p, order[k]))
  }

  lemma PickOf(p: seq<byte>, order: seq<nat>)
    requires |p| <= IP_MAX_PAYLOAD && forall k | 0 <= k < |order| :: order[k] < Pieces(p)
    ensures AllOf(p, Pick(p, order))
  {
    forall k | 0 <= k < |order| ensures Of(p, Pick(p, order)[k]) { PieceOf(p, order[k]); }
  }

  /** Delivering the pieces in any order, with any repetitions: the slot is complete exactly when each of them has come
      at least once, and then it holds exactly the payload. */
  lemma RoundTrip(v: View, p: seq<byte>, order: seq<nat>)
    requires Fresh(v) && 0 < |p| <= IP_MAX_PAYLOAD && forall k | 0 <= k < |order| :: order[k] < Pieces(p)
    ensures AllOf(p, Pick(p, order))
    ensures Everything(p, Pick(p, order)) <==> forall i | 0 <= i < Pieces(p) :: i in order
    ensures var r := Feed(v, p, Pick(p, order));
      && (Complete(r) <==> forall i | 0 <= i < Pieces(p) :: i in order)
      && (Complete(r) ==> r.total == |p| && r.data[..r.total] == p)
  {
    PickOf(p, order);
    Exact(v, p, Pick(p, order));
    forall b: nat | b < Blocks(p) ensures Covered(Pick(p, order), b) <==> b / 185 in order { PickCovers(p, order, b); }
    if Everything(p, Pick(p, order)) {
      forall i | 0 <= i < Pieces(p) ensures i in order {
        PieceFits(|p|, i);
        assert 185 * i < Blocks(p) && 185 * i / 185 == i;
        assert Covered(Pick(p, order), 185 * i);
      }
    }
    if forall i | 0 <= i < Pieces(p) :: i in order {
      forall b: nat | b < Blocks(p) ensures Covered(Pick(p, order), b) { assert b / 185 < Pieces(p); }
    }
    hide Feed, Covered, Pick, Fresh;
  }

  lemma PickCovers(p: seq<byte>, order: seq<nat>, b: nat)
    requires 0 < |p| <= IP_MAX_PAYLOAD && b < Blocks(p) && forall k | 0 <= k < |order| :: order[k] < Pieces(p)
    ensures Covered(Pick(p, order), b) <==> b / 185 in order
  {
    var fs := Pick(p, order);
    if Covered(fs, b) {
      var k :| 0 <= k < |fs| && Covers(fs[k], b);
      PieceCovers(p, order[k], b);
    }
    if b / 185 in order {
      var k :| 0 <= k < |order| && order[k] == b / 185;
      PieceCovers(p, order[k], b);
      assert Covers(fs[k], b);
    }
  }

  /** Delivering fragments of p to a fresh slot one by one: nothing comes out until the last block that was missing has
      come, then exactly the payload does, and the slot is free again. */
  method Deliver(slot: Slot, p: seq<byte>, fs: seq<Frag>) returns (whole: Option<seq<byte>>, n: nat)
    requires slot.Valid() && slot.used && Fresh(slot.V()) && 0 < |p| <= IP_MAX_PAYLOAD && AllOf(p, fs)
    modifies slot, slot.data, slot.have
    ensures n <= |fs| && (whole == None <==> slot.used)
    ensures whole == None ==> n == |fs| && !Everything(p, fs)
    ensures whole != None ==> whole == Some(p) && n > 0 && Everything(p, fs[..n]) && !Everything(p, fs[..n - 1])
  {
    hide Fresh, Everything, Arrived, Complete, Of, Feed, AllOf, Acceptable;
    ghost var v := slot.V();
    n, whole := 0, None;
    NothingYet(v, p, fs);
    while n < |fs|
      invariant n <= |fs| && slot.Valid() && slot.used && whole == None
      invariant AllOf(p, fs[..n]) && slot.V() == Feed(v, p, fs[..n]) && !Everything(p, fs[..n])
    {
      FedNext(v, p, fs, n);
      Exact(v, p, fs[..n + 1]);
      whole := slot.Accept(fs[n]);
      n := n + 1;
      if whole.Some? {
        return;
      }
    }
    assert fs[..|fs|] == fs;
  }

  lemma NothingYet(v: View, p: seq<byte>, fs: seq<Frag>)
    requires Fresh(v) && 0 < |p| <= IP_MAX_PAYLOAD
    ensures Sized(v) && AllOf(p, fs[..0]) && Feed(v, p, fs[..0]) == v && !Everything(p, fs[..0])
  {
    assert !Covered(fs[..0], 0);
  }

  lemma FedNext(v: View, p: seq<byte>, fs: seq<Frag>, n: nat)
    requires Sized(v) && |p| <= IP_MAX_PAYLOAD && AllOf(p, fs) && n < |fs|
    ensures AllOf(p, fs[..n]) && AllOf(p, fs[..n + 1]) && Acceptable(fs[n])
    ensures Feed(v, p, fs[..n + 1]) == Arrived(Feed(v, p, fs[..n]), fs[n])
  {
    assert Of(p, fs[n]);
    assert fs[..n + 1][..n] == fs[..n];
  }

  /** An empty payload, sent as one empty piece, would never complete a slot; but that piece has neither offset nor
      flag, and ipv4_input hands such a packet on without a slot. */
  lemma EmptyNeverCompletes(v: View, order: seq<nat>)
    requires Fresh(v) && forall k | 0 <= k < |order| :: order[k] < Pieces([])
    ensures Piece([], 0).field == 0
    ensures AllOf([], Pick([], order)) && !Complete(Feed(v, [], Pick([], order)))
  {
    PickOf([], order);
    FeedKnows(v, [], Pick([], order));
    hide Feed;
  }

  // ---------------------------------------------------------------- which slot

  datatype Key = Key(src: nat, dst: nat, id: nat, proto: nat)

  datatype Header = Header(used: bool, key: Key, started: nat)

  /** frag_slot: the slot already putting this datagram together; if there is none the first free one; if there is
      none either, the oldest, which is given up. A slot that is taken needs a buffer, and stays free without one. */
  method FragSlot(slots: seq<Header>, key: Key, now: nat, memory: bool) returns (r: Option<nat>, slots': seq<Header>)
    requires slots != []
    ensures |slots'| == |slots| && (r.Some? ==> r.value < |slots| && slots'[r.value].used && slots'[r.value].key == key)
    ensures (exists j :: 0 <= j < |slots| && slots[j].used && slots[j].key == key) ==>
      slots' == slots && r.Some? && forall j | 0 <= j < r.value :: !(slots[j].used && slots[j].key == key)
    ensures !(exists j :: 0 <= j < |slots| && slots[j].used && slots[j].key == key) ==>
      exists i: nat :: Victim(slots, i) && r == (if memory then Some(i) else None)
        && slots' == slots[i := if memory then Header(true, key, now) else slots[i].(used := false)]
  {
    var i, found := Search(slots, key);
    if found {
      return Some(i), slots;
    }
    assert Victim(slots, i);
    if !memory {
      return None, slots[i := slots[i].(used := false)];
    }
    return Some(i), slots[i := Header(true, key, now)];
  }

  /** The slot that a new datagram gets. */
  ghost predicate Victim(slots: seq<Header>, i: nat) {
    && i < |slots|
    && if slots[i].used then forall j | 0 <= j < |slots| :: slots[j].used && slots[i].started <= slots[j].started
       else forall j | 0 <= j < i :: slots[j].used
  }

  method Search(slots: seq<Header>, key: Key) returns (i: nat, found: bool)
    requires slots != []
    ensures i < |slots|
    ensures found <==> exists j :: 0 <= j < |slots| && slots[j].used && slots[j].key == key
    ensures found ==> slots[i].used && slots[i].key == key && forall j | 0 <= j < i ::
      !(slots[j].used && slots[j].key == key)
    ensures !found ==> Victim(slots, i)
  {
    var oldest: nat, free: nat := |slots|, |slots|;
    i := 0;
    while i < |slots|
      invariant i <= |slots| && oldest <= |slots| && free <= |slots|
      invariant forall j | 0 <= j < i :: !(slots[j].used && slots[j].key == key)
      invariant if free == |slots| then forall j | 0 <= j < i :: slots[j].used
                else free < i && !slots[free].used && forall j | 0 <= j < free :: slots[j].used
      invariant if oldest == |slots| then forall j | 0 <= j < i :: !slots[j].used
                else oldest < i && slots[oldest].used && forall j | 0 <= j < i && slots[j].used ::
                  slots[oldest].started <= slots[j].started
    {
      if !slots[i].used {
        if free == |slots| {
          free := i;
        }
      } else {
        if slots[i].key == key {
          return i, true;
        }
        if oldest == |slots| || slots[i].started < slots[oldest].started {
          oldest := i;
        }
      }
      i := i + 1;
    }
    if free == |slots| {
      assert slots[0].used;
      return oldest, false;
    }
    return free, false;
  }
}
