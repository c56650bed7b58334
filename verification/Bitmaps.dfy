/** Bits in bytes, as kernel/src/mm/pmm.c and kernel/src/net/ipv4_frag.c keep them: eight to a byte, and looked at
    eight bytes at once. */
module Bitmaps {

  function Mask(k: nat): bv8
    requires k < 8
  {
    match k
    case 0 => 1
    case 1 => 2
    case 2 => 4
    case 3 => 8
    case 4 => 16
    case 5 => 32
    case 6 => 64
    case _ => 128
  }

  /** BIT_TST */
  predicate BitOf(b: bv8, k: nat)
    requires k < 8
  {
    b & Mask(k) != 0
  }

  /** BIT_SET, BIT_CLR */
  function WithBit(b: bv8, k: nat, v: bool): bv8
    requires k < 8
  {
    if v then b | Mask(k) else b & !Mask(k)
  }

  lemma BitAfter(b: bv8, k: nat, v: bool, j: nat)
    requires k < 8 && j < 8
    ensures BitOf(WithBit(b, k, v), j) == if j == k then v else BitOf(b, j)
  {}

  /** Where bit i is. */
  function ByteAt(i: nat): nat { i / 8 }

  function BitAt(i: nat): (r: nat)
    ensures r < 8
  {
    i % 8
  }

  lemma SamePlace(i: nat, j: nat)
    ensures i == j <==> ByteAt(i) == ByteAt(j) && BitAt(i) == BitAt(j)
  {}

  /** Bit i is set. */
  predicate Used(bytes: seq<bv8>, i: nat)
    requires ByteAt(i) < |bytes|
  {
    BitOf(bytes[ByteAt(i)], BitAt(i))
  }

  /** The first n bits. */
  function Bits(bytes: seq<bv8>, n: nat): (r: seq<bool>)
    requires n <= 8 * |bytes|
    ensures |r| == n
  {
    seq(n, i requires 0 <= i < n => Used(bytes, i))
  }

  function Changed(bytes: seq<bv8>, i: nat, v: bool): seq<bv8>
    requires ByteAt(i) < |bytes|
  {
    bytes[ByteAt(i) := WithBit(bytes[ByteAt(i)], BitAt(i), v)]
  }

  lemma ChangedBit(bytes: seq<bv8>, i: nat, v: bool, j: nat)
    requires ByteAt(i) < |bytes| && ByteAt(j) < |bytes|
    ensures Used(Changed(bytes, i, v), j) == if j == i then v else Used(bytes, j)
  {
    hide BitOf, WithBit, ByteAt, BitAt;
    BitAfter(bytes[ByteAt(i)], BitAt(i), v, BitAt(j));
    SamePlace(i, j);
  }

  lemma ChangedBits(bytes: seq<bv8>, n: nat, i: nat, v: bool)
    requires i < n <= 8 * |bytes|
    ensures Bits(Changed(bytes, i, v), n) == Bits(bytes, n)[i := v]
  {
    hide BitOf, WithBit, BitAt;
    forall j: nat | j < n ensures Bits(Changed(bytes, i, v), n)[j] == Bits(bytes, n)[i := v][j] {
      ChangedBit(bytes, i, v, j);
    }
  }

  lemma OneBit(bytes: seq<bv8>, i: nat)
    requires ByteAt(i) < |bytes|
    ensures Used(bytes, i) == BitOf(bytes[ByteAt(i)], BitAt(i))
  {}

  lemma BitIs(bytes: seq<bv8>, n: nat, i: nat)
    requires i < n <= 8 * |bytes|
    ensures Bits(bytes, n)[i] == BitOf(bytes[ByteAt(i)], BitAt(i))
  {}

  lemma WholeByte(b: bv8, k: nat)
    requires k < 8
    ensures b == 0xFF ==> BitOf(b, k)
    ensures b == 0 ==> !BitOf(b, k)
  {}

  /** Eight bytes read as one word, the first byte lowest. */
  function Word(b: seq<bv8>): bv64
    requires |b| == 8
  {
    (b[0] as bv64) | ((b[1] as bv64) << 8) | ((b[2] as bv64) << 16) | ((b[3] as bv64) << 24)
    | ((b[4] as bv64) << 32) | ((b[5] as bv64) << 40) | ((b[6] as bv64) << 48) | ((b[7] as bv64) << 56)
  }

  lemma WordIs(b: seq<bv8>, k: nat)
    requires |b| == 8 && k < 8
    ensures Word(b) == 0 ==> b[k] == 0
    ensures Word(b) == 0xFFFF_FFFF_FFFF_FFFF ==> b[k] == 0xFF
  {
    Words(b[0], b[1], b[2], b[3], b[4], b[5], b[6], b[7]);
  }

  lemma Words(b0: bv8, b1: bv8, b2: bv8, b3: bv8, b4: bv8, b5: bv8, b6: bv8, b7: bv8)
    ensures var w := (b0 as bv64) | ((b1 as bv64) << 8) | ((b2 as bv64) << 16) | ((b3 as bv64) << 24)
      | ((b4 as bv64) << 32) | ((b5 as bv64) << 40) | ((b6 as bv64) << 48) | ((b7 as bv64) << 56);
      && (w == 0 ==> b0 == b1 == b2 == b3 == b4 == b5 == b6 == b7 == 0)
      && (w == 0xFFFF_FFFF_FFFF_FFFF ==> b0 == b1 == b2 == b3 == b4 == b5 == b6 == b7 == 0xFF)
  {}
}
