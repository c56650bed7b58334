/** Sequence numbers of kernel/src/net/tcp_priv.h: 32-bit values compared by the
    sign of their difference.  Every theorem about a connection is stated on
    unbounded stream positions; this module is the bridge between the two. */
module TcpSeq {

  const TWO31: int := 0x8000_0000
  const TWO32: int := 0x1_0000_0000

  type u32 = x: int | 0 <= x < 0x1_0000_0000
  type byte = x: int | 0 <= x < 256

  /** SEQ_LT: the difference, read as a signed 32-bit number, is negative. */
  predicate SeqLt(a: u32, b: u32) {
    (a - b) % TWO32 >= TWO31
  }

  /** SEQ_LEQ: the signed difference is not positive. */
  predicate SeqLeq(a: u32, b: u32) {
    (a - b) % TWO32 == 0 || (a - b) % TWO32 >= TWO31
  }

  /** The 32-bit sequence number of stream position `p`, when position 0 has number `base`. */
  function Wire(base: u32, p: int): u32 {
    (base + p) % TWO32
  }

  /** 32-bit unsigned addition and subtraction, as C wraps them. */
  function Add32(a: u32, n: int): u32 {
    (a + n) % TWO32
  }

  function Sub32(a: u32, b: u32): u32 {
    (a - b) % TWO32
  }

  /** The position meant by wire number `w` for a receiver standing at `at`: the one
      congruent position in the half-open window [at - 2^31, at + 2^31). */
  function Unwrap(base: u32, at: int, w: u32): (p: int)
    ensures Wire(base, p) == w
    ensures at - TWO31 <= p < at + TWO31
  {
    var d := (w - Wire(base, at)) % TWO32;
    WireShift(base, at, if d < TWO31 then d else d - TWO32);
    if d < TWO31 then at + d else at + d - TWO32
  }

  /** The same with the window closed at the top, (at - 2^31, at + 2^31]: the reading
      under which `SeqLt(Wire(at), w)` says exactly "beyond `at`". */
  function UnwrapUp(base: u32, at: int, w: u32): (p: int)
    ensures Wire(base, p) == w
    ensures at - TWO31 < p <= at + TWO31
  {
    var d := (w - Wire(base, at)) % TWO32;
    WireShift(base, at, if d <= TWO31 then d else d - TWO32);
    if d <= TWO31 then at + d else at + d - TWO32
  }

  lemma WireShift(base: u32, p: int, d: int)
    ensures Wire(base, p + d) == Add32(Wire(base, p), d)
  {
    var q := (base + p) / TWO32;
    assert base + p == q * TWO32 + Wire(base, p);
    ModUnique(base + p + d, Wire(base, p) + d, q);
  }

  lemma ModUnique(x: int, y: int, q: int)
    requires x == q * TWO32 + y
    ensures x % TWO32 == y % TWO32
  {}

  lemma WireSub(base: u32, a: int, b: int)
    ensures Sub32(Wire(base, a), Wire(base, b)) == (a - b) % TWO32
    ensures 0 <= a - b < TWO32 ==> Sub32(Wire(base, a), Wire(base, b)) == a - b
  {
    var qa, qb := (base + a) / TWO32, (base + b) / TWO32;
    assert Wire(base, a) - Wire(base, b) == (qb - qa) * TWO32 + (a - b);
    ModUnique(Wire(base, a) - Wire(base, b), a - b, qb - qa);
  }

  /** Within half the number space the 32-bit comparisons are the comparisons of positions. */
  lemma WireOrder(base: u32, a: int, b: int)
    requires -TWO31 < a - b < TWO31
    ensures SeqLt(Wire(base, a), Wire(base, b)) <==> a < b
    ensures SeqLeq(Wire(base, a), Wire(base, b)) <==> a <= b
    ensures Wire(base, a) == Wire(base, b) <==> a == b
  {
    WireSub(base, a, b);
  }

  /** What the comparisons say for any two positions less than the whole number space apart. */
  lemma WireCompare(base: u32, a: int, b: int)
    requires -TWO32 < a - b < TWO32
    ensures SeqLt(Wire(base, a), Wire(base, b)) <==> -TWO31 <= a - b < 0 || TWO31 <= a - b
    ensures SeqLeq(Wire(base, a), Wire(base, b)) <==> -TWO31 <= a - b <= 0 || TWO31 <= a - b
    ensures Wire(base, a) == Wire(base, b) <==> a == b
  {
    WireSub(base, a, b);
  }

  /** A number no more than 2^31 away is read back as the position it was made from. */
  lemma UnwrapWire(base: u32, at: int, p: int)
    requires at - TWO31 <= p < at + TWO31
    ensures Unwrap(base, at, Wire(base, p)) == p
  {
    var r := Unwrap(base, at, Wire(base, p));
    WireSub(base, r, p);
  }

  lemma UnwrapUpWire(base: u32, at: int, p: int)
    requires at - TWO31 < p <= at + TWO31
    ensures UnwrapUp(base, at, Wire(base, p)) == p
  {
    var r := UnwrapUp(base, at, Wire(base, p));
    WireSub(base, r, p);
  }

  /** Which side of the reader's own position a wire number falls, for every 32-bit number. */
  lemma BeforeReader(base: u32, at: int, w: u32)
    ensures SeqLt(w, Wire(base, at)) <==> Unwrap(base, at, w) < at
    ensures SeqLt(Wire(base, at), w) <==> at < UnwrapUp(base, at, w)
  {
    WireSub(base, Unwrap(base, at, w), at);
    WireSub(base, at, UnwrapUp(base, at, w));
  }
}
