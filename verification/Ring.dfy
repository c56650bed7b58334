/** The byte rings of a TCP connection: a fixed buffer, an oldest byte, and a copy in
    or out that may wrap, done as two memcpy calls. */
module Ring {
  import opened TcpSeq

  /** Where the k-th byte after `start` sits in a ring of n bytes. */
  function Slot(n: nat, start: nat, k: nat): (s: nat)
    requires start < n && k <= n
    ensures s < n
  {
    if start + k < n then start + k else start + k - n
  }

  /** The two rings of a connection; with either size the slot is the remainder the code takes. */
  lemma SlotIsMod(n: nat, start: nat, k: nat)
    requires n == 262144 || n == 131072
    requires start < n && k <= n
    ensures (start + k) % n == Slot(n, start, k)
  {
    if n == 262144 {
      assert (start + k) % 262144 == Slot(n, start, k);
    } else {
      assert (start + k) % 131072 == Slot(n, start, k);
    }
  }

  /** Every slot seen from `start` is a slot seen from L bytes further on. */
  lemma SlotFrom(n: nat, start: nat, l: nat, j: nat)
    requires start < n && l <= n && j < n
    ensures Slot(n, start, j) == Slot(n, Slot(n, start, l), if j >= l then j - l else n - l + j)
  {}

  /** memcpy of `data` into the ring at `at`, wrapping once if it has to. */
  method Put(a: array<byte>, at: nat, data: seq<byte>)
    requires at < a.Length && |data| <= a.Length
    modifies a
    ensures forall k | 0 <= k < |data| :: a[Slot(a.Length, at, k)] == data[k]
    ensures forall k | |data| <= k < a.Length ::
        a[Slot(a.Length, at, k)] == old(a[Slot(a.Length, at, k)])
  {
    var take := |data|;
    var first := if a.Length - at < take then a.Length - at else take;
    forall i | 0 <= i < first {
      a[at + i] := data[i];
    }
    forall i | 0 <= i < take - first {
      a[i] := data[first + i];
    }
  }

  /** memcpy of n bytes out of the ring from `at`. */
  method Get(a: array<byte>, at: nat, n: nat) returns (data: seq<byte>)
    requires at < a.Length && n <= a.Length
    ensures |data| == n
    ensures forall k | 0 <= k < n :: data[k] == a[Slot(a.Length, at, k)]
  {
    var first := if a.Length - at < n then a.Length - at else n;
    data := a[at..at + first] + a[..n - first];
  }
}
