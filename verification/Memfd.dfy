/** Anonymous memory files (kernel/src/fs/memfd.c): a sparse array of pages behaves as a plain string of bytes, up to
    what a mapping has stored past the end of the file in its last page. */
module Memfd {

  type byte = bv8

  const PAGE_SIZE: nat := 4096
  const TWO64: nat := 0x1_0000_0000_0000_0000

  datatype Slot = Hole | Frame(bytes: seq<byte>)

  datatype Seal = SEAL | SHRINK | GROW | WRITE | FUTURE_WRITE

  datatype Result = Done(n: nat) | EPERM | EFBIG | ENOMEM | EINVAL | EBUSY

  predicate Whole(pages: seq<Slot>) { forall i | 0 <= i < |pages| :: pages[i].Frame? ==> |pages[i].bytes| == PAGE_SIZE }

  /** The byte at position i, wherever the file ends. */
  function At(pages: seq<Slot>, i: nat): byte
    requires Whole(pages)
  {
    var p := i / PAGE_SIZE;
    if p < |pages| && pages[p].Frame? then pages[p].bytes[i % PAGE_SIZE] else 0
  }

  /** Nothing but zeroes from n on. */
  ghost predicate ZeroFrom(pages: seq<Slot>, n: nat)
    requires Whole(pages)
  {
    forall i: nat | n <= i :: At(pages, i) == 0
  }

  function Content(pages: seq<Slot>, size: nat): (r: seq<byte>)
    requires Whole(pages)
    ensures |r| == size && forall i: nat | i < size :: r[i] == At(pages, i)
  {
    seq(size, i requires 0 <= i < size => At(pages, i))
  }

  // ---------------------------------------------------------------- the plain file

  function Zeroes(n: nat): (r: seq<byte>)
    ensures |r| == n && forall i | 0 <= i < n :: r[i] == 0
  {
    seq(n, _ => 0)
  }

  function Resized(b: seq<byte>, size: nat): seq<byte> {
    if size <= |b| then b[..size] else b + Zeroes(size - |b|)
  }

  function Overlaid(b: seq<byte>, off: nat, d: seq<byte>): seq<byte>
    requires off + |d| <= |b|
  {
    b[..off] + d + b[off + |d|..]
  }

  function Max(a: nat, b: nat): nat { if a < b then b else a }

  /** The end of the page that position n is in, or n itself between two pages. */
  function RoundUp(n: nat): (m: nat)
    ensures n <= m < n + PAGE_SIZE && m % PAGE_SIZE == 0
  {
    (n + PAGE_SIZE - 1) / PAGE_SIZE * PAGE_SIZE
  }

  lemma RoundUpMore(a: nat, b: nat)
    requires a <= b
    ensures RoundUp(a) <= RoundUp(b) && (RoundUp(a) == RoundUp(b) || RoundUp(a) <= b)
  {}

  /** A file with what its last page holds past its end. */
  datatype Text = Text(raw: seq<byte>, size: nat)

  predicate Proper(t: Text) { |t.raw| == RoundUp(t.size) }

  function Plain(t: Text): seq<byte>
    requires Proper(t)
  {
    t.raw[..t.size]
  }

  /** Cut short, the rest of its last page is cleared; extended, what that page held past the end is in the file. */
  function Sized(t: Text, n: nat): (r: Text)
    requires Proper(t)
    ensures Proper(r) && r.size == n
  {
    if n < t.size then Text(t.raw[..n] + Zeroes(RoundUp(n) - n), n)
    else
      RoundUpMore(t.size, n);
      Text(t.raw + Zeroes(RoundUp(n) - RoundUp(t.size)), n)
  }

  /** After a write that got n of its bytes in: the file reaches to where the write was to end, and only those n
      bytes are new. */
  function Written(t: Text, off: nat, d: seq<byte>, n: nat): (r: Text)
    requires Proper(t) && n <= |d|
    ensures Proper(r)
  {
    var g := Sized(t, Max(t.size, off + |d|));
    g.(raw := Overlaid(g.raw, off, d[..n]))
  }

  /** What the last page holds past the end, as far as n, is nothing but zeroes. */
  predicate CleanTo(t: Text, n: nat) { forall i | t.size <= i < n && i < |t.raw| :: t.raw[i] == 0 }

  /** Truncation keeps the first n bytes. Extension reads as zeroes if and only if the part of the last page that comes
      into the file was clean. */
  lemma SizedReads(t: Text, n: nat)
    requires Proper(t)
    ensures n <= t.size ==> Plain(Sized(t, n)) == Resized(Plain(t), n)
    ensures n >= t.size ==> (Plain(Sized(t, n)) == Resized(Plain(t), n) <==> CleanTo(t, n))
    ensures n < t.size ==> CleanTo(Sized(t, n), RoundUp(n))
  {
    if n >= t.size {
      RoundUpMore(t.size, n);
      var a, b := Plain(Sized(t, n)), Resized(Plain(t), n);
      assert |a| == |b| == n;
      if CleanTo(t, n) {
        forall i | 0 <= i < n ensures a[i] == b[i] {}
      }
      if a == b {
        forall i | t.size <= i < n && i < |t.raw| ensures t.raw[i] == 0 { assert a[i] == b[i]; }
      }
    }
  }

  /** In a file that does not end with a page, a store just past its end is in the file once it grows. */
  lemma GrowsDirty(t: Text, v: byte, n: nat)
    requires Proper(t) && t.size % PAGE_SIZE != 0 && v != 0 && t.size < n
    ensures t.size < |t.raw|
    ensures var s := t.(raw := t.raw[t.size := v]); Plain(s) == Plain(t) && Plain(Sized(s, n))[t.size] == v
  {}

  // ---------------------------------------------------------------- pages

  /** How many pages the first size bytes take, as the 64-bit sum computes it. */
  function PagesFor(size: nat): nat { (size + PAGE_SIZE - 1) % TWO64 / PAGE_SIZE }

  /** A page for position i of a file of that size can be had: there is memory, and the page count has not wrapped. */
  predicate Backed(memory: set<nat>, i: nat, size: nat) { i / PAGE_SIZE in memory && size + PAGE_SIZE - 1 < TWO64 }

  /** cut_to */
  function Cut(pages: seq<Slot>, size: nat): (r: seq<Slot>)
    requires Whole(pages)
    ensures Whole(r) && |r| == |pages|
  {
    var keep := PagesFor(size);
    seq(|pages|, i requires 0 <= i < |pages| =>
      if i >= keep then Hole
      else if i == keep - 1 && size % PAGE_SIZE != 0 && pages[i].Frame? then
        Frame(pages[i].bytes[..size % PAGE_SIZE] + Zeroes(PAGE_SIZE - size % PAGE_SIZE))
      else pages[i])
  }

  lemma CutAt(pages: seq<Slot>, size: nat, i: nat)
    requires Whole(pages) && size + PAGE_SIZE - 1 < TWO64
    ensures At(Cut(pages, size), i) == if i < size then At(pages, i) else 0
  {
    var p := i / PAGE_SIZE;
    var keep := PagesFor(size);
    assert keep == (size + PAGE_SIZE - 1) / PAGE_SIZE;
    if p < |pages| && pages[p].Frame? && p < keep {
      if p == keep - 1 && size % PAGE_SIZE != 0 {
        assert i < size <==> i % PAGE_SIZE < size % PAGE_SIZE;
      }
    }
  }

  /** Cutting keeps exactly the first size bytes, for every size whose page count does not wrap around. */
  lemma CutRight(pages: seq<Slot>, size: nat, top: nat)
    requires Whole(pages) && size + PAGE_SIZE - 1 < TWO64 && size <= top
    ensures ZeroFrom(Cut(pages, size), size)
    ensures Content(Cut(pages, size), RoundUp(size)) == Content(pages, top)[..size] + Zeroes(RoundUp(size) - size)
  {
    forall i: nat ensures At(Cut(pages, size), i) == if i < size then At(pages, i) else 0 { CutAt(pages, size, i); }
    hide At, Cut;
  }

  /** For a size so close to 2^64 that the count wraps, cutting loses what the file holds at its start. (sys_ftruncate
      and the positional writes pass on no length or offset of 2^63 or more.) */
  lemma CutWrong(size: nat) returns (pages: seq<Slot>)
    requires size + PAGE_SIZE - 1 >= TWO64 && size < TWO64
    ensures Whole(pages) && At(pages, 0) == 1 && At(Cut(pages, size), 0) == 0
  {
    pages := [Frame(seq(PAGE_SIZE, _ => 1))];
    assert PagesFor(size) == 0;
  }

  // ---------------------------------------------------------------- the file

  predicate Same(pages: seq<Slot>, pages': seq<Slot>)
    requires Whole(pages) && Whole(pages')
  {
    |pages| <= |pages'| && (forall i | 0 <= i < |pages| :: pages'[i] == pages[i])
      && forall i | |pages| <= i < |pages'| :: pages'[i] == Hole
  }

  lemma SameReads(pages: seq<Slot>, pages': seq<Slot>, i: nat)
    requires Whole(pages) && Whole(pages') && Same(pages, pages')
    ensures At(pages', i) == At(pages, i)
  {}

  /** A hole and a page of zeroes read alike. */
  lemma FilledReads(pages: seq<Slot>, k: nat, i: nat)
    requires Whole(pages) && k < |pages| && pages[k] == Hole
    ensures Whole(pages[k := Frame(Zeroes(PAGE_SIZE))]) && At(pages[k := Frame(Zeroes(PAGE_SIZE))], i) == At(pages, i)
  {}

  /** A copy of d into page k at off. */
  function Copied(pages: seq<Slot>, k: nat, off: nat, d: seq<byte>): seq<Slot>
    requires Whole(pages) && k < |pages| && pages[k].Frame? && off + |d| <= PAGE_SIZE
  {
    pages[k := Frame(pages[k].bytes[..off] + d + pages[k].bytes[off + |d|..])]
  }

  lemma CopiedReads(pages: seq<Slot>, k: nat, off: nat, d: seq<byte>, i: nat)
    requires Whole(pages) && k < |pages| && pages[k].Frame? && off + |d| <= PAGE_SIZE
    ensures Whole(Copied(pages, k, off, d))
    ensures At(Copied(pages, k, off, d), i) ==
      if k * PAGE_SIZE + off <= i < k * PAGE_SIZE + off + |d| then d[i - (k * PAGE_SIZE + off)] else At(pages, i)
  {
    var p := i / PAGE_SIZE;
    if p == k {
      assert i - k * PAGE_SIZE == i % PAGE_SIZE;
    } else {
      assert !(k * PAGE_SIZE <= i < (k + 1) * PAGE_SIZE);
    }
  }

  /** The first n bytes of d have been put at off, and every other byte is as it was. */
  ghost predicate Has(pages: seq<Slot>, was: seq<Slot>, off: nat, d: seq<byte>, n: nat)
    requires Whole(pages) && Whole(was) && n <= |d|
  {
    forall i: nat :: At(pages, i) == if off <= i < off + n then d[i - off] else At(was, i)
  }

  lemma HasStill(before: seq<Slot>, pages: seq<Slot>, was: seq<Slot>, off: nat, d: seq<byte>, n: nat)
    requires Whole(before) && Whole(pages) && Whole(was) && n <= |d| && Has(before, was, off, d, n)
    requires forall i: nat :: At(pages, i) == At(before, i)
    ensures Has(pages, was, off, d, n)
  {}

  lemma HasMore(before: seq<Slot>, pages: seq<Slot>, was: seq<Slot>, off: nat, d: seq<byte>, n: nat, k: nat)
    requires Whole(before) && Whole(pages) && Whole(was) && n + k <= |d| && Has(before, was, off, d, n)
    requires forall i: nat ::
      At(pages, i) == if off + n <= i < off + n + k then d[n..n + k][i - (off + n)] else At(before, i)
    ensures Has(pages, was, off, d, n + k)
  {
    hide At;
  }

  lemma HasAll(pages: seq<Slot>, was: seq<Slot>, off: nat, d: seq<byte>, n: nat, top: nat)
    requires Whole(pages) && Whole(was) && n <= |d| && off + |d| <= top && Has(pages, was, off, d, n)
      && ZeroFrom(was, top)
    ensures ZeroFrom(pages, top) && Content(pages, top) == Overlaid(Content(was, top), off, d[..n])
  {
    hide At;
  }

  lemma SliceIs(pages: seq<Slot>, size: nat, off: nat, out: seq<byte>)
    requires Whole(pages) && off + |out| <= size && forall i: nat | i < |out| :: out[i] == At(pages, off + i)
    ensures out == Plain(Text(Content(pages, RoundUp(size)), size))[off..off + |out|]
  {
    hide At;
  }

  class File {
    var pages: seq<Slot>
    var size: nat
    var seals: set<Seal>
    var writers: nat

    ghost predicate Valid()
      reads this
    {
      Whole(pages) && size < TWO64 && ZeroFrom(pages, RoundUp(size)) && (WRITE in seals ==> writers == 0)
    }

    ghost function T(): (t: Text)
      requires Whole(pages)
      reads this
      ensures Proper(t)
    {
      Text(Content(pages, RoundUp(size)), size)
    }

    /** All of the file that its users can tell. */
    ghost function A(): Abs
      requires Whole(pages)
      reads this
    {
      Abs(T(), seals, writers)
    }

    /** memfd_create */
    constructor (sealing: bool)
      ensures Valid() && A() == Abs(Text([], 0), if sealing then {} else {SEAL}, 0)
    {
      pages, size, writers, seals := [], 0, 0, if sealing then {} else {SEAL};
    }

    /** grow_slots */
    method GrowSlots(want: nat, memory: bool) returns (ok: bool)
      requires Whole(pages)
      modifies this`pages
      ensures Whole(pages) && Same(old(pages), pages)
      ensures (ok <==> want <= |old(pages)| || memory) && (ok ==> want <= |pages|)
      ensures !ok || want <= |old(pages)| ==> pages == old(pages)
    {
      if want <= |pages| {
        return true;
      }
      var cap := if |pages| > 0 then |pages| else 16;
      while cap < want
        invariant cap > 0 && cap >= |pages|
        decreases want - cap
      {
        cap := cap * 2;
      }
      if !memory {
        return false;
      }
      pages := pages + seq(cap - |pages|, _ => Hole);
      return true;
    }

    static predicate HasFrame(pages: seq<Slot>, index: nat) { index < |pages| && pages[index].Frame? }

    /** memfd_page, creating the page; whatever it does, every byte reads as before. */
    method Page(index: nat, slots: bool, frame: bool) returns (ok: bool)
      requires Whole(pages)
      modifies this`pages
      ensures Whole(pages) && forall i: nat :: At(pages, i) == old(At(pages, i))
      ensures ok ==> index < |pages| && pages[index].Frame?
      ensures ok <==>
        index < PagesFor(size) && (old(HasFrame(pages, index)) || ((index < old(|pages|) || slots) && frame))
    {
      if index >= PagesFor(size) {
        return false;
      }
      if index < |pages| && pages[index].Frame? {
        return true;
      }
      ghost var was := pages;
      var grown := GrowSlots(index + 1, slots);
      forall i: nat ensures At(pages, i) == At(was, i) { SameReads(was, pages, i); }
      if !grown || !frame {
        return false;
      }
      ghost var mid := pages;
      forall i: nat ensures At(mid[index := Frame(Zeroes(PAGE_SIZE))], i) == At(mid, i) { FilledReads(mid, index, i); }
      pages := pages[index := Frame(Zeroes(PAGE_SIZE))];
      return true;
    }

    /** cut_to */
    method CutTo(n: nat)
      requires Whole(pages) && n < TWO64
      modifies this`pages
      ensures pages == Cut(old(pages), n)
    {
      ghost var was := pages;
      var keep := PagesFor(n);
      var i := keep;
      while i < |pages|
        invariant |pages| == |was| && (keep <= |was| ==> keep <= i <= |was|) && (keep > |was| ==> i == keep)
        invariant forall j | 0 <= j < |was| :: pages[j] == if keep <= j < i then Hole else was[j]
      {
        pages := pages[i := Hole];
        i := i + 1;
      }
      if n % PAGE_SIZE != 0 && 1 <= keep <= |pages| && pages[keep - 1].Frame? {
        var at := n % PAGE_SIZE;
        pages := pages[keep - 1 := Frame(pages[keep - 1].bytes[..at] + Zeroes(PAGE_SIZE - at))];
      }
    }

    /** resize: refused by a seal, or done, unless the page count of a cut wraps. */
    method Resize(n: nat) returns (r: Result)
      requires Valid() && n < TWO64
      modifies this`pages, this`size
      ensures r == if Allowed(old(A()), DoResize(n)) then Done(0) else EPERM
      ensures r == EPERM ==> Valid() && A() == old(A())
      ensures r != EPERM ==> Whole(pages) && size == n
      ensures r != EPERM && (n >= old(size) || n + PAGE_SIZE - 1 < TWO64) ==>
        Valid()
        && A() == Apply(old(A()), DoResize(n))
    {
      if n > size && GROW in seals {
        return EPERM;
      }
      if n < size && SHRINK in seals {
        return EPERM;
      }
      if n < size {
        if n + PAGE_SIZE - 1 < TWO64 {
          CutRight(pages, n, RoundUp(size));
        }
        CutTo(n);
      } else {
        GrownReads(pages, size, n);
      }
      size := n;
      hide At, Cut, RoundUp;
      return Done(0);
    }

    /** memfd_read: exactly the bytes of the plain file. */
    method Read(n: nat, off: nat) returns (out: seq<byte>)
      requires Valid()
      ensures out == if off >= size then [] else Plain(T())[off..if n > size - off then size else off + n]
    {
      hide At, ZeroFrom, Content, Plain;
      if off >= size {
        return [];
      }
      var want := if n > size - off then size - off else n;
      out := [];
      while |out| < want
        invariant |out| <= want && forall i: nat | i < |out| :: out[i] == At(pages, off + i)
        decreases want - |out|
      {
        var at := off + |out|;
        var o := at % PAGE_SIZE;
        var k := if PAGE_SIZE - o < want - |out| then PAGE_SIZE - o else want - |out|;
        var page := at / PAGE_SIZE;
        var chunk := if page < |pages| && pages[page].Frame? then pages[page].bytes[o..o + k] else Zeroes(k);
        ChunkReads(pages, at, k, chunk);
        out := out + chunk;
      }
      SliceIs(pages, size, off, out);
    }

    /** memfd_write, with the pages there is memory for: refused by a seal, or the plain write, cut short only at a
        page that cannot be had. The file has then grown to the full length all the same. */
    method Write(d: seq<byte>, off: nat, memory: set<nat>) returns (r: Result)
      requires Valid() && off < TWO64
      modifies this`pages, this`size
      ensures Valid()
      ensures r == EPERM <==> if off + |d| < TWO64 then !Allowed(old(A()), DoWrite(d, off, 0)) else Closed(seals)
      ensures r == EFBIG <==> !Closed(seals) && off + |d| >= TWO64
      ensures r == EPERM || r == EFBIG ==> A() == old(A())
      ensures r == ENOMEM ==> d != [] && A() == Apply(old(A()), DoWrite(d, off, 0)) && !Backed(memory, off, size)
      ensures r.Done? ==> r.n <= |d| && A() == Apply(old(A()), DoWrite(d, off, r.n))
      ensures r.Done? && r.n < |d| ==> 0 < r.n && !Backed(memory, off + r.n, size)
      ensures r.Done? || r == EPERM || r == EFBIG || r == ENOMEM
    {
      hide Sized, RoundUp, Content, ZeroFrom, Overlaid, Whole, At;
      if WRITE in seals || FUTURE_WRITE in seals {
        return EPERM;
      }
      var end := off + |d|;
      if end >= TWO64 {
        return EFBIG;
      }
      var ok := Reach(end);
      if !ok {
        return EPERM;
      }
      var done := Fill(d, off, memory);
      if done == 0 && d != [] {
        return ENOMEM;
      }
      return Done(done);
    }

    /** The file is extended if a write goes past its end, unless a seal forbids it. */
    method Reach(end: nat) returns (ok: bool)
      requires Valid() && end < TWO64
      modifies this`pages, this`size
      ensures Valid() && (ok <==> end <= old(size) || GROW !in seals)
      ensures T() == if ok then Sized(old(T()), Max(old(size), end)) else old(T())
    {
      if end > size {
        var r := Resize(end);
        return r != EPERM;
      }
      SizedSame(T());
      return true;
    }

    /** The loop of memfd_write. */
    method Fill(d: seq<byte>, off: nat, memory: set<nat>) returns (done: nat)
      requires Valid() && off + |d| <= size
      modifies this`pages
      ensures Valid() && done <= |d| && T() == old(T()).(raw := Overlaid(old(T()).raw, off, d[..done]))
      ensures done < |d| ==> !Backed(memory, off + done, size)
    {
      done := 0;
      ghost var was := pages;
      assert Has(pages, was, off, d, 0);
      hide Has, At, RoundUp, Content, ZeroFrom, PagesFor;
      while done < |d|
        invariant done <= |d| && Whole(pages) && Has(pages, was, off, d, done)
        decreases |d| - done
      {
        var o := (off + done) % PAGE_SIZE;
        var k := if PAGE_SIZE - o < |d| - done then PAGE_SIZE - o else |d| - done;
        ghost var before := pages;
        var ok := PutChunk(off + done, d[done..done + k], (off + done) / PAGE_SIZE in memory);
        if !ok {
          HasStill(before, pages, was, off, d, done);
          PageThere(off + done, size);
          break;
        }
        HasMore(before, pages, was, off, d, done, k);
        done := done + k;
      }
      HasAll(pages, was, off, d, done, RoundUp(size));
    }

    /** One turn of the loop: the part of the data that falls into one page. */
    method PutChunk(at: nat, chunk: seq<byte>, memory: bool) returns (ok: bool)
      requires Whole(pages) && at % PAGE_SIZE + |chunk| <= PAGE_SIZE
      modifies this`pages
      ensures Whole(pages) && (memory && at / PAGE_SIZE < PagesFor(size) ==> ok)
      ensures forall i: nat :: At(pages, i) == if ok && at <= i < at + |chunk| then chunk[i - at] else old(At(pages, i))
    {
      ghost var was := pages;
      ok := Page(at / PAGE_SIZE, memory, memory);
      if ok {
        var o, page := at % PAGE_SIZE, at / PAGE_SIZE;
        CopiedReads(pages, page, o, chunk, 0);
        forall i: nat
          ensures At(Copied(pages, page, o, chunk), i) == if at <= i < at + |chunk| then chunk[i - at] else At(was, i)
        {
          CopiedReads(pages, page, o, chunk, i);
        }
        pages := Copied(pages, page, o, chunk);
      }
    }

    /** memfd_add_seals; unknown says that bits outside the five are set. */
    method AddSeals(more: set<Seal>, unknown: bool) returns (r: Result)
      requires Valid()
      modifies this`seals
      ensures Valid()
      ensures r ==
        if unknown then EINVAL else if SEAL in old(seals) then EPERM else if WRITE in more && writers > 0 then EBUSY
        else Done(0)
      ensures !unknown ==> (r == Done(0) <==> Allowed(old(A()), DoSeal(more)))
      ensures A() == if r == Done(0) then Apply(old(A()), DoSeal(more)) else old(A())
    {
      if unknown {
        return EINVAL;
      }
      if SEAL in seals {
        return EPERM;
      }
      if WRITE in more && writers > 0 {
        return EBUSY;
      }
      seals := seals + more;
      return Done(0);
    }

    /** memfd_track_writer: a writable shared mapping comes or goes. */
    method TrackWriter(come: bool) returns (r: Result)
      requires Valid() && (!come ==> writers > 0)
      modifies this`writers
      ensures Valid()
      ensures var op := if come then DoCome else DoGo;
        r == (if Allowed(old(A()), op) then Done(0) else EPERM)
          && A() == if r == EPERM then old(A()) else Apply(old(A()), op)
    {
      if come && (WRITE in seals || FUTURE_WRITE in seals) {
        return EPERM;
      }
      writers := if come then writers + 1 else writers - 1;
      return Done(0);
    }

    /** A store through a writable shared mapping, anywhere in a page of the file, be it past its end. */
    method MapStore(i: nat, v: byte)
      requires Valid() && Allowed(A(), DoStore(i, v)) && i / PAGE_SIZE < |pages| && pages[i / PAGE_SIZE].Frame?
      modifies this`pages
      ensures Valid() && A() == Apply(old(A()), DoStore(i, v))
    {
      forall j: nat
        ensures At(Copied(pages, i / PAGE_SIZE, i % PAGE_SIZE, [v]), j) == if j == i then v else At(pages, j)
      {
        CopiedReads(pages, i / PAGE_SIZE, i % PAGE_SIZE, [v], j);
      }
      CopiedReads(pages, i / PAGE_SIZE, i % PAGE_SIZE, [v], 0);
      pages := Copied(pages, i / PAGE_SIZE, i % PAGE_SIZE, [v]);
      hide At, Copied, RoundUp;
    }
  }

  lemma PageThere(at: nat, size: nat)
    requires at < size
    ensures size + PAGE_SIZE - 1 < TWO64 ==> at / PAGE_SIZE < PagesFor(size)
  {}

  lemma GrownReads(pages: seq<Slot>, size: nat, n: nat)
    requires Whole(pages) && size <= n && ZeroFrom(pages, RoundUp(size))
    ensures ZeroFrom(pages, RoundUp(n)) && RoundUp(size) <= RoundUp(n)
    ensures Content(pages, RoundUp(n)) == Content(pages, RoundUp(size)) + Zeroes(RoundUp(n) - RoundUp(size))
  {
    RoundUpMore(size, n);
    hide At, RoundUp;
  }

  lemma SizedSame(t: Text)
    requires Proper(t)
    ensures Sized(t, t.size) == t
  {}

  lemma ChunkReads(pages: seq<Slot>, at: nat, k: nat, chunk: seq<byte>)
    requires Whole(pages) && at % PAGE_SIZE + k <= PAGE_SIZE && |chunk| == k
    requires var p := at / PAGE_SIZE; var o := at % PAGE_SIZE;
      chunk == if p < |pages| && pages[p].Frame? then pages[p].bytes[o..o + k] else Zeroes(k)
    ensures forall i: nat | i < k :: chunk[i] == At(pages, at + i)
  {
    forall i: nat | i < k ensures chunk[i] == At(pages, at + i) { SamePage(at, i); }
  }

  lemma SamePage(at: nat, i: nat)
    requires at % PAGE_SIZE + i < PAGE_SIZE
    ensures (at + i) / PAGE_SIZE == at / PAGE_SIZE && (at + i) % PAGE_SIZE == at % PAGE_SIZE + i
  {}

  // ---------------------------------------------------------------- runs

  /** What users can tell of a file, with the writable mappings it has. */
  datatype Abs = Abs(text: Text, seals: set<Seal>, writers: nat)

  datatype Op =
    | DoWrite(data: seq<byte>, off: nat, n: nat) | DoResize(size: nat) | DoSeal(more: set<Seal>)
    | DoCome | DoGo | DoStore(i: nat, v: byte)

  predicate Closed(seals: set<Seal>) { WRITE in seals || FUTURE_WRITE in seals }

  /** What a file lets happen; each method above refuses exactly the rest. */
  predicate Allowed(a: Abs, op: Op) {
    match op
    case DoWrite(d, off, n) => n <= |d| && !Closed(a.seals) && (off + |d| > a.text.size ==> GROW !in a.seals)
    case DoResize(n) => (n > a.text.size ==> GROW !in a.seals) && (n < a.text.size ==> SHRINK !in a.seals)
    case DoSeal(more) => SEAL !in a.seals && (WRITE in more ==> a.writers == 0)
    case DoCome => !Closed(a.seals)
    case DoGo => a.writers > 0
    case DoStore(i, v) => a.writers > 0 && i < |a.text.raw|
  }

  function Apply(a: Abs, op: Op): (r: Abs)
    requires Proper(a.text) && Allowed(a, op)
    ensures Proper(r.text)
  {
    match op
    case DoWrite(d, off, n) => a.(text := Written(a.text, off, d, n))
    case DoResize(n) => a.(text := Sized(a.text, n))
    case DoSeal(more) => a.(seals := a.seals + more)
    case DoCome => a.(writers := a.writers + 1)
    case DoGo => a.(writers := a.writers - 1)
    case DoStore(i, v) => a.(text := a.text.(raw := a.text.raw[i := v]))
  }

  predicate Can(a: Abs, ops: seq<Op>)
    requires Proper(a.text)
    decreases |ops|
  {
    ops == [] || (Allowed(a, ops[0]) && Can(Apply(a, ops[0]), ops[1..]))
  }

  function Run(a: Abs, ops: seq<Op>): (r: Abs)
    requires Proper(a.text) && Can(a, ops)
    ensures Proper(r.text)
    decreases |ops|
  {
    if ops == [] then a else Run(Apply(a, ops[0]), ops[1..])
  }

  predicate NoWritersSealed(a: Abs) { WRITE in a.seals ==> a.writers == 0 }

  /** Seals are never taken off, and a file sealed against writing has no writable mapping. */
  lemma {:induction false} SealsStay(a: Abs, ops: seq<Op>)
    requires Proper(a.text) && NoWritersSealed(a) && Can(a, ops)
    ensures a.seals <= Run(a, ops).seals && NoWritersSealed(Run(a, ops))
    ensures SEAL in a.seals ==> Run(a, ops).seals == a.seals
    decreases |ops|
  {
    if ops != [] {
      SealsStay(Apply(a, ops[0]), ops[1..]);
    }
  }

  /** A file sealed against writing, shrinking and growing keeps its size and contents, whatever comes. */
  lemma {:induction false} Frozen(a: Abs, ops: seq<Op>)
    requires Proper(a.text) && NoWritersSealed(a) && {WRITE, SHRINK, GROW} <= a.seals && Can(a, ops)
    ensures Run(a, ops).text == a.text
    decreases |ops|
  {
    if ops != [] {
      assert WRITE in a.seals && SHRINK in a.seals && GROW in a.seals;
      if ops[0].DoResize? {
        SizedSame(a.text);
      }
      Frozen(Apply(a, ops[0]), ops[1..]);
    }
  }

  predicate Clean(t: Text) { CleanTo(t, |t.raw|) }

  /** The store is past the end of the file as it then is. */
  ghost predicate Spills(a: Abs, op: Op) { op.DoStore? && op.i >= a.text.size && op.v != 0 }

  /** No store of the run was past the end. */
  ghost predicate NoSpill(a: Abs, ops: seq<Op>)
    requires Proper(a.text) && Can(a, ops)
    decreases |ops|
  {
    ops == [] || (!Spills(a, ops[0]) && NoSpill(Apply(a, ops[0]), ops[1..]))
  }

  lemma StepClean(a: Abs, op: Op)
    requires Proper(a.text) && Allowed(a, op) && Clean(a.text) && !Spills(a, op)
    ensures Clean(Apply(a, op).text)
  {
    var t := a.text;
    match op
    case DoWrite(d, off, n) => WrittenClean(t, off, d, n);
    case DoResize(n) => SizedClean(t, n);
    case _ =>
  }

  lemma SizedClean(t: Text, n: nat)
    requires Proper(t) && Clean(t)
    ensures Clean(Sized(t, n))
  {}

  lemma WrittenClean(t: Text, off: nat, d: seq<byte>, n: nat)
    requires Proper(t) && Clean(t) && n <= |d|
    ensures Clean(Written(t, off, d, n))
  {
    var g := Sized(t, Max(t.size, off + |d|));
    SizedClean(t, Max(t.size, off + |d|));
    hide Sized, RoundUp;
    forall i | g.size <= i < |g.raw| ensures Overlaid(g.raw, off, d[..n])[i] == 0 { assert g.raw[i] == 0; }
  }

  /** Over every run without a store past the end, the file is a plain string of bytes: growing adds zeroes, whatever
      was there before it shrank. */
  lemma {:induction false} PlainRun(a: Abs, ops: seq<Op>, n: nat)
    requires Proper(a.text) && Clean(a.text) && Can(a, ops) && NoSpill(a, ops)
    ensures var t := Run(a, ops).text; Clean(t) && Plain(Sized(t, n)) == Resized(Plain(t), n)
    decreases |ops|
  {
    if ops == [] {
      SizedReads(a.text, n);
    } else {
      StepClean(a, ops[0]);
      PlainRun(Apply(a, ops[0]), ops[1..], n);
    }
    hide Sized, Apply, Clean, Spills;
  }
}
