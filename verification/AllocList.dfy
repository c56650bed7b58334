/** The list of address ranges a task group owns (kernel/src/ipc/zero_copy.c, ipc_detach_alloc_range): taking a range
    out of the middle, an end or the whole of one entry. */
module AllocList {
  import opened Collections

  const PAGE_SIZE: nat := 4096
  const TWO64: nat := 0x1_0000_0000_0000_0000

  /** pages * PAGE_SIZE bytes from vaddr on, backed by a file from offset on. */
  datatype Alloc = Alloc(vaddr: nat, pages: nat, offset: nat, file: nat)

  datatype Result = OK | EINVAL | ENOMEM

  function End(e: Alloc): nat { e.vaddr + e.pages * PAGE_SIZE }

  predicate Covers(e: Alloc, a: nat) { e.vaddr <= a < End(e) }

  predicate Good(e: Alloc) { e.vaddr % PAGE_SIZE == 0 && e.pages > 0 && End(e) < TWO64 }

  /** No address is in two entries. */
  predicate Valid(list: seq<Alloc>) {
    && (forall i | 0 <= i < |list| :: Good(list[i]))
    && (forall i, j | 0 <= i < j < |list| :: Apart(list[i], list[j]))
  }

  predicate Apart(d: Alloc, e: Alloc) { End(d) <= e.vaddr || End(e) <= d.vaddr }

  lemma ValidAppend(xs: seq<Alloc>, ys: seq<Alloc>)
    requires Valid(xs) && Valid(ys) && forall i, j | 0 <= i < |xs| && 0 <= j < |ys| :: Apart(xs[i], ys[j])
    ensures Valid(xs + ys)
  {
    hide Apart, Good;
  }

  /** What stands behind address a: a file and a position in it. */
  function Behind(list: seq<Alloc>, a: nat): Option<(nat, nat)> {
    if list == [] then None
    else if Covers(list[0], a) then Some((list[0].file, list[0].offset + (a - list[0].vaddr)))
    else Behind(list[1..], a)
  }

  lemma {:induction false} BehindAppend(xs: seq<Alloc>, ys: seq<Alloc>, a: nat)
    ensures Behind(xs + ys, a) == if Behind(xs, a).Some? then Behind(xs, a) else Behind(ys, a)
  {
    if xs == [] {
      assert xs + ys == ys;
    } else {
      assert (xs + ys)[1..] == xs[1..] + ys && (xs + ys)[0] == xs[0];
      BehindAppend(xs[1..], ys, a);
    }
  }

  lemma {:induction false} NotBehind(xs: seq<Alloc>, a: nat)
    requires forall i | 0 <= i < |xs| :: !Covers(xs[i], a)
    ensures Behind(xs, a) == None
  {
    if xs != [] {
      NotBehind(xs[1..], a);
    }
  }

  /** What is left of one entry once [addr, end) is out of it. */
  function Rest(e: Alloc, addr: nat, end: nat): (r: seq<Alloc>)
    requires e.vaddr <= addr < end <= End(e)
  {
    var before := if addr == e.vaddr then [] else [e.(pages := (addr - e.vaddr) / PAGE_SIZE)];
    var after := if end == End(e) then []
                 else [Alloc(end, (End(e) - end) / PAGE_SIZE, e.offset + (end - e.vaddr), e.file)];
    before + after
  }

  predicate Inside(d: Alloc, e: Alloc) { e.vaddr <= d.vaddr && End(d) <= End(e) }

  lemma RestGood(e: Alloc, addr: nat, end: nat)
    requires Good(e) && e.vaddr <= addr < end <= End(e) && addr % PAGE_SIZE == 0 && end % PAGE_SIZE == 0
    ensures forall i | 0 <= i < |Rest(e, addr, end)| :: Good(Rest(e, addr, end)[i]) && Inside(Rest(e, addr, end)[i], e)
    ensures Valid(Rest(e, addr, end))
  {
    assert (addr - e.vaddr) % PAGE_SIZE == 0 && (End(e) - end) % PAGE_SIZE == 0;
  }

  lemma RestBehind(e: Alloc, addr: nat, end: nat, a: nat)
    requires Good(e) && e.vaddr <= addr < end <= End(e) && addr % PAGE_SIZE == 0 && end % PAGE_SIZE == 0
    ensures Behind(Rest(e, addr, end), a) == if addr <= a < end then None else Behind([e], a)
  {
    var before := e.(pages := (addr - e.vaddr) / PAGE_SIZE);
    var after := Alloc(end, (End(e) - end) / PAGE_SIZE, e.offset + (end - e.vaddr), e.file);
    Ends(e, addr, end);
    BehindOne(before, a);
    BehindOne(after, a);
    BehindOne(e, a);
    if addr != e.vaddr && end != End(e) {
      assert Rest(e, addr, end) == [before] + [after];
      BehindAppend([before], [after], a);
    } else if addr != e.vaddr {
      assert Rest(e, addr, end) == [before];
    } else if end != End(e) {
      assert Rest(e, addr, end) == [after];
    } else {
      assert Rest(e, addr, end) == [];
    }
    hide Rest, Good;
  }

  lemma BehindOne(e: Alloc, a: nat)
    ensures Covers(e, a) ==>
      Behind([e], a).Some? && Behind([e], a).value.0 == e.file
      && Behind([e], a).value.1 == e.offset + (a - e.vaddr)
    ensures !Covers(e, a) ==> Behind([e], a) == None
  {}

  lemma Ends(e: Alloc, addr: nat, end: nat)
    requires Good(e) && e.vaddr <= addr < end <= End(e) && addr % PAGE_SIZE == 0 && end % PAGE_SIZE == 0
    ensures End(e.(pages := (addr - e.vaddr) / PAGE_SIZE)) == addr
    ensures End(Alloc(end, (End(e) - end) / PAGE_SIZE, e.offset + (end - e.vaddr), e.file)) == End(e)
  {
    assert (addr - e.vaddr) % PAGE_SIZE == 0 && (End(e) - end) % PAGE_SIZE == 0;
  }

  /** The list with entry i replaced by what is left of it. */
  function Without(list: seq<Alloc>, i: nat, addr: nat, end: nat): seq<Alloc>
    requires i < |list| && list[i].vaddr <= addr < end <= End(list[i])
  {
    list[..i] + Rest(list[i], addr, end) + list[i + 1..]
  }

  /** Exactly the range is gone: every other address has what it had behind it, and the list is a list of disjoint
      ranges again. */
  lemma WithoutRight(list: seq<Alloc>, i: nat, addr: nat, end: nat)
    requires Valid(list) && i < |list| && list[i].vaddr <= addr < end <= End(list[i])
    requires addr % PAGE_SIZE == 0 && end % PAGE_SIZE == 0
    ensures Valid(Without(list, i, addr, end))
    ensures forall a: nat :: Behind(Without(list, i, addr, end), a) == if addr <= a < end then None else Behind(list, a)
  {
    WithoutValid(list, i, addr, end);
    forall a: nat
      ensures Behind(Without(list, i, addr, end), a) == if addr <= a < end then None else Behind(list, a)
    {
      BehindWithout(list, i, addr, end, a);
    }
    hide Valid, Without, Behind;
  }

  lemma WithoutValid(list: seq<Alloc>, i: nat, addr: nat, end: nat)
    requires Valid(list) && i < |list| && list[i].vaddr <= addr < end <= End(list[i])
    requires addr % PAGE_SIZE == 0 && end % PAGE_SIZE == 0
    ensures Valid(Without(list, i, addr, end))
  {
    var rest := Rest(list[i], addr, end);
    RestGood(list[i], addr, end);
    var xs, ys := list[..i], list[i + 1..];
    assert forall j | 0 <= j < |ys| :: ys[j] == list[i + 1 + j];
    forall j, k | 0 <= j < |xs| && 0 <= k < |rest| ensures Apart(xs[j], rest[k]) {
      assert Apart(list[j], list[i]) && Inside(rest[k], list[i]);
    }
    ValidAppend(xs, rest);
    forall j, k | 0 <= j < |xs + rest| && 0 <= k < |ys| ensures Apart((xs + rest)[j], ys[k]) {
      if j < i {
        assert Apart(list[j], list[i + 1 + k]);
      } else {
        assert Apart(list[i], list[i + 1 + k]) && Inside(rest[j - i], list[i]);
      }
    }
    ValidAppend(xs + rest, ys);
    hide Valid, Rest;
  }

  lemma BehindWithout(list: seq<Alloc>, i: nat, addr: nat, end: nat, a: nat)
    requires Valid(list) && i < |list| && list[i].vaddr <= addr < end <= End(list[i])
    requires addr % PAGE_SIZE == 0 && end % PAGE_SIZE == 0
    ensures Behind(Without(list, i, addr, end), a) == if addr <= a < end then None else Behind(list, a)
  {
    var rest := Rest(list[i], addr, end);
    RestBehind(list[i], addr, end, a);
    assert list == list[..i] + ([list[i]] + list[i + 1..]);
    assert Without(list, i, addr, end) == list[..i] + (rest + list[i + 1..]);
    BehindAppend(list[..i], [list[i]] + list[i + 1..], a);
    BehindAppend([list[i]], list[i + 1..], a);
    BehindAppend(list[..i], rest + list[i + 1..], a);
    BehindAppend(rest, list[i + 1..], a);
    if Covers(list[i], a) {
      NotBehind(list[..i], a);
      NotBehind(list[i + 1..], a);
    }
  }

  predicate Contains(e: Alloc, addr: nat, end: nat) { e.vaddr <= addr && end <= End(e) }

  /** ipc_detach_alloc_range; room says whether a new list node could be allocated, and the end of the range wraps
      like the 64-bit sum it is. */
  method Detach(list: seq<Alloc>, addr: nat, pages: nat, room: bool) returns (r: Result, list': seq<Alloc>)
    requires Valid(list) && addr < TWO64 && addr % PAGE_SIZE == 0 && pages * PAGE_SIZE < TWO64
    ensures r == OK ==> Valid(list')
    ensures r == OK ==>
      forall a: nat :: Behind(list', a) == if addr <= a < addr + pages * PAGE_SIZE then None else Behind(list, a)
    ensures r != OK ==> list' == list
    ensures r == EINVAL <==>
      addr == 0 || pages == 0 || forall i | 0 <= i < |list| :: !Contains(list[i], addr, addr + pages * PAGE_SIZE)
    ensures r == ENOMEM <==> addr != 0 && pages != 0 && !room && SplitsOne(list, addr, addr + pages * PAGE_SIZE)
  {
    list' := list;
    if addr == 0 || pages == 0 {
      return EINVAL, list;
    }
    var end := (addr + pages * PAGE_SIZE) % TWO64;
    if end < addr {
      Wraps(list, addr, addr + pages * PAGE_SIZE);
      return EINVAL, list;
    }
    assert end == addr + pages * PAGE_SIZE && end % PAGE_SIZE == 0;
    var i := 0;
    while i < |list| && (addr < list[i].vaddr || end > End(list[i]))
      invariant 0 <= i <= |list| && forall j | 0 <= j < i :: !Contains(list[j], addr, end)
    {
      i := i + 1;
    }
    if i == |list| {
      return EINVAL, list;
    }
    var cur := list[i];
    assert Contains(cur, addr, end);
    WithoutRight(list, i, addr, end);
    OnlyOne(list, i, addr, end);
    if addr == cur.vaddr && end == End(cur) {
      list' := list[..i] + list[i + 1..];
      assert list' == Without(list, i, addr, end);
      return OK, list';
    }
    if addr == cur.vaddr {
      Whole(cur, addr, pages);
      list' := list[i := Alloc(end, cur.pages - pages, cur.offset + pages * PAGE_SIZE, cur.file)];
      assert list' == Without(list, i, addr, end);
      return OK, list';
    }
    if end == End(cur) {
      Whole(cur, addr, pages);
      list' := list[i := cur.(pages := cur.pages - pages)];
      assert list' == Without(list, i, addr, end);
      return OK, list';
    }
    if !room {
      return ENOMEM, list;
    }
    var tail := Alloc(end, (End(cur) - end) / PAGE_SIZE, cur.offset + (end - cur.vaddr), cur.file);
    list' := list[..i] + [cur.(pages := (addr - cur.vaddr) / PAGE_SIZE), tail] + list[i + 1..];
    assert list' == Without(list, i, addr, end);
    return OK, list';
  }

  /** The range lies strictly inside an entry, which has to be split. */
  predicate SplitsOne(list: seq<Alloc>, addr: nat, end: nat) {
    exists i :: 0 <= i < |list| && list[i].vaddr < addr && end < End(list[i])
  }

  lemma OnlyOne(list: seq<Alloc>, i: nat, addr: nat, end: nat)
    requires Valid(list) && i < |list| && Contains(list[i], addr, end) && addr < end
    ensures SplitsOne(list, addr, end) <==> list[i].vaddr < addr && end < End(list[i])
  {
    if SplitsOne(list, addr, end) {
      var j :| 0 <= j < |list| && list[j].vaddr < addr && end < End(list[j]);
    }
  }

  lemma Wraps(list: seq<Alloc>, addr: nat, end: nat)
    requires Valid(list) && addr < TWO64 && end >= TWO64
    ensures forall i | 0 <= i < |list| :: !Contains(list[i], addr, end)
  {}

  lemma Whole(e: Alloc, addr: nat, pages: nat)
    requires Good(e) && e.vaddr <= addr && addr + pages * PAGE_SIZE <= End(e) && pages > 0
    requires addr == e.vaddr || addr + pages * PAGE_SIZE == End(e)
    ensures addr == e.vaddr ==> (End(e) - (addr + pages * PAGE_SIZE)) / PAGE_SIZE == e.pages - pages
    ensures addr + pages * PAGE_SIZE == End(e) ==> (addr - e.vaddr) / PAGE_SIZE == e.pages - pages
  {
    assert addr == e.vaddr ==> End(e) - (addr + pages * PAGE_SIZE) == (e.pages - pages) * PAGE_SIZE;
    assert addr + pages * PAGE_SIZE == End(e) ==> addr - e.vaddr == (e.pages - pages) * PAGE_SIZE;
  }
}
