/** What several models need of options, lists and finite sets. */
module Collections {

  datatype Option<+T> = None | Some(value: T)

  predicate NoDup(l: seq<nat>) { forall i, j | 0 <= i < j < |l| :: l[i] != l[j] }

  lemma NoDupAppend(a: seq<nat>, b: seq<nat>)
    requires NoDup(a) && NoDup(b) && forall x: nat | x in b :: x !in a
    ensures NoDup(a + b)
  {
    forall i, j | 0 <= i < j < |a + b| ensures (a + b)[i] != (a + b)[j] {
      if i < |a| <= j {
        assert b[j - |a|] in b;
      }
    }
  }

  /** The numbers from 0 to n - 1. */
  ghost function Below(n: nat): (r: set<int>)
    ensures |r| == n && forall i :: i in r <==> 0 <= i < n
  {
    if n == 0 then {} else Below(n - 1) + {n - 1}
  }

  lemma SubsetSize<T>(a: set<T>, b: set<T>)
    requires a <= b
    ensures |a| <= |b|
  {
    assert b == a + (b - a);
  }

  /** The size of a set once one element has been taken out, or put in, or left. */
  lemma SizeAfter<T>(a: set<T>, s: T, stays: bool)
    ensures |a - {s} + (if stays then {s} else {})| == |a| - (if s in a then 1 else 0) + (if stays then 1 else 0)
  {
    var rest := a - {s};
    assert if s in a then a == rest + {s} else a == rest;
    assert stays || rest + {} == rest;
  }
}
