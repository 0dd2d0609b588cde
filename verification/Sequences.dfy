/** Lists without repeats, slices as buffers cut them, and regrouping. */
module Sequences {
  /** The first occurrence of every element, in order. */
  function Dedup<T(==, !new)>(xs: seq<T>): (r: seq<T>)
    ensures forall x :: x in r <==> x in xs
  {
    if xs == [] then []
    else
      var before := Dedup(xs[..|xs| - 1]);
      var last := xs[|xs| - 1];
      assert xs == xs[..|xs| - 1] + [last];
      if last in before then before else before + [last]
  }

  lemma {:induction false} DedupDistinct<T(!new)>(xs: seq<T>)
    ensures forall i, j :: 0 <= i < j < |Dedup(xs)| ==> Dedup(xs)[i] != Dedup(xs)[j]
  {
    if xs != [] {
      DedupDistinct(xs[..|xs| - 1]);
    }
  }

  lemma {:induction false} DedupFirst<T(!new)>(x: T, xs: seq<T>)
    ensures Dedup([x] + xs) != [] && Dedup([x] + xs)[0] == x
  {
    var all := [x] + xs;
    if xs == [] {
      assert all[..0] == [];
    } else {
      assert all[..|all| - 1] == [x] + xs[..|xs| - 1];
      DedupFirst(x, xs[..|xs| - 1]);
    }
  }

  /** A slice that ends where the buffer does, and is empty when it would end before it starts. */
  function Slice<T>(b: seq<T>, from: nat, to: nat): seq<T> {
    var end := if to <= |b| then to else |b|;
    if from <= end then b[from..end] else []
  }

  lemma Associates<T>(a: seq<T>, b: seq<T>, c: seq<T>)
    ensures a + b + c == a + (b + c)
    ensures [] + a == a && a + [] == a
  {
  }
}
