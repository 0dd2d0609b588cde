/**
  The deck shuffle: draws below a bound by rejection, then Fisher-Yates in place. Accepted draws hit
  every choice equally often, and vectors of choices and orderings of a deck correspond one to one, so
  every ordering is reached by equally many vectors of accepted outputs.
 */
module SeededShuffle {
  import opened Bits
  import opened SeededRng

  // ---- fair draws -----------------------------------------------------------------------------

  /** The largest multiple of `m` not above 2^32. */
  function Bound(m: nat): nat
    requires 0 < m <= UINT32_RANGE
  {
    UINT32_RANGE - UINT32_RANGE % m
  }

  function Reduce(value: nat, m: nat): (r: nat)
    requires m > 0
    ensures r < m
  {
    value % m
  }

  /** How many of the first `n` values leave remainder `r`. */
  function Hits(n: nat, m: nat, r: nat): nat
    requires m > 0
  {
    if n == 0 then 0 else Hits(n - 1, m, r) + (if Reduce(n - 1, m) == r then 1 else 0)
  }

  lemma HitsNext(n: nat, m: nat, r: nat)
    requires m > 0
    ensures Hits(n + 1, m, r) == Hits(n, m, r) + (if Reduce(n, m) == r then 1 else 0)
  {
  }

  lemma {:induction false} HitsWithin(k: nat, m: nat, r: nat, j: nat)
    requires j <= m && r < m
    ensures k * m + j >= 0 && Hits(k * m + j, m, r) == Hits(k * m, m, r) + (if r < j then 1 else 0)
  {
    if j > 0 {
      HitsWithin(k, m, r, j - 1);
      DivModUnique(k * m + (j - 1), m, k, j - 1);
      HitsNext(k * m + (j - 1), m, r);
    }
  }

  lemma {:induction false} HitsInMultiple(k: nat, m: nat, r: nat)
    requires r < m
    ensures k * m >= 0 && Hits(k * m, m, r) == k
  {
    if k > 0 {
      HitsInMultiple(k - 1, m, r);
      HitsWithin(k - 1, m, r, m);
      assert k * m == (k - 1) * m + m;
    }
  }

  /** Below the bound every remainder occurs equally often, and no larger bound would do. */
  lemma AcceptedDrawsAreFair(m: nat, r: nat)
    requires 0 < m <= UINT32_RANGE && r < m
    ensures Hits(Bound(m), m, r) == Bound(m) / m && Bound(m) % m == 0
    ensures 0 < Bound(m) <= UINT32_RANGE < Bound(m) + m
  {
    var k := UINT32_RANGE / m;
    assert UINT32_RANGE == k * m + UINT32_RANGE % m;
    assert k >= 1;
    MulSign(k, m);
    DivModUnique(k * m, m, k, 0);
    HitsInMultiple(k, m, r);
  }

  // ---- drawing -----------------------------------------------------------------------------------

  /** Output `n` is the first from `at` on that a draw below `m` accepts. */
  ghost predicate FirstAccepted(g: State, at: nat, m: nat, n: nat)
    requires 0 < m <= UINT32_RANGE
  {
    at <= n && OutputAt(g, n) < Bound(m) && AllRejected(g, at, m, n)
  }

  /** No output from `at` up to `n` is accepted. */
  ghost predicate AllRejected(g: State, at: nat, m: nat, n: nat)
    requires 0 < m <= UINT32_RANGE
    decreases n - at
  {
    at >= n || (OutputAt(g, at) >= Bound(m) && AllRejected(g, at + 1, m, n))
  }

  ghost predicate Answers(g: State, at: nat, m: nat)
    requires 0 < m <= UINT32_RANGE
  {
    exists n: nat :: FirstAccepted(g, at, m, n)
  }

  ghost function Accepted(g: State, at: nat, m: nat): (n: nat)
    requires 0 < m <= UINT32_RANGE && Answers(g, at, m)
  {
    var n: nat :| FirstAccepted(g, at, m, n);
    n
  }

  lemma AcceptedIsFirst(g: State, at: nat, m: nat)
    requires 0 < m <= UINT32_RANGE && Answers(g, at, m)
    ensures FirstAccepted(g, at, m, Accepted(g, at, m))
  {
    hide FirstAccepted;
  }

  /** A choice among `maxExclusive` values; a choice among one takes no output. */
  method NextInt(rng: Rng, maxExclusive: nat) returns (value: nat)
    requires rng.Valid() && maxExclusive <= UINT32_RANGE
    requires maxExclusive > 1 ==> Answers(rng.start, rng.taken, maxExclusive)
    modifies rng
    ensures rng.Valid()
    ensures maxExclusive <= 1 ==> value == 0 && rng.taken == old(rng.taken)
    ensures maxExclusive > 1 ==>
              var n := Accepted(rng.start, old(rng.taken), maxExclusive);
              value == Reduce(OutputAt(rng.start, n), maxExclusive) && value < maxExclusive && rng.taken == n + 1
  {
    if maxExclusive <= 1 {
      return 0;
    }
    hide *;
    var bound := Bound(maxExclusive);
    ghost var at, g := rng.taken, rng.start;
    ghost var n := Accepted(g, at, maxExclusive);
    AcceptedIsFirst(g, at, maxExclusive);
    value := rng.NextU32();
    NotBefore(g, at, maxExclusive, n, at);
    while value >= bound
      invariant rng.Valid() && at < rng.taken <= n + 1 && value == OutputAt(g, rng.taken - 1)
      invariant value < bound <==> rng.taken == n + 1
      decreases n + 1 - rng.taken
    {
      NotBefore(g, at, maxExclusive, n, rng.taken);
      value := rng.NextU32();
    }
    value := Reduce(value, maxExclusive);
  }

  lemma NotBefore(g: State, at: nat, m: nat, n: nat, k: nat)
    requires 0 < m <= UINT32_RANGE && FirstAccepted(g, at, m, n) && at <= k
    ensures at <= n && (k <= n ==> (OutputAt(g, k) < Bound(m) <==> k == n))
  {
    hide Bound, OutputAt;
    if k < n {
      RejectedAt(g, at, m, n, k);
    }
  }

  lemma {:induction false} RejectedAt(g: State, at: nat, m: nat, n: nat, k: nat)
    requires 0 < m <= UINT32_RANGE && AllRejected(g, at, m, n) && at <= k < n
    ensures OutputAt(g, k) >= Bound(m)
    decreases k - at
  {
    hide Bound, OutputAt;
    if at < k {
      RejectedAt(g, at + 1, m, n, k);
    }
  }

  // ---- Fisher-Yates ---------------------------------------------------------------------------------

  function Swap<T>(s: seq<T>, i: nat, j: nat): (r: seq<T>)
    requires i < |s| && j < |s|
    ensures |r| == |s|
  {
    s[i := s[j]][j := s[i]]
  }

  /** Choices for the last place, the one before, and so on down to the second. */
  ghost predicate ChoicesFor(c: seq<nat>, n: nat) {
    if n <= 1 then c == [] else c != [] && c[0] < n && ChoicesFor(c[1..], n - 1)
  }

  /** Where a vector of choices leads: the chosen card goes last, the rest is shuffled the same way. */
  function Shuffled<T>(s: seq<T>, c: seq<nat>): (r: seq<T>)
    requires ChoicesFor(c, |s|)
    ensures |r| == |s|
    decreases |s|
  {
    if |s| <= 1 then s
    else
      var last := |s| - 1;
      var swapped := Swap(s, last, c[0]);
      Shuffled(swapped[..last], c[1..]) + [swapped[last]]
  }

  lemma SwapKeepsCards<T>(s: seq<T>, i: nat, j: nat)
    requires i < |s| && j < |s|
    ensures multiset(Swap(s, i, j)) == multiset(s)
  {
  }

  lemma SplitLast<T>(s: seq<T>)
    requires s != []
    ensures multiset(s) == multiset(s[..|s| - 1]) + multiset{s[|s| - 1]}
  {
    assert s == s[..|s| - 1] + [s[|s| - 1]];
  }

  /** Shuffling is always a permutation. */
  lemma {:induction false} ShuffledKeepsCards<T>(s: seq<T>, c: seq<nat>)
    requires ChoicesFor(c, |s|)
    ensures multiset(Shuffled(s, c)) == multiset(s)
    decreases |s|
  {
    if |s| > 1 {
      var last := |s| - 1;
      var swapped := Swap(s, last, c[0]);
      SwapKeepsCards(s, last, c[0]);
      SplitLast(swapped);
      ShuffledKeepsCards(swapped[..last], c[1..]);
      SplitLast(Shuffled(s, c));
      assert Shuffled(s, c)[..last] == Shuffled(swapped[..last], c[1..]);
    }
  }

  ghost predicate Distinct<T>(s: seq<T>) {
    forall i, j :: 0 <= i < j < |s| ==> s[i] != s[j]
  }

  lemma SwapDistinct<T>(s: seq<T>, j: nat)
    requires Distinct(s) && j < |s|
    ensures Distinct(Swap(s, |s| - 1, j)[..|s| - 1])
  {
  }

  /** Different choices give different orderings of distinct cards. */
  lemma {:induction false} NoOrderingTwice<T>(s: seq<T>, c: seq<nat>, d: seq<nat>)
    requires Distinct(s) && ChoicesFor(c, |s|) && ChoicesFor(d, |s|) && Shuffled(s, c) == Shuffled(s, d)
    ensures c == d
    decreases |s|
  {
    if |s| > 1 {
      var last := |s| - 1;
      var a, b := Swap(s, last, c[0]), Swap(s, last, d[0]);
      assert Shuffled(s, c)[last] == a[last] == s[c[0]];
      assert Shuffled(s, d)[last] == b[last] == s[d[0]];
      assert c[0] == d[0];
      assert Shuffled(s, c)[..last] == Shuffled(a[..last], c[1..]);
      assert Shuffled(s, d)[..last] == Shuffled(b[..last], d[1..]);
      SwapDistinct(s, c[0]);
      NoOrderingTwice(a[..last], c[1..], d[1..]);
      assert c == [c[0]] + c[1..] && d == [d[0]] + d[1..];
    }
  }

  lemma CancelOne<T>(a: multiset<T>, b: multiset<T>, x: T)
    requires a + multiset{x} == b + multiset{x}
    ensures a == b
  {
    assert a == (a + multiset{x}) - multiset{x};
    assert b == (b + multiset{x}) - multiset{x};
  }

  lemma LastIsSomewhere<T>(s: seq<T>, p: seq<T>) returns (j: nat)
    requires multiset(p) == multiset(s) && p != []
    ensures |s| == |p| && j < |s| && s[j] == p[|p| - 1]
  {
    assert |s| == |multiset(s)| == |multiset(p)| == |p|;
    assert p[|p| - 1] in multiset(p);
    assert p[|p| - 1] in s;
    j :| j < |s| && s[j] == p[|p| - 1];
  }

  /** Every ordering of the cards is reached by some choices. */
  lemma {:induction false} EveryOrderingReached<T>(s: seq<T>, p: seq<T>) returns (c: seq<nat>)
    requires multiset(p) == multiset(s)
    ensures ChoicesFor(c, |s|) && Shuffled(s, c) == p
    decreases |s|
  {
    assert |s| == |multiset(s)| == |multiset(p)| == |p|;
    if |s| <= 1 {
      c := [];
      FewCards(s, p);
    } else {
      var last := |s| - 1;
      var j := LastIsSomewhere(s, p);
      var swapped := Swap(s, last, j);
      assert swapped[last] == s[j];
      hide *;
      SwapKeepsCards(s, last, j);
      SplitLast(swapped);
      SplitLast(p);
      CancelOne(multiset(p[..last]), multiset(swapped[..last]), p[last]);
      var rest := EveryOrderingReached(swapped[..last], p[..last]);
      c := [j] + rest;
      ChoiceFirst(s, p, j, rest);
    }
  }

  lemma FewCards<T>(s: seq<T>, p: seq<T>)
    requires |p| == |s| <= 1 && multiset(p) == multiset(s)
    ensures ChoicesFor([], |s|) && Shuffled(s, []) == p
  {
    assert s != [] ==> p[0] in multiset(p);
  }

  lemma ChoiceFirst<T>(s: seq<T>, p: seq<T>, j: nat, rest: seq<nat>)
    requires |s| > 1 && |p| == |s| && j < |s| && ChoicesFor(rest, |s| - 1)
    requires Swap(s, |s| - 1, j)[|s| - 1] == p[|s| - 1]
    requires Shuffled(Swap(s, |s| - 1, j)[..|s| - 1], rest) == p[..|s| - 1]
    ensures ChoicesFor([j] + rest, |s|) && Shuffled(s, [j] + rest) == p
  {
    var c := [j] + rest;
    assert c[1..] == rest && c[0] == j;
    ShuffledUnfolds(s, c);
    hide Shuffled, ChoicesFor, Swap;
    SameEnds(Shuffled(s, c), p);
  }

  lemma SameEnds<T>(a: seq<T>, b: seq<T>)
    requires |a| == |b| > 0 && a[..|a| - 1] == b[..|b| - 1] && a[|a| - 1] == b[|b| - 1]
    ensures a == b
  {
    assert a == a[..|a| - 1] + [a[|a| - 1]];
    assert b == b[..|b| - 1] + [b[|b| - 1]];
  }

  /**
    Choice vectors and orderings of distinct cards correspond one to one: an ordering is a permutation
    of the deck if and only if exactly one vector of choices leads to it.
   */
  lemma ShuffleIsExact<T(!new)>(s: seq<T>, p: seq<T>)
    requires Distinct(s)
    ensures multiset(p) == multiset(s) <==> exists c :: ChoicesFor(c, |s|) && Shuffled(s, c) == p
    ensures forall c, d :: ChoicesFor(c, |s|) && ChoicesFor(d, |s|) && Shuffled(s, c) == p && Shuffled(s, d) == p ==> c == d
  {
    if multiset(p) == multiset(s) {
      var c := EveryOrderingReached(s, p);
    }
    forall c | ChoicesFor(c, |s|) && Shuffled(s, c) == p ensures multiset(p) == multiset(s) {
      ShuffledKeepsCards(s, c);
    }
    forall c, d | ChoicesFor(c, |s|) && ChoicesFor(d, |s|) && Shuffled(s, c) == p && Shuffled(s, d) == p ensures c == d {
      NoOrderingTwice(s, c, d);
    }
  }

  // ---- every ordering equally often -----------------------------------------------------------------

  /** Raw outputs that the draws for `n` cards accept, one for each draw. */
  ghost predicate AcceptedRaws(raws: seq<nat>, n: nat)
    requires n <= UINT32_RANGE
    decreases n
  {
    if n <= 1 then raws == [] else raws != [] && raws[0] < Bound(n) && AcceptedRaws(raws[1..], n - 1)
  }

  function Reduced(raws: seq<nat>, n: nat): seq<nat>
    requires n <= UINT32_RANGE && AcceptedRaws(raws, n)
    decreases n
  {
    if n <= 1 then [] else [Reduce(raws[0], n)] + Reduced(raws[1..], n - 1)
  }

  /** How many accepted outputs of a draw make one choice. */
  function Share(m: nat): nat
    requires 0 < m <= UINT32_RANGE
  {
    Bound(m) / m
  }

  function Times(a: nat, b: nat): nat {
    assert a * b >= 0;
    a * b
  }

  /** The product of the shares of all draws for `n` cards. */
  function Ways(n: nat): nat
    requires n <= UINT32_RANGE
  {
    if n <= 1 then 1 else Times(Share(n), Ways(n - 1))
  }

  function Making(below: nat, m: nat, r: nat): set<nat>
    requires m > 0
  {
    set value: nat | value < below && Reduce(value, m) == r
  }

  lemma {:induction false} MakingCounts(below: nat, m: nat, r: nat)
    requires m > 0
    ensures |Making(below, m, r)| == Hits(below, m, r)
  {
    hide Reduce;
    if below == 0 {
      assert Making(0, m, r) == {};
    } else {
      MakingCounts(below - 1, m, r);
      var less := Making(below - 1, m, r);
      assert Making(below, m, r) == if Reduce(below - 1, m) == r then less + {below - 1} else less;
    }
  }

  function Prefixed(firsts: set<nat>, rests: set<seq<nat>>): set<seq<nat>> {
    set first, rest | first in firsts && rest in rests :: [first] + rest
  }

  lemma PrefixedIn(firsts: set<nat>, rests: set<seq<nat>>, raws: seq<nat>)
    ensures raws in Prefixed(firsts, rests) <==> raws != [] && raws[0] in firsts && raws[1..] in rests
  {
    if raws != [] {
      assert raws == [raws[0]] + raws[1..];
    }
  }

  lemma {:induction false} PrefixedOne(first: nat, rests: set<seq<nat>>)
    ensures |Prefixed({first}, rests)| == |rests|
  {
    if rests == {} {
      assert Prefixed({first}, rests) == {};
    } else {
      var rest :| rest in rests;
      var less := rests - {rest};
      PrefixedOne(first, less);
      PrefixedAdds(first, rest, less);
      assert rests == less + {rest};
      hide Prefixed;
    }
  }

  lemma PrefixedAdds(first: nat, rest: seq<nat>, less: set<seq<nat>>)
    requires rest !in less
    ensures |Prefixed({first}, less + {rest})| == |Prefixed({first}, less)| + 1
  {
    var more, was, raw := Prefixed({first}, less + {rest}), Prefixed({first}, less), [first] + rest;
    assert raw[1..] == rest;
    PrefixedIn({first}, less, raw);
    forall raws ensures raws in more <==> raws in was + {raw} {
      PrefixedIn({first}, less + {rest}, raws);
      PrefixedIn({first}, less, raws);
      if raws != [] {
        assert raws == [raws[0]] + raws[1..];
      }
    }
    hide Prefixed;
    assert more == was + {raw};
  }

  lemma {:induction false} PrefixedCounts(firsts: set<nat>, rests: set<seq<nat>>)
    ensures |Prefixed(firsts, rests)| == Times(|firsts|, |rests|)
  {
    if firsts == {} {
      assert Prefixed(firsts, rests) == {};
    } else {
      var first :| first in firsts;
      var less := firsts - {first};
      PrefixedCounts(less, rests);
      assert firsts == less + {first} && |firsts| == |less| + 1;
      hide *;
      PrefixedOne(first, rests);
      PrefixedSplits(first, less, rests);
      TimesNext(|less|, |rests|);
    }
  }

  lemma TimesNext(a: nat, b: nat)
    ensures Times(a + 1, b) == Times(a, b) + b
  {
  }

  lemma PrefixedSplits(first: nat, less: set<nat>, rests: set<seq<nat>>)
    requires first !in less
    ensures Prefixed(less + {first}, rests) == Prefixed(less, rests) + Prefixed({first}, rests)
    ensures |Prefixed(less + {first}, rests)| == |Prefixed(less, rests)| + |Prefixed({first}, rests)|
  {
    var all, a, b := Prefixed(less + {first}, rests), Prefixed(less, rests), Prefixed({first}, rests);
    forall raws ensures raws in all <==> raws in a + b
                ensures !(raws in a && raws in b)
    {
      PrefixedIn(less + {first}, rests, raws);
      PrefixedIn(less, rests, raws);
      PrefixedIn({first}, rests, raws);
    }
    hide Prefixed;
    assert all == a + b && a !! b;
  }

  /** The raw outputs that make the choices `c`. */
  function RawsFor(c: seq<nat>, n: nat): set<seq<nat>>
    requires n <= UINT32_RANGE && |c| >= n - 1
    decreases n
  {
    if n <= 1 then {[]} else Prefixed(Making(Bound(n), n, c[0]), RawsFor(c[1..], n - 1))
  }

  lemma {:induction false} ChoicesLength(c: seq<nat>, n: nat)
    requires ChoicesFor(c, n)
    ensures |c| == if n <= 1 then 0 else n - 1
    decreases n
  {
    if n > 1 {
      ChoicesLength(c[1..], n - 1);
    }
  }

  lemma {:induction false} RawsForIn(c: seq<nat>, n: nat, raws: seq<nat>)
    requires n <= UINT32_RANGE && ChoicesFor(c, n) && |c| >= n - 1
    ensures raws in RawsFor(c, n) <==> AcceptedRaws(raws, n) && Reduced(raws, n) == c
    decreases n
  {
    if n > 1 {
      ChoicesLength(c[1..], n - 1);
      PrefixedIn(Making(Bound(n), n, c[0]), RawsFor(c[1..], n - 1), raws);
      hide Bound, Reduce, Prefixed;
      if raws != [] {
        RawsForIn(c[1..], n - 1, raws[1..]);
        assert c == [c[0]] + c[1..];
      }
    }
  }

  lemma {:induction false} RawsForCounts(c: seq<nat>, n: nat)
    requires n <= UINT32_RANGE && ChoicesFor(c, n) && |c| >= n - 1
    ensures |RawsFor(c, n)| == Ways(n)
    decreases n
  {
    if n > 1 {
      ChoicesLength(c[1..], n - 1);
      RawsForCounts(c[1..], n - 1);
      MakingCounts(Bound(n), n, c[0]);
      AcceptedDrawsAreFair(n, c[0]);
      PrefixedCounts(Making(Bound(n), n, c[0]), RawsFor(c[1..], n - 1));
      hide Bound, Hits, Making, Prefixed;
    }
  }

  lemma {:induction false} ReducedAreChoices(raws: seq<nat>, n: nat)
    requires n <= UINT32_RANGE && AcceptedRaws(raws, n)
    ensures ChoicesFor(Reduced(raws, n), n)
    decreases n
  {
    if n > 1 {
      hide Bound;
      ReducedAreChoices(raws[1..], n - 1);
      assert ([Reduce(raws[0], n)] + Reduced(raws[1..], n - 1))[1..] == Reduced(raws[1..], n - 1);
    }
  }

  ghost predicate LeadsTo<T>(s: seq<T>, raws: seq<nat>, p: seq<T>)
    requires |s| <= UINT32_RANGE
  {
    AcceptedRaws(raws, |s|) && (ReducedAreChoices(raws, |s|); Shuffled(s, Reduced(raws, |s|)) == p)
  }

  /**
    Every ordering of distinct cards is reached by the same number of vectors of accepted raw outputs: the
    product over the draws of `Bound(k) / k`, the outputs that make one choice.
   */
  lemma EveryOrderingEquallyOften<T(!new)>(s: seq<T>, p: seq<T>) returns (ways: set<seq<nat>>)
    requires Distinct(s) && |s| <= UINT32_RANGE && multiset(p) == multiset(s)
    ensures forall raws :: raws in ways <==> LeadsTo(s, raws, p)
    ensures |ways| == Ways(|s|)
  {
    var c := EveryOrderingReached(s, p);
    ChoicesLength(c, |s|);
    ways := RawsFor(c, |s|);
    RawsForCounts(c, |s|);
    forall raws ensures raws in ways <==> LeadsTo(s, raws, p) {
      RawsForIn(c, |s|, raws);
      if AcceptedRaws(raws, |s|) {
        ReducedAreChoices(raws, |s|);
        if Shuffled(s, Reduced(raws, |s|)) == p {
          NoOrderingTwice(s, Reduced(raws, |s|), c);
        }
      }
    }
  }

  // ---- shuffling in place ----------------------------------------------------------------------------

  datatype Plan = Plan(choices: seq<nat>, end: nat)

  /** Every draw that shuffling `n` cards makes from output `at` on gets an accepted output in the end. */
  ghost predicate Drawable(g: State, at: nat, n: nat)
    requires n <= UINT32_RANGE
    decreases n
  {
    n <= 1 || (Answers(g, at, n) && Drawable(g, Accepted(g, at, n) + 1, n - 1))
  }

  /** The choices a generator makes for a deck of `n` cards, and how many outputs it has given by then. */
  ghost function Choices(g: State, at: nat, n: nat): (plan: Plan)
    requires n <= UINT32_RANGE && Drawable(g, at, n)
    ensures ChoicesFor(plan.choices, n)
    decreases n
  {
    if n <= 1 then Plan([], at)
    else
      var k := Accepted(g, at, n);
      var rest := Choices(g, k + 1, n - 1);
      Plan([Reduce(OutputAt(g, k), n)] + rest.choices, rest.end)
  }

  /** Shuffles the main deck where it lies. */
  method ShuffleMainDeck(main: array<int>, rng: Rng)
    requires rng.Valid() && main.Length <= UINT32_RANGE && Drawable(rng.start, rng.taken, main.Length)
    modifies main, rng
    ensures rng.Valid()
    ensures var plan := Choices(rng.start, old(rng.taken), main.Length);
            main[..] == Shuffled(old(main[..]), plan.choices) && rng.taken == plan.end
  {
    hide *;
    ghost var g, at, cards := rng.start, rng.taken, main[..];
    ghost var plan := Choices(g, at, |cards|);
    ghost var whole, end := Shuffled(cards, plan.choices), plan.end;
    MidwayStarts(cards, g, at);
    if main.Length > 0 {
      var i := main.Length - 1;
      while i > 0
        invariant 0 <= i < main.Length && rng.Valid() && Midway(main[..], i, g, rng.taken, whole, end)
      {
        ShufflePlace(main, i, rng, whole, end);
        i := i - 1;
      }
      MidwayEnds(main[..], g, rng.taken, whole, end);
    }
  }

  method SwapInPlace(main: array<int>, i: nat, j: nat)
    requires i < main.Length && j < main.Length
    modifies main
    ensures main[..] == Swap(old(main[..]), i, j)
  {
    main[i], main[j] := main[j], main[i];
  }

  /** Draws the card for place `i`. */
  method ShufflePlace(main: array<int>, i: nat, rng: Rng, ghost whole: seq<int>, ghost end: nat)
    requires i > 0 && rng.Valid() && Midway(main[..], i, rng.start, rng.taken, whole, end)
    modifies main, rng
    ensures rng.Valid() && Midway(main[..], i - 1, rng.start, rng.taken, whole, end)
  {
    ghost var cards, before, g := main[..], rng.taken, rng.start;
    hide *;
    MidwayAnswers(cards, i, g, before, whole, end);
    ghost var n := Accepted(g, before, i + 1);
    var j := NextInt(rng, i + 1);
    assert main[..] == cards;
    SwapInPlace(main, i, j);
    MidwayStep(cards, i, g, before, whole, end, j);
    assert rng.taken == n + 1 && main[..] == Swap(cards, i, j);
  }

  /** Places above `i` are final; what is left to do gives the places up to `i` their final cards. */
  ghost predicate Midway(cards: seq<int>, i: nat, g: State, at: nat, whole: seq<int>, end: nat) {
    && i < |cards| == |whole| <= UINT32_RANGE
    && Drawable(g, at, i + 1)
    && Choices(g, at, i + 1).end == end
    && Shuffled(cards[..i + 1], Choices(g, at, i + 1).choices) == whole[..i + 1]
    && cards[i + 1..] == whole[i + 1..]
  }

  lemma ChoicesUnfold(g: State, at: nat, n: nat)
    requires 1 < n <= UINT32_RANGE && Drawable(g, at, n)
    ensures Answers(g, at, n) && Drawable(g, Accepted(g, at, n) + 1, n - 1)
    ensures var k := Accepted(g, at, n);
            var rest := Choices(g, k + 1, n - 1);
            Choices(g, at, n) == Plan([Reduce(OutputAt(g, k), n)] + rest.choices, rest.end)
  {
  }

  lemma ShuffledUnfolds<T>(s: seq<T>, c: seq<nat>)
    requires |s| > 1 && ChoicesFor(c, |s|)
    ensures c != [] && c[0] < |s| && ChoicesFor(c[1..], |s| - 1)
    ensures var swapped := Swap(s, |s| - 1, c[0]);
            && Shuffled(s, c)[..|s| - 1] == Shuffled(swapped[..|s| - 1], c[1..])
            && Shuffled(s, c)[|s| - 1] == swapped[|s| - 1]
  {
  }

  lemma MidwayStarts(cards: seq<int>, g: State, at: nat)
    requires |cards| <= UINT32_RANGE && Drawable(g, at, |cards|)
    ensures var plan := Choices(g, at, |cards|);
            if cards == [] then Shuffled(cards, plan.choices) == cards && plan.end == at
            else Midway(cards, |cards| - 1, g, at, Shuffled(cards, plan.choices), plan.end)
  {
    hide *;
    var plan := Choices(g, at, |cards|);
    var whole := Shuffled(cards, plan.choices);
    if cards == [] {
      NothingToShuffle(cards, g, at);
    } else {
      assert cards[..|cards|] == cards && whole[..|cards|] == whole && cards[|cards|..] == [] == whole[|cards|..];
      MidwayParts(cards, |cards| - 1, g, at, whole, plan.end);
    }
  }

  lemma NothingToShuffle(cards: seq<int>, g: State, at: nat)
    requires cards == [] && Drawable(g, at, 0)
    ensures Choices(g, at, 0).end == at && Shuffled(cards, Choices(g, at, 0).choices) == cards
  {
  }

  lemma MidwayAnswers(cards: seq<int>, i: nat, g: State, at: nat, whole: seq<int>, end: nat)
    requires Midway(cards, i, g, at, whole, end) && i > 0
    ensures i < |cards| && i + 1 <= UINT32_RANGE && Answers(g, at, i + 1)
  {
    hide Choices, Shuffled, Answers, Accepted;
  }

  lemma MidwayStep(cards: seq<int>, i: nat, g: State, at: nat, whole: seq<int>, end: nat, j: nat)
    requires Midway(cards, i, g, at, whole, end) && i > 0 && Answers(g, at, i + 1)
    requires j == Reduce(OutputAt(g, Accepted(g, at, i + 1)), i + 1) && j < |cards|
    ensures Midway(Swap(cards, i, j), i - 1, g, Accepted(g, at, i + 1) + 1, whole, end)
  {
    hide *;
    MidwayParts(cards, i, g, at, whole, end);
    var c := Choices(g, at, i + 1).choices;
    var next := Accepted(g, at, i + 1) + 1;
    var swapped, front := Swap(cards, i, j), cards[..i + 1];
    ChoicesUnfold(g, at, i + 1);
    ShuffledUnfolds(front, c);
    SwapInPrefix(cards, i, j);
    Slices(swapped, whole, i);
    assert c[0] == j && c[1..] == Choices(g, next, i).choices;
    MidwayParts(swapped, i - 1, g, next, whole, end);
  }

  lemma MidwayParts(cards: seq<int>, i: nat, g: State, at: nat, whole: seq<int>, end: nat)
    ensures Midway(cards, i, g, at, whole, end) <==>
            && i < |cards| == |whole| <= UINT32_RANGE
            && Drawable(g, at, i + 1)
            && Choices(g, at, i + 1).end == end
            && Shuffled(cards[..i + 1], Choices(g, at, i + 1).choices) == whole[..i + 1]
            && cards[i + 1..] == whole[i + 1..]
  {
    hide Choices, Shuffled, Drawable;
  }

  lemma Slices<T>(a: seq<T>, b: seq<T>, i: nat)
    requires i < |a| == |b|
    ensures b[..i + 1][..i] == b[..i] && b[..i + 1][i] == b[i]
    ensures a[i] == b[i] && a[i + 1..] == b[i + 1..] ==> a[i..] == b[i..]
  {
    assert a[i..] == [a[i]] + a[i + 1..] && b[i..] == [b[i]] + b[i + 1..];
  }

  lemma SwapInPrefix<T>(cards: seq<T>, i: nat, j: nat)
    requires j <= i < |cards|
    ensures Swap(cards, i, j)[..i] == Swap(cards[..i + 1], i, j)[..i]
    ensures Swap(cards, i, j)[i] == Swap(cards[..i + 1], i, j)[i]
    ensures Swap(cards, i, j)[i + 1..] == cards[i + 1..]
  {
  }

  lemma MidwayEnds(cards: seq<int>, g: State, at: nat, whole: seq<int>, end: nat)
    requires Midway(cards, 0, g, at, whole, end)
    ensures cards == whole && at == end
  {
    assert cards == cards[..1] + cards[1..] && whole == whole[..1] + whole[1..];
  }

  // ---- all the decks of a duel ----------------------------------------------------------------------

  datatype Deck = Deck(main: seq<int>, extra: seq<int>, side: seq<int>)

  /** Every draw made for these decks, one deck after the other, gets an accepted output in the end. */
  ghost predicate Shuffleable(decks: seq<Deck>, g: State, at: nat) {
    decks == [] ||
    (&& |decks[0].main| <= UINT32_RANGE && Drawable(g, at, |decks[0].main|)
     && Shuffleable(decks[1..], g, Choices(g, at, |decks[0].main|).end))
  }

  /** One generator serves the decks in turn, each going on where the last one stopped. */
  ghost function ShuffledDecks(decks: seq<Deck>, g: State, at: nat): (shuffled: seq<Deck>)
    requires Shuffleable(decks, g, at)
    ensures |shuffled| == |decks|
  {
    if decks == [] then []
    else
      var plan := Choices(g, at, |decks[0].main|);
      [decks[0].(main := Shuffled(decks[0].main, plan.choices))] + ShuffledDecks(decks[1..], g, plan.end)
  }

  /** Only the main decks change, and each only in its order. */
  lemma {:induction false} OnlyMainOrderChanges(decks: seq<Deck>, g: State, at: nat, k: nat)
    requires Shuffleable(decks, g, at) && k < |decks|
    ensures var after := ShuffledDecks(decks, g, at)[k];
            && after.extra == decks[k].extra && after.side == decks[k].side
            && multiset(after.main) == multiset(decks[k].main)
  {
    var plan := Choices(g, at, |decks[0].main|);
    if k == 0 {
      ShuffledKeepsCards(decks[0].main, plan.choices);
    } else {
      OnlyMainOrderChanges(decks[1..], g, plan.end, k - 1);
    }
  }

  lemma DecksUnfold(decks: seq<Deck>, g: State, at: nat)
    requires Shuffleable(decks, g, at) && decks != []
    ensures |decks[0].main| <= UINT32_RANGE && Drawable(g, at, |decks[0].main|)
    ensures var plan := Choices(g, at, |decks[0].main|);
            && Shuffleable(decks[1..], g, plan.end)
            && ShuffledDecks(decks, g, at)
            == [decks[0].(main := Shuffled(decks[0].main, plan.choices))] + ShuffledDecks(decks[1..], g, plan.end)
  {
    hide Choices, Shuffled, Drawable;
  }

  lemma Regroup(a: seq<Deck>, x: Deck, b: seq<Deck>)
    ensures a + ([x] + b) == (a + [x]) + b
  {
  }

  lemma DecksDone(g: State, at: nat)
    ensures Shuffleable([], g, at) && ShuffledDecks([], g, at) == []
  {
  }

  /** The deck handed in stays as it was; a copy is shuffled. */
  method ShuffledClone(cards: seq<int>, rng: Rng) returns (shuffled: seq<int>)
    requires rng.Valid() && |cards| <= UINT32_RANGE && Drawable(rng.start, rng.taken, |cards|)
    modifies rng
    ensures rng.Valid()
    ensures var plan := Choices(rng.start, old(rng.taken), |cards|);
            shuffled == Shuffled(cards, plan.choices) && rng.taken == plan.end
  {
    hide *;
    var main := new int[|cards|](k requires 0 <= k < |cards| => cards[k]);
    assert main[..] == cards;
    ShuffleMainDeck(main, rng);
    shuffled := main[..];
  }

  method ShuffleDecksBySeed(decks: seq<Deck>, seed: seq<bv32>) returns (shuffled: seq<Deck>)
    requires Shuffleable(decks, Seeded(seed), 0)
    ensures shuffled == ShuffledDecks(decks, Seeded(seed), 0)
  {
    var rng := new Rng(seed);
    ghost var g := Seeded(seed);
    shuffled := [];
    assert decks[0..] == decks;
    hide *;
    for i := 0 to |decks|
      invariant fresh(rng) && rng.Valid() && rng.start == g && Shuffleable(decks[i..], g, rng.taken)
      invariant shuffled + ShuffledDecks(decks[i..], g, rng.taken) == ShuffledDecks(decks, g, 0)
    {
      assert decks[i..][0] == decks[i] && decks[i..][1..] == decks[i + 1..];
      ghost var at, done := rng.taken, shuffled;
      DecksUnfold(decks[i..], g, at);
      ghost var plan := Choices(g, at, |decks[i].main|);
      var main := ShuffledClone(decks[i].main, rng);
      shuffled := shuffled + [decks[i].(main := main)];
      Regroup(done, decks[i].(main := main), ShuffledDecks(decks[i + 1..], g, plan.end));
    }
    DecksDone(g, rng.taken);
    assert decks[|decks|..] == [];
  }

  // ---- a known shuffle -------------------------------------------------------------------------------------

  /** An output below the bound is drawn where it stands. */
  lemma DrawnAtOnce(g: State, at: nat, m: nat)
    requires 0 < m <= UINT32_RANGE && OutputAt(g, at) < Bound(m)
    ensures Answers(g, at, m) && Accepted(g, at, m) == at
  {
    assert FirstAccepted(g, at, m, at);
    AcceptedIsFirst(g, at, m);
    var n := Accepted(g, at, m);
    hide Bound, OutputAt;
    NotBefore(g, at, m, n, at);
  }

  lemma PlanOne(g: State, at: nat, n: nat, j: nat)
    requires 1 < n <= UINT32_RANGE && OutputAt(g, at) < Bound(n) && Drawable(g, at + 1, n - 1)
    requires Reduce(OutputAt(g, at), n) == j
    ensures Drawable(g, at, n) && Choices(g, at, n).choices == [j] + Choices(g, at + 1, n - 1).choices
  {
    DrawnAtOnce(g, at, n);
    hide Bound, OutputAt, Reduce, Answers, Accepted;
  }

  /** The seed 1 to 8 makes these choices for five cards, all of them from its first four outputs. */
  lemma KnownChoices(g: State)
    requires g == Seeded(PLAIN_SEED)
    ensures Drawable(g, 0, 5) && Choices(g, 0, 5).choices == [3, 0, 1, 1]
  {
    KnownOutputs();
    hide OutputAt, Seeded;
    PlanOne(g, 3, 2, 1);
    PlanOne(g, 2, 3, 1);
    PlanOne(g, 1, 4, 0);
    PlanOne(g, 0, 5, 3);
    assert Choices(g, 4, 1).choices == [];
  }

  lemma KnownOrder(a: int, b: int, c: int, d: int, e: int)
    ensures ChoicesFor([3, 0, 1, 1], 5) && Shuffled([a, b, c, d, e], [3, 0, 1, 1]) == [e, c, b, a, d]
  {
    var s := [a, b, c, d, e];
    assert [3, 0, 1, 1][1..] == [0, 1, 1] && [0, 1, 1][1..] == [1, 1] && [1, 1][1..] == [1];
    assert Swap(s, 4, 3) == [a, b, c, e, d] && [a, b, c, e, d][..4] == [a, b, c, e];
    assert Swap([a, b, c, e], 3, 0) == [e, b, c, a] && [e, b, c, a][..3] == [e, b, c];
    assert Swap([e, b, c], 2, 1) == [e, c, b] && [e, c, b][..2] == [e, c];
    assert Swap([e, c], 1, 1) == [e, c] && [e, c][..1] == [e];
    assert Shuffled([e, c], [1]) == [e, c];
    assert Shuffled([e, b, c], [1, 1]) == [e, c, b];
    assert Shuffled([a, b, c, e], [0, 1, 1]) == [e, c, b, a];
  }

  /** Known answer: a deck of five cards under the seed 1 to 8. */
  lemma KnownShuffle(a: int, b: int, c: int, d: int, e: int)
    ensures var g := Seeded(PLAIN_SEED);
            Drawable(g, 0, 5) && Shuffled([a, b, c, d, e], Choices(g, 0, 5).choices) == [e, c, b, a, d]
  {
    hide *;
    KnownChoices(Seeded(PLAIN_SEED));
    KnownOrder(a, b, c, d, e);
  }
}
