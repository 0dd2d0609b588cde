/**
  Two ways the server decides whether two piles of cards are the same, and the lock a reserved duel puts
  on a deck.
 */
module DeckChecks {
  // ---- counting ------------------------------------------------------------------------------------

  ghost predicate Counts(m: map<int, nat>, codes: seq<int>) {
    forall c :: (c in m <==> c in codes) && (c in m ==> m[c] == multiset(codes)[c])
  }

  method CountsOf(codes: seq<int>) returns (result: map<int, nat>)
    ensures Counts(result, codes)
  {
    result := map[];
    for i := 0 to |codes|
      invariant Counts(result, codes[..i])
    {
      var code := codes[i];
      assert codes[..i + 1] == codes[..i] + [code];
      result := result[code := (if code in result then result[code] else 0) + 1];
    }
    assert codes[..|codes|] == codes;
  }

  // ---- one-sided checks that decide both sides --------------------------------------------------------

  lemma CountsPart(a: multiset<int>, b: multiset<int>)
    requires forall c :: c in a ==> b[c] == a[c]
    ensures a <= b
  {
    forall c ensures a[c] <= b[c] {
      assert c !in a ==> a[c] == 0;
    }
  }

  /** Equal sizes, and every count on the left found on the right: the piles are the same. */
  lemma LengthDecides(a: seq<int>, b: seq<int>)
    requires |a| == |b| && forall c :: c in a ==> multiset(b)[c] == multiset(a)[c]
    ensures multiset(a) == multiset(b)
  {
    var x, y := multiset(a), multiset(b);
    assert forall c :: c in x ==> c in a;
    CountsPart(x, y);
    assert |x| == |a| && |y| == |b|;
    assert y == x + (y - x);
    assert |y| == |x| + |y - x|;
    assert y - x == multiset{};
  }

  /** As many different codes, and every count on the left found on the right: the piles are the same. */
  lemma KeysDecide(left: map<int, nat>, right: map<int, nat>, a: seq<int>, b: seq<int>)
    requires Counts(left, a) && Counts(right, b) && |left| == |right|
    requires forall c :: c in left ==> c in right && right[c] == left[c]
    ensures multiset(a) == multiset(b)
  {
    assert |left.Keys| == |left| && |right.Keys| == |right|;
    forall c | c in left.Keys ensures c in right.Keys {
      assert c in left;
    }
    SubsetOfSameSize(left.Keys, right.Keys);
    forall c ensures multiset(a)[c] == multiset(b)[c] {
      assert c in multiset(a) <==> c in a;
      assert c in multiset(b) <==> c in b;
      assert c in left.Keys <==> c in right.Keys;
    }
  }

  lemma SubsetOfSameSize(a: set<int>, b: set<int>)
    requires a <= b && |a| == |b|
    ensures a == b
  {
    assert b == a + (b - a);
    assert |b| == |a| + |b - a|;
  }

  lemma SameKeys(left: map<int, nat>, right: map<int, nat>, a: seq<int>, b: seq<int>)
    requires Counts(left, a) && Counts(right, b) && multiset(a) == multiset(b)
    ensures left == right
  {
    forall c ensures c in a <==> c in b {
      assert c in multiset(a) <==> c in a;
      assert c in multiset(b) <==> c in b;
    }
    forall c ensures (c in left <==> c in right) && (c in left ==> left[c] == right[c]) {
      assert c in a <==> c in b;
    }
  }

  // ---- the deck lock ------------------------------------------------------------------------------------

  datatype Cards = Cards(main: seq<int>, extra: seq<int>, side: seq<int>)

  datatype LockKind = Exact | Registered

  method SameMultiset(a: seq<int>, b: seq<int>) returns (same: bool)
    ensures same <==> multiset(a) == multiset(b)
  {
    if |a| != |b| {
      assert |multiset(a)| == |a| && |multiset(b)| == |b|;
      return false;
    }
    var left := CountsOf(a);
    var right := CountsOf(b);
    same := forall c :: c in left.Keys ==> c in right && right[c] == left[c];
    if same {
      forall c | c in a ensures multiset(b)[c] == multiset(a)[c] {
        assert c in left.Keys;
      }
      LengthDecides(a, b);
    } else if multiset(a) == multiset(b) {
      SameKeys(left, right, a, b);
      assert false;
    }
  }

  function AllCards(d: Cards): seq<int> {
    d.main + d.extra + d.side
  }

  /** The same multiset as required: of each section, or of the three sections together. */
  ghost predicate Honours(lock: LockKind, required: Cards, deck: Cards) {
    match lock
    case Registered => multiset(AllCards(required)) == multiset(AllCards(deck))
    case Exact =>
      && multiset(required.main) == multiset(deck.main)
      && multiset(required.extra) == multiset(deck.extra)
      && multiset(required.side) == multiset(deck.side)
  }

  method DeckHonoursLock(lock: LockKind, required: Cards, deck: Cards) returns (honours: bool)
    ensures honours <==> Honours(lock, required, deck)
  {
    if lock.Registered? {
      honours := SameMultiset(AllCards(required), AllCards(deck));
      return;
    }
    var main := SameMultiset(required.main, deck.main);
    var extra := SameMultiset(required.extra, deck.extra);
    var side := SameMultiset(required.side, deck.side);
    honours := main && extra && side;
  }

  /** A deck that honours an exact lock honours the registered one too; moving a card to the side tells them apart. */
  lemma ExactImpliesRegistered(required: Cards, deck: Cards)
    requires Honours(Exact, required, deck)
    ensures Honours(Registered, required, deck)
  {
    assert multiset(AllCards(required)) == multiset(required.main) + multiset(required.extra) + multiset(required.side);
    assert multiset(AllCards(deck)) == multiset(deck.main) + multiset(deck.extra) + multiset(deck.side);
  }

  /** One card moved from main to side tells the two locks apart. */
  lemma MovingACard(main: seq<int>, extra: seq<int>, side: seq<int>, card: int)
    ensures Honours(Registered, Cards(main + [card], extra, side), Cards(main, extra, side + [card]))
    ensures !Honours(Exact, Cards(main + [card], extra, side), Cards(main, extra, side + [card]))
  {
    var a, b := Cards(main + [card], extra, side), Cards(main, extra, side + [card]);
    assert multiset(AllCards(a)) == multiset(main) + multiset{card} + multiset(extra) + multiset(side);
    assert multiset(AllCards(b)) == multiset(main) + multiset(extra) + multiset(side) + multiset{card};
    assert |multiset(main + [card])| == |main| + 1 && |multiset(main)| == |main|;
  }

  // ---- side-decking -------------------------------------------------------------------------------------

  class Deck {
    const main: seq<int>
    const side: seq<int>
    const extra: seq<int>

    constructor (main: seq<int>, side: seq<int>, extra: seq<int>)
      ensures this.main == main && this.side == side && this.extra == extra
    {
      this.main, this.side, this.extra := main, side, extra;
    }

    /** Between duels, the new main and side must together be the cards of the deck, no more and no fewer. */
    method IsSideDeckValid(newMain: seq<int>, newSide: seq<int>) returns (valid: bool)
      ensures valid <==> multiset(newMain + newSide) == multiset(main + side + extra)
    {
      var oldCounts := CountsOf(main + side + extra);
      var newCounts := CountsOf(newMain + newSide);
      if |oldCounts| != |newCounts| {
        if multiset(newMain + newSide) == multiset(main + side + extra) {
          SameKeys(oldCounts, newCounts, main + side + extra, newMain + newSide);
          assert false;
        }
        return false;
      }
      valid := forall c :: c in oldCounts.Keys ==> c in newCounts && newCounts[c] == oldCounts[c];
      if valid {
        KeysDecide(oldCounts, newCounts, main + side + extra, newMain + newSide);
      } else if multiset(newMain + newSide) == multiset(main + side + extra) {
        SameKeys(oldCounts, newCounts, main + side + extra, newMain + newSide);
        assert false;
      }
    }
  }
}
