/**
  The open-addressing index of the card storage as a value: what the key and value cells of a table
  that holds some codes look like, and why probing it always ends at the right cell.
 */
module CardTable {
  import opened Options
  import opened Bits

  const CARD_ID_MAX := 0x7fff_ffff
  const HASH_MIN_CAPACITY := 16
  const GOLDEN_32 := 0x9e37_79b1
  /** Three quarters of the largest capacity a 32-bit shift reaches. */
  const MAX_CARDS := 0x3000_0000

  predicate ValidCardId(id: int) {
    1 <= id <= CARD_ID_MAX
  }

  // ---- the cards --------------------------------------------------------------------------

  /** `payload` is the card in the encoding the storage keeps it in. */
  datatype Card = Card(code: Option<int>, payload: seq<byte>)

  function CodeOf(c: Card): nat {
    ToUint32(if c.code.Some? then c.code.value else 0)
  }

  function Codes(cards: seq<Card>): (r: seq<nat>)
    ensures |r| == |cards| && forall i :: 0 <= i < |r| ==> r[i] == CodeOf(cards[i])
  {
    seq(|cards|, i requires 0 <= i < |cards| => CodeOf(cards[i]))
  }

  /** The first card of every valid code, in order. */
  function FirstCards(cards: seq<Card>): seq<Card> {
    if cards == [] then []
    else
      var before, last := FirstCards(cards[..|cards| - 1]), cards[|cards| - 1];
      if ValidCardId(CodeOf(last)) && CodeOf(last) !in Codes(before) then before + [last] else before
  }

  function FirstWith(cards: seq<Card>, id: nat): Option<Card> {
    if cards == [] then None
    else if CodeOf(cards[0]) == id then Some(cards[0])
    else FirstWith(cards[1..], id)
  }

  /** The code as the unsigned word that the shift by zero makes of it. */
  ghost predicate HasCode(c: Card, id: int) {
    id == (if c.code.Some? then c.code.value else 0) % 0x1_0000_0000
  }

  /** This card has the code and none before it has. */
  ghost predicate FirstAt(cards: seq<Card>, i: nat, id: int) {
    i < |cards| && HasCode(cards[i], id) && forall j :: 0 <= j < i ==> !HasCode(cards[j], id)
  }

  lemma {:induction false} FirstWithMeans(cards: seq<Card>, id: nat, i: nat)
    ensures FirstAt(cards, i, id) ==> FirstWith(cards, id) == Some(cards[i])
    ensures (forall j :: 0 <= j < |cards| ==> !HasCode(cards[j], id)) ==> FirstWith(cards, id).None?
  {
    if cards != [] {
      if FirstAt(cards, i, id) && i > 0 {
        var rest := cards[1..];
        assert FirstAt(rest, i - 1, id);
        FirstWithMeans(rest, id, i - 1);
      } else {
        FirstWithMeans(cards[1..], id, i);
      }
    }
  }

  /** A search finds a card exactly when one has the code, and then the first of those. */
  lemma {:induction false} SomeFirst(cards: seq<Card>, id: nat)
    ensures FirstWith(cards, id).Some? <==> exists i: nat :: FirstAt(cards, i, id)
  {
    if cards != [] {
      var rest := cards[1..];
      SomeFirst(rest, id);
      if HasCode(cards[0], id) {
        assert FirstAt(cards, 0, id);
      } else if FirstWith(rest, id).Some? {
        var i: nat :| FirstAt(rest, i, id);
        assert forall j :: 0 < j <= i ==> cards[j] == rest[j - 1];
        assert FirstAt(cards, i + 1, id);
      } else if i: nat :| FirstAt(cards, i, id) {
        assert FirstAt(rest, i - 1, id);
      }
    }
  }

  ghost predicate DistinctCodes(codes: seq<nat>) {
    && (forall i :: 0 <= i < |codes| ==> ValidCardId(codes[i]))
    && (forall i, j :: 0 <= i < j < |codes| ==> codes[i] != codes[j])
  }

  lemma {:induction false} FirstWithAppend(cards: seq<Card>, c: Card, id: nat)
    ensures FirstWith(cards + [c], id) ==
            if FirstWith(cards, id).Some? then FirstWith(cards, id) else if CodeOf(c) == id then Some(c) else None
  {
    if cards == [] {
      assert ([] + [c])[1..] == [];
    } else {
      assert (cards + [c])[1..] == cards[1..] + [c];
      FirstWithAppend(cards[1..], c, id);
    }
  }

  lemma {:induction false} FirstCardsDistinct(cards: seq<Card>)
    ensures DistinctCodes(Codes(FirstCards(cards)))
  {
    if cards != [] {
      FirstCardsDistinct(cards[..|cards| - 1]);
    }
  }

  /** Keeping the first card of every code keeps, for every valid id, exactly the card a search would find. */
  lemma {:induction false} FirstCardsAreFirst(cards: seq<Card>, id: nat)
    requires ValidCardId(id)
    ensures FirstWith(cards, id).Some? <==> id in Codes(FirstCards(cards))
    ensures forall i :: 0 <= i < |FirstCards(cards)| && CodeOf(FirstCards(cards)[i]) == id ==>
              FirstWith(cards, id) == Some(FirstCards(cards)[i])
  {
    if cards != [] {
      var before, last := cards[..|cards| - 1], cards[|cards| - 1];
      assert cards == before + [last];
      FirstWithAppend(before, last, id);
      FirstCardsAreFirst(before, id);
      var kept := FirstCards(cards);
      if kept != FirstCards(before) {
        assert Codes(kept)[|kept| - 1] == CodeOf(last);
        forall i | 0 <= i < |FirstCards(before)| ensures Codes(kept)[i] == Codes(FirstCards(before))[i] {
        }
        assert Codes(kept) == Codes(FirstCards(before)) + [CodeOf(last)];
      }
    }
  }

  // ---- the capacity -----------------------------------------------------------------------------

  /** Cells needed for a load factor of three quarters, rounded up, and at least one. */
  function Required(count: nat): nat {
    if count == 0 then 1 else (4 * count + 2) / 3
  }

  /** The capacity after some turns of the doubling loop, on 32-bit words. */
  function Doubled(turns: nat): int {
    if turns == 0 then HASH_MIN_CAPACITY else ShiftLeftOnce(Doubled(turns - 1))
  }

  lemma ShiftsInRange(x: nat)
    requires x < 0x4000_0000
    ensures ShiftLeftOnce(x) == 2 * x
  {
  }

  lemma DoubledUnfolds(turns: nat)
    ensures Doubled(turns) == if turns == 0 then HASH_MIN_CAPACITY else ShiftLeftOnce(Doubled(turns - 1))
  {
    hide ShiftLeftOnce;
  }

  lemma {:induction false} DoubledInRange(turns: nat)
    requires turns <= 26
    ensures Doubled(turns) == Pow2(turns + 4) <= 0x4000_0000
  {
    Pow2Values();
    hide Doubled, Pow2, ShiftLeftOnce;
    DoubledUnfolds(turns);
    Pow2Grows(turns + 4, 30);
    if turns > 0 {
      DoubledInRange(turns - 1);
      Pow2Doubles(turns + 3);
      ShiftsInRange(Pow2(turns + 3));
    }
  }

  lemma Pow2Doubles(k: nat)
    ensures Pow2(k + 1) == 2 * Pow2(k)
  {
  }

  /** The 27th turn shifts the capacity to -2^31 and every later one leaves it at 0. */
  lemma {:induction false} DoubledOverflows(turns: nat)
    requires turns > 26
    ensures Doubled(turns) == if turns == 27 then -TWO_31 else 0
  {
    DoubledUnfolds(turns);
    hide Doubled, Pow2;
    if turns == 27 {
      Pow2Values();
      DoubledInRange(26);
    } else {
      DoubledOverflows(turns - 1);
    }
  }

  /** The loop that sizes the table ends if and only if there are at most 3 * 2^28 cards. */
  lemma CapacityLoopEnds(count: nat)
    ensures (exists turns: nat :: Doubled(turns) >= Required(count)) <==> count <= MAX_CARDS
  {
    Pow2Values();
    DoubledInRange(26);
    assert Doubled(26) == 0x4000_0000;
    hide Doubled, Pow2;
    if turns: nat :| Doubled(turns) >= Required(count) {
      if turns <= 26 {
        DoubledInRange(turns);
      } else {
        DoubledOverflows(turns);
      }
    }
  }

  // ---- probing ------------------------------------------------------------------------------------

  function Hash(id: nat, mask: nat): nat {
    And(ToUint32(id * GOLDEN_32), mask)
  }

  /** The cell `d` steps after `start`, wrapping at the end. */
  function Probe(start: nat, d: nat, capacity: nat): (slot: nat)
    requires capacity > 0
    ensures slot < capacity
  {
    (start + d) % capacity
  }

  lemma NextRemainder(n: nat, c: nat)
    requires c > 0
    ensures (n % c + 1) % c == (n + 1) % c
  {
    var q, r := n / c, n % c;
    if r + 1 < c {
      DivModUnique(n + 1, c, q, r + 1);
      DivModUnique(r + 1, c, 0, r + 1);
    } else {
      assert (q + 1) * c == q * c + c;
      DivModUnique(n + 1, c, q + 1, 0);
      DivModUnique(r + 1, c, 1, 0);
    }
  }

  lemma ProbeIs(start: nat, d: nat, capacity: nat)
    requires capacity > 0
    ensures Probe(start, d, capacity) == (start + d) % capacity
  {
  }

  lemma ProbeNext(start: nat, d: nat, k: nat)
    ensures And(Probe(start, d, Pow2(k)) + 1, Pow2(k) - 1) == Probe(start, d + 1, Pow2(k))
  {
    hide *;
    ProbeIs(start, d, Pow2(k));
    ProbeIs(start, d + 1, Pow2(k));
    AndMask(Probe(start, d, Pow2(k)) + 1, k);
    NextRemainder(start + d, Pow2(k));
    assert start + (d + 1) == start + d + 1;
  }

  /** Probing from anywhere reaches every cell. */
  lemma ProbeCovers(start: nat, slot: nat, capacity: nat) returns (d: nat)
    requires start < capacity && slot < capacity
    ensures d < capacity && Probe(start, d, capacity) == slot
  {
    if start <= slot {
      d := slot - start;
      DivModUnique(slot, capacity, 0, slot);
    } else {
      d := slot + capacity - start;
      DivModUnique(start + d, capacity, 1, slot);
    }
  }

  lemma HashInRange(id: nat, k: nat)
    ensures Hash(id, Pow2(k) - 1) < Pow2(k)
  {
    AndMask(ToUint32(id * GOLDEN_32), k);
  }

  // ---- the table -----------------------------------------------------------------------------------

  function Used(keys: seq<uint32>): nat {
    if keys == [] then 0 else (if keys[0] == 0 then 0 else 1) + Used(keys[1..])
  }

  lemma {:induction false} UsedAtMost(keys: seq<uint32>)
    ensures Used(keys) <= |keys|
    ensures Used(keys) == |keys| ==> forall s :: 0 <= s < |keys| ==> keys[s] != 0
  {
    if keys != [] {
      UsedAtMost(keys[1..]);
      assert forall s :: 0 < s < |keys| ==> keys[s] == keys[1..][s - 1];
    }
  }

  lemma {:induction false} AllFree(keys: seq<uint32>)
    requires forall s :: 0 <= s < |keys| ==> keys[s] == 0
    ensures Used(keys) == 0
  {
    if keys != [] {
      AllFree(keys[1..]);
    }
  }

  lemma {:induction false} UsedFills(keys: seq<uint32>, slot: nat, id: uint32)
    requires slot < |keys| && keys[slot] == 0 && id != 0
    ensures Used(keys[slot := id]) == Used(keys) + 1
  {
    var filled := keys[slot := id];
    if slot == 0 {
      assert filled[1..] == keys[1..];
    } else {
      assert filled[1..] == keys[1..][slot - 1 := id];
      UsedFills(keys[1..], slot - 1, id);
    }
  }

  lemma {:induction false} SomeFree(keys: seq<uint32>) returns (slot: nat)
    requires Used(keys) < |keys|
    ensures slot < |keys| && keys[slot] == 0
  {
    if keys[0] == 0 {
      slot := 0;
    } else {
      var rest := SomeFree(keys[1..]);
      slot := rest + 1;
    }
  }

  /** Nothing between `start` and the cell `d` steps on is free or holds `id`. */
  ghost predicate Passed(keys: seq<uint32>, start: nat, id: nat, d: nat) {
    |keys| > 0 && forall e :: 0 <= e < d ==> keys[Probe(start, e, |keys|)] != 0 && keys[Probe(start, e, |keys|)] != id
  }

  ghost predicate FoundAt(keys: seq<uint32>, start: nat, id: nat, d: nat) {
    |keys| > 0 && Passed(keys, start, id, d) && keys[Probe(start, d, |keys|)] == id
  }

  /** A cell in use names its code's entry. */
  ghost predicate CellsNamed(keys: seq<uint32>, values: seq<uint32>, codes: seq<nat>)
    requires |keys| == |values|
  {
    forall s :: 0 <= s < |keys| && keys[s] != 0 ==> 1 <= values[s] <= |codes| && codes[values[s] - 1] == keys[s]
  }

  ghost predicate Findable(keys: seq<uint32>, mask: nat, code: nat) {
    exists d: nat :: FoundAt(keys, Hash(code, mask), code, d)
  }

  ghost predicate AllFound(keys: seq<uint32>, codes: seq<nat>, mask: nat) {
    forall i :: 0 <= i < |codes| ==> Findable(keys, mask, codes[i])
  }

  /** The cells hold exactly `codes`, each findable from its hash, each with the number of its entry. */
  ghost predicate Table(keys: seq<uint32>, values: seq<uint32>, codes: seq<nat>, mask: nat) {
    && |keys| == |values| == mask + 1
    && DistinctCodes(codes)
    && CellsNamed(keys, values, codes)
    && AllFound(keys, codes, mask)
    && Used(keys) == |codes|
  }

  lemma EmptyTable(keys: seq<uint32>, values: seq<uint32>, mask: nat)
    requires |keys| == |values| == mask + 1 && forall s :: 0 <= s < |keys| ==> keys[s] == 0
    ensures Table(keys, values, [], mask)
  {
    AllFree(keys);
  }

  /** A free cell ends the search: the id is not in the table. */
  lemma FreeMeansAbsent(keys: seq<uint32>, values: seq<uint32>, codes: seq<nat>, mask: nat, id: nat, d: nat)
    requires Table(keys, values, codes, mask) && Passed(keys, Hash(id, mask), id, d)
    requires keys[Probe(Hash(id, mask), d, |keys|)] == 0
    ensures id !in codes
  {
    assert forall i :: 0 <= i < |codes| ==> codes[i] != 0;
    hide Used, DistinctCodes, Hash, Probe;
    forall i | 0 <= i < |codes| ensures codes[i] != id {
      assert Findable(keys, mask, codes[i]);
      var found: nat :| FoundAt(keys, Hash(codes[i], mask), codes[i], found);
    }
  }

  /** Filling the free cell a search ended at adds the id and disturbs no other. */
  lemma FillKeepsTable(keys: seq<uint32>, values: seq<uint32>, codes: seq<nat>, mask: nat, id: uint32, d: nat, slot: nat)
    requires Table(keys, values, codes, mask) && Passed(keys, Hash(id, mask), id, d)
    requires slot == Probe(Hash(id, mask), d, |keys|) && keys[slot] == 0
    requires ValidCardId(id) && id !in codes && |codes| + 1 < TWO_32
    ensures Table(keys[slot := id], values[slot := |codes| + 1], codes + [id], mask)
  {
    assert DistinctCodes(codes + [id]);
    assert forall i :: 0 <= i < |codes| ==> codes[i] != 0;
    hide *;
    UsedFills(keys, slot, id);
    FillNames(keys, values, codes, id, slot);
    FillFinds(keys, codes, mask, id, slot);
    assert FoundAt(keys[slot := id], Hash(id, mask), id, d) by {
      FillEndsHere(keys, Hash(id, mask), id, d, slot);
    }
    AddFound(keys[slot := id], codes, mask, id, d);
    TableParts(keys[slot := id], values[slot := |codes| + 1], codes + [id], mask);
  }

  lemma TableParts(keys: seq<uint32>, values: seq<uint32>, codes: seq<nat>, mask: nat)
    requires |keys| == |values| == mask + 1 && DistinctCodes(codes) && Used(keys) == |codes|
    requires CellsNamed(keys, values, codes) && AllFound(keys, codes, mask)
    ensures Table(keys, values, codes, mask)
  {
  }

  lemma FillNames(keys: seq<uint32>, values: seq<uint32>, codes: seq<nat>, id: uint32, slot: nat)
    requires |keys| == |values| && CellsNamed(keys, values, codes) && slot < |keys| && |codes| + 1 < TWO_32
    ensures CellsNamed(keys[slot := id], values[slot := |codes| + 1], codes + [id])
  {
  }

  lemma FillFinds(keys: seq<uint32>, codes: seq<nat>, mask: nat, id: uint32, slot: nat)
    requires AllFound(keys, codes, mask) && slot < |keys| && keys[slot] == 0 && id !in codes && id != 0
    requires forall i :: 0 <= i < |codes| ==> codes[i] != 0
    ensures AllFound(keys[slot := id], codes, mask)
  {
    hide Hash, Probe, FoundAt;
    var filled := keys[slot := id];
    forall i | 0 <= i < |codes| ensures Findable(filled, mask, codes[i]) {
      assert Findable(keys, mask, codes[i]);
      var d: nat :| FoundAt(keys, Hash(codes[i], mask), codes[i], d);
      assert codes[i] in codes;
      FillLeaves(keys, Hash(codes[i], mask), codes[i], d, id, slot);
    }
  }

  /** A search that ended at its code still ends there: the cell filled was none it passed. */
  lemma FillLeaves(keys: seq<uint32>, start: nat, code: nat, d: nat, id: uint32, slot: nat)
    requires FoundAt(keys, start, code, d) && slot < |keys| && keys[slot] == 0 && code != 0 && id != code && id != 0
    ensures FoundAt(keys[slot := id], start, code, d)
  {
    hide Probe;
    var filled := keys[slot := id];
    assert |filled| == |keys|;
    forall e | 0 <= e < d ensures filled[Probe(start, e, |filled|)] != 0 && filled[Probe(start, e, |filled|)] != code {
      assert keys[Probe(start, e, |keys|)] != 0;
    }
  }

  lemma FillEndsHere(keys: seq<uint32>, start: nat, id: uint32, d: nat, slot: nat)
    requires Passed(keys, start, id, d) && slot == Probe(start, d, |keys|) && keys[slot] == 0 && id != 0
    ensures FoundAt(keys[slot := id], start, id, d)
  {
    hide Probe;
    var filled := keys[slot := id];
    assert |filled| == |keys|;
    forall e | 0 <= e < d ensures filled[Probe(start, e, |filled|)] != 0 && filled[Probe(start, e, |filled|)] != id {
      assert keys[Probe(start, e, |keys|)] != 0;
    }
  }

  lemma AddFound(keys: seq<uint32>, codes: seq<nat>, mask: nat, id: nat, d: nat)
    requires AllFound(keys, codes, mask) && FoundAt(keys, Hash(id, mask), id, d)
    ensures AllFound(keys, codes + [id], mask)
  {
    hide Hash, FoundAt;
    assert Findable(keys, mask, id);
    hide Findable;
    forall i | 0 <= i < |codes + [id]| ensures Findable(keys, mask, (codes + [id])[i]) {
      assert i < |codes| ==> Findable(keys, mask, codes[i]);
    }
  }

  /** A table with a free cell: from any start, a probe meets one within a full turn. */
  lemma FreeWithinReach(keys: seq<uint32>, values: seq<uint32>, codes: seq<nat>, mask: nat, start: nat) returns (d: nat)
    requires Table(keys, values, codes, mask) && |codes| < |keys| && start < |keys|
    ensures d < |keys| && keys[Probe(start, d, |keys|)] == 0
  {
    var slot := SomeFree(keys);
    d := ProbeCovers(start, slot, |keys|);
  }

  // ---- the entries ------------------------------------------------------------------------------------

  function Offset(entryIndex: nat, size: nat): nat {
    entryIndex * size
  }

  /** Entry after entry, each in its own stretch of bytes. */
  ghost predicate Holds(entries: seq<byte>, size: nat, payloads: seq<seq<byte>>) {
    forall i :: 0 <= i < |payloads| ==>
      Offset(i, size) + size <= |entries| && entries[Offset(i, size)..Offset(i, size) + size] == payloads[i]
  }

  /** Stretches of different entries do not overlap. */
  lemma SlotsApart(i: nat, j: nat, size: nat)
    requires i < j
    ensures Offset(i, size) + size <= Offset(j, size)
  {
    var gap := j - (i + 1);
    assert j * size == i * size + size + gap * size;
  }

  lemma Untouched(was: seq<byte>, payload: seq<byte>, offset: nat, lo: nat, hi: nat)
    requires lo <= hi <= offset && offset + |payload| <= |was|
    ensures (was[..offset] + payload + was[offset + |payload|..])[lo..hi] == was[lo..hi]
  {
  }

  lemma JustWritten(was: seq<byte>, payload: seq<byte>, offset: nat)
    requires offset + |payload| <= |was|
    ensures (was[..offset] + payload + was[offset + |payload|..])[offset..offset + |payload|] == payload
  {
  }

  /** Writing one entry leaves all the others as they were. */
  lemma EntryWritten(was: seq<byte>, size: nat, payloads: seq<seq<byte>>, payload: seq<byte>)
    requires Holds(was, size, payloads) && |payload| == size && Offset(|payloads|, size) + size <= |was|
    ensures var offset := Offset(|payloads|, size);
            Holds(was[..offset] + payload + was[offset + size..], size, payloads + [payload])
  {
    var offset := Offset(|payloads|, size);
    var now := was[..offset] + payload + was[offset + size..];
    hide Offset;
    forall i | 0 <= i < |payloads + [payload]|
      ensures Offset(i, size) + size <= |now| && now[Offset(i, size)..Offset(i, size) + size] == (payloads + [payload])[i]
    {
      if i < |payloads| {
        SlotsApart(i, |payloads|, size);
        Untouched(was, payload, offset, Offset(i, size), Offset(i, size) + size);
      } else {
        JustWritten(was, payload, offset);
      }
    }
  }
}
