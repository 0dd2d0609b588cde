/**
  The card storage: fixed-size entries side by side in one buffer, and an open-addressing index over
  them. Reading a card is proved to answer as a search for the first card with that code would.
 */
module CardStorages {
  import opened Options
  import opened Bits
  import opened CardTable

  datatype BuildResult = Built(storage: CardStorage) | BadPayloadSize(size: nat)

  /** Doubles on 32-bit words until the load factor is met. */
  method ComputeHashCapacity(count: nat) returns (capacity: nat, ghost k: nat)
    requires count <= MAX_CARDS
    ensures capacity == Pow2(k) && 4 <= k <= 30
    ensures Required(count) <= capacity && count < capacity
    ensures capacity == HASH_MIN_CAPACITY || capacity / 2 < Required(count)
  {
    var doubling: int := HASH_MIN_CAPACITY;
    ghost var turns := 0;
    Pow2Values();
    hide Pow2;
    while doubling < Required(count)
      invariant turns <= 26 && doubling == Doubled(turns) == Pow2(turns + 4) <= 0x4000_0000
      invariant turns > 0 ==> doubling / 2 < Required(count)
      decreases 26 - turns
    {
      DoubledInRange(26);
      DoubledInRange(turns + 1);
      doubling := ShiftLeftOnce(doubling);
      turns := turns + 1;
      Pow2Doubles(turns + 3);
    }
    capacity, k := doubling, turns + 4;
  }

  class CardStorage {
    const entries: array<byte>
    const hashKeys: array<uint32>
    const hashValues: array<uint32>
    const hashMask: nat
    const size: nat
    const entrySize: nat
    /** What the storage was built from, and the exponent of its capacity. */
    ghost const cards: seq<Card>
    ghost const exponent: nat

    /** Ready to hold `size` cards; none is written yet. */
    constructor Blank(ghost cards: seq<Card>, size: nat, entrySize: nat, hashCapacity: nat, ghost exponent: nat)
      requires hashCapacity == Pow2(exponent) && size < hashCapacity
      ensures this.size == size && this.entrySize == entrySize && this.cards == cards
      ensures hashMask == hashCapacity - 1 && this.exponent == exponent
      ensures Shaped() && Table(hashKeys[..], hashValues[..], [], hashMask)
      ensures fresh(entries) && fresh(hashKeys) && fresh(hashValues)
    {
      this.cards, this.exponent := cards, exponent;
      this.size, this.entrySize := size, entrySize;
      hashMask := hashCapacity - 1;
      entries := new byte[Offset(size, entrySize)](_ => 0);
      hashKeys := new uint32[hashCapacity](_ => 0);
      hashValues := new uint32[hashCapacity](_ => 0);
      new;
      EmptyTable(hashKeys[..], hashValues[..], hashMask);
    }

    ghost predicate Shaped() {
      && hashKeys.Length == hashValues.Length == hashMask + 1 == Pow2(exponent)
      && size < hashMask + 1
      && entries.Length == Offset(size, entrySize)
      && hashKeys != hashValues
    }

    /** The index holds the code of every kept card, and the entries their payloads. */
    ghost predicate Valid()
      reads entries, hashKeys, hashValues
    {
      && Shaped()
      && size == |FirstCards(cards)|
      && Table(hashKeys[..], hashValues[..], Codes(FirstCards(cards)), hashMask)
      && Holds(entries[..], entrySize, Payloads(FirstCards(cards)))
    }

    /** The index and the entries hold these cards so far. */
    ghost predicate Filled(kept: seq<Card>)
      reads entries, hashKeys, hashValues
    {
      && Shaped()
      && Table(hashKeys[..], hashValues[..], Codes(kept), hashMask)
      && Holds(entries[..], entrySize, Payloads(kept))
    }

    lemma FilledIsValid()
      requires size == |FirstCards(cards)| && Filled(FirstCards(cards))
      ensures Valid()
    {
      hide Shaped, Table, Holds, FirstCards;
    }

    /** The payload of the first card with this code; nothing when there is none or the code is no card id. */
    method ReadCard(cardId: int) returns (r: Option<seq<byte>>)
      requires Valid()
      ensures r.Some? <==> 1 <= cardId <= 0x7fff_ffff && exists i: nat :: FirstAt(cards, i, cardId)
      ensures forall i: nat :: 1 <= cardId <= 0x7fff_ffff && FirstAt(cards, i, cardId) ==> r == Some(cards[i].payload)
    {
      if !ValidCardId(cardId) {
        return None;
      }
      FirstCardsAreFirst(cards, cardId);
      SomeFirst(cards, cardId);
      forall i: nat ensures FirstAt(cards, i, cardId) ==> FirstWith(cards, cardId) == Some(cards[i]) {
        FirstWithMeans(cards, cardId, i);
      }
      hide FirstAt, FirstCards, FirstWith, Table, Used, Offset;
      var entryIndex := FindEntryIndex(cardId, Codes(FirstCards(cards)));
      if entryIndex < 0 {
        return None;
      }
      assert Codes(FirstCards(cards))[entryIndex] == cardId;
      SlotsApart(entryIndex, size, entrySize);
      var offset := Offset(entryIndex, entrySize);
      r := Some(entries[offset..offset + entrySize]);
    }

    method FindEntryIndex(cardId: nat, ghost codes: seq<nat>) returns (entryIndex: int)
      requires Shaped() && Table(hashKeys[..], hashValues[..], codes, hashMask) && |codes| <= size && ValidCardId(cardId)
      ensures entryIndex == -1 ==> cardId !in codes
      ensures entryIndex != -1 ==> 0 <= entryIndex < |codes| && codes[entryIndex] == cardId
    {
      ghost var keys, start := hashKeys[..], Hash(cardId, hashMask);
      HashInRange(cardId, exponent);
      ghost var reach := FreeWithinReach(keys, hashValues[..], codes, hashMask, start);
      var slot := Hash(cardId, hashMask);
      ghost var d := 0;
      ProbeStart(start, |keys|);
      while true
        invariant d <= reach && slot == Probe(start, d, |keys|) && Passed(keys, start, cardId, d)
        decreases reach - d
      {
        hide Used, DistinctCodes, Hash, Probe, And, Pow2, AllFound;
        var key := hashKeys[slot];
        assert keys[slot] == key;
        if key == 0 {
          FreeMeansAbsent(keys, hashValues[..], codes, hashMask, cardId, d);
          return -1;
        }
        if key == cardId {
          var value := hashValues[slot];
          assert hashValues[..][slot] == value;
          return if value > 0 then value - 1 else -1;
        }
        ProbeNext(start, d, exponent);
        slot, d := And(slot + 1, hashMask), d + 1;
      }
    }

    method InsertHash(cardId: nat, entryIndex: nat, ghost codes: seq<nat>)
      requires Shaped() && Table(hashKeys[..], hashValues[..], codes, hashMask)
      requires entryIndex == |codes| < size && ValidCardId(cardId) && |codes| + 1 < TWO_32
      modifies hashKeys, hashValues
      ensures Table(hashKeys[..], hashValues[..], if cardId in codes then codes else codes + [cardId], hashMask)
    {
      ghost var keys, values, start := hashKeys[..], hashValues[..], Hash(cardId, hashMask);
      HashInRange(cardId, exponent);
      ghost var reach := FreeWithinReach(keys, values, codes, hashMask, start);
      var slot := Hash(cardId, hashMask);
      ghost var d := 0;
      ProbeStart(start, |keys|);
      while true
        invariant d <= reach && slot == Probe(start, d, |keys|) && Passed(keys, start, cardId, d)
        invariant hashKeys[..] == keys && hashValues[..] == values
        decreases reach - d
      {
        hide Used, DistinctCodes, Hash, Probe, And, Pow2, AllFound;
        var key := hashKeys[slot];
        assert keys[slot] == key;
        if key == 0 {
          FreeMeansAbsent(keys, values, codes, hashMask, cardId, d);
          FillKeepsTable(keys, values, codes, hashMask, cardId, d, slot);
          var value: uint32 := entryIndex + 1;
          hashKeys[slot] := cardId;
          hashValues[slot] := value;
          assert hashKeys[..] == keys[slot := cardId] && hashValues[..] == values[slot := value];
          return;
        }
        if key == cardId {
          return;
        }
        ProbeNext(start, d, exponent);
        slot, d := And(slot + 1, hashMask), d + 1;
      }
    }

    /** Copies a payload into its own stretch of the buffer. */
    method WriteEntry(entryIndex: nat, payload: seq<byte>, ghost payloads: seq<seq<byte>>)
      requires Shaped() && entryIndex == |payloads| < size && |payload| == entrySize
      requires Holds(entries[..], entrySize, payloads)
      modifies entries
      ensures Holds(entries[..], entrySize, payloads + [payload])
    {
      SlotsApart(entryIndex, size, entrySize);
      EntryWritten(entries[..], entrySize, payloads, payload);
      CopyInto(entries, Offset(entryIndex, entrySize), payload);
    }

    /** One card more: its payload is written and its code entered. */
    method StoreCard(entryIndex: nat, card: Card, ghost kept: seq<Card>)
      requires Filled(kept) && entryIndex == |kept| < size < MAX_CARDS + 1 && |card.payload| == entrySize
      requires ValidCardId(CodeOf(card)) && CodeOf(card) !in Codes(kept)
      modifies entries, hashKeys, hashValues
      ensures Filled(kept + [card])
    {
      assert Codes(kept + [card]) == Codes(kept) + [CodeOf(card)];
      assert Payloads(kept + [card]) == Payloads(kept) + [card.payload];
      hide Table, Holds, Pow2, Offset;
      WriteEntry(entryIndex, card.payload, Payloads(kept));
      InsertHash(CodeOf(card), entryIndex, Codes(kept));
    }
  }

  method CopyInto(buffer: array<byte>, offset: nat, payload: seq<byte>)
    requires offset + |payload| <= buffer.Length
    modifies buffer
    ensures buffer[..] == old(buffer[..offset]) + payload + old(buffer[offset + |payload|..])
  {
    ghost var was := buffer[..];
    for k := 0 to |payload|
      invariant buffer[..] == was[..offset] + payload[..k] + was[offset + k..]
    {
      buffer[offset + k] := payload[k];
      assert buffer[..] == was[..offset] + payload[..k + 1] + was[offset + k + 1..];
    }
    assert payload[..|payload|] == payload;
  }

  /** The cards kept are the first of every valid code; each payload must fill its entry exactly. */
  method FromCards(cards: seq<Card>, entrySize: nat) returns (r: BuildResult)
    requires |FirstCards(cards)| <= MAX_CARDS
    ensures r.Built? <==> forall c :: c in FirstCards(cards) ==> |c.payload| == entrySize
    ensures r.Built? ==> r.storage.Valid() && r.storage.cards == cards && fresh(r.storage)
    ensures r.BadPayloadSize? ==> r.size != entrySize
  {
    var uniqueCards := UniqueCards(cards);
    FirstCardsDistinct(cards);
    hide Table, Holds, FirstCards, Pow2, Required, Offset;
    var hashCapacity, k := ComputeHashCapacity(|uniqueCards|);
    var storage := new CardStorage.Blank(cards, |uniqueCards|, entrySize, hashCapacity, k);
    NothingWritten(storage.entries[..], entrySize);
    assert uniqueCards[..0] == [] && Codes([]) == [];
    assert storage.Filled(uniqueCards[..0]);
    hide *;
    for i := 0 to |uniqueCards|
      invariant storage.Filled(uniqueCards[..i])
      invariant forall j :: 0 <= j < i ==> |uniqueCards[j].payload| == entrySize
    {
      var card := uniqueCards[i];
      NextCard(uniqueCards, i);
      if |card.payload| != entrySize {
        assert card in FirstCards(cards);
        return BadPayloadSize(|card.payload|);
      }
      assert uniqueCards[..i + 1] == uniqueCards[..i] + [card];
      storage.StoreCard(i, card, uniqueCards[..i]);
    }
    assert uniqueCards[..|uniqueCards|] == uniqueCards;
    storage.FilledIsValid();
    r := Built(storage);
  }

  method UniqueCards(cards: seq<Card>) returns (uniqueCards: seq<Card>)
    ensures uniqueCards == FirstCards(cards)
  {
    var seen: set<nat> := {};
    uniqueCards := [];
    assert cards[..0] == [];
    for i := 0 to |cards|
      invariant uniqueCards == FirstCards(cards[..i])
      invariant forall id: nat :: id in seen <==> id in Codes(uniqueCards)
    {
      assert cards[..i + 1][..i] == cards[..i];
      var cardId := CodeOf(cards[i]);
      if ValidCardId(cardId) && cardId !in seen {
        assert Codes(uniqueCards + [cards[i]]) == Codes(uniqueCards) + [cardId];
        seen := seen + {cardId};
        uniqueCards := uniqueCards + [cards[i]];
      }
    }
    assert cards[..|cards|] == cards;
  }

  // ---- facts the methods lean on -----------------------------------------------------------------

  function Payloads(cards: seq<Card>): (r: seq<seq<byte>>)
    ensures |r| == |cards| && forall i :: 0 <= i < |r| ==> r[i] == cards[i].payload
  {
    seq(|cards|, i requires 0 <= i < |cards| => cards[i].payload)
  }

  lemma ProbeStart(start: nat, capacity: nat)
    requires start < capacity
    ensures Probe(start, 0, capacity) == start
  {
    DivModUnique(start, capacity, 0, start);
  }

  lemma NothingWritten(entries: seq<byte>, size: nat)
    ensures Holds(entries, size, Payloads([]))
  {
  }

  lemma NextCard(cards: seq<Card>, i: nat)
    requires i < |cards| && DistinctCodes(Codes(cards))
    ensures ValidCardId(CodeOf(cards[i])) && CodeOf(cards[i]) !in Codes(cards[..i])
  {
    assert Codes(cards)[i] == CodeOf(cards[i]);
    forall j | 0 <= j < i ensures Codes(cards[..i])[j] != CodeOf(cards[i]) {
      assert Codes(cards)[j] != Codes(cards)[i];
    }
  }
}
