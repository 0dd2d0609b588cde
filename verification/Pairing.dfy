/**
  The pairing policies: first come, first paired; a bot for whoever waited long enough; and the
  composite that feeds each policy what the ones before it left.
 */
module Pairing {
  import opened Options
  import opened QueueEntry
  import opened Participants
  import opened Sequences

  datatype Policy = Fifo | BotFallback(botAvailable: bool)

  // ---- what the policies compute -------------------------------------------------

  /** Puts a participant after everyone who arrived no later. */
  function Insert(sorted: seq<Participant>, p: Participant): seq<Participant> {
    if sorted == [] then [p]
    else if sorted[|sorted| - 1].enqueuedAt <= p.enqueuedAt then sorted + [p]
    else Insert(sorted[..|sorted| - 1], p) + [sorted[|sorted| - 1]]
  }

  /** `sort` by `enqueuedAt`: stable, so candidates of the same instant keep their order. */
  function SortByArrival(ps: seq<Participant>): seq<Participant> {
    if ps == [] then [] else Insert(SortByArrival(ps[..|ps| - 1]), ps[|ps| - 1])
  }

  function HumanMatch(first: Participant, second: Participant, id: nat): Match {
    Match(id, first.format, first.mode, true, Human, [first, second])
  }

  function BotMatch(p: Participant, id: nat): Match {
    Match(id, p.format, p.mode, false, Bot, [p])
  }

  function PairUp(ordered: seq<Participant>, firstId: nat): seq<Match> {
    if |ordered| < 2 then [] else [HumanMatch(ordered[0], ordered[1], firstId)] + PairUp(ordered[2..], firstId + 1)
  }

  predicate Overdue(p: Participant, now: int) {
    p.botFallbackAfterMs.Some? && now - p.enqueuedAt > ClampBotFallbackDelay(p.botFallbackAfterMs.value)
  }

  function BotMatches(ps: seq<Participant>, now: int, firstId: nat): seq<Match> {
    if ps == [] then []
    else if Overdue(ps[0], now) then [BotMatch(ps[0], firstId)] + BotMatches(ps[1..], now, firstId + 1)
    else BotMatches(ps[1..], now, firstId)
  }

  function Everyone(matches: seq<Match>): seq<Participant> {
    if matches == [] then [] else matches[0].participants + Everyone(matches[1..])
  }

  /** What one policy returns for the candidates it is fed. */
  function Chosen(policy: Policy, candidates: seq<Participant>, now: int, firstId: nat): seq<Match> {
    match policy
    case Fifo => PairUp(SortByArrival(candidates), firstId)
    case BotFallback(botAvailable) => if botAvailable then BotMatches(candidates, now, firstId) else []
  }

  function Composite(policies: seq<Policy>, candidates: seq<Participant>, now: int, firstId: nat): seq<Match>
    decreases |policies|
  {
    if policies == [] then []
    else
      var chosen := Chosen(policies[0], candidates, now, firstId);
      chosen + Composite(policies[1..], Drop(candidates, Ids(Everyone(chosen))), now, firstId + |chosen|)
  }

  // ---- sorting ----------------------------------------------------------------------

  ghost predicate Sorted(ps: seq<Participant>) {
    forall i, j :: 0 <= i < j < |ps| ==> ps[i].enqueuedAt <= ps[j].enqueuedAt
  }

  function At(ps: seq<Participant>, time: int): seq<Participant> {
    if ps == [] then [] else At(ps[..|ps| - 1], time) + (if ps[|ps| - 1].enqueuedAt == time then [ps[|ps| - 1]] else [])
  }

  lemma {:induction false} InsertPermutes(sorted: seq<Participant>, p: Participant)
    ensures multiset(Insert(sorted, p)) == multiset(sorted) + multiset{p}
  {
    if sorted != [] && sorted[|sorted| - 1].enqueuedAt > p.enqueuedAt {
      assert sorted == sorted[..|sorted| - 1] + [sorted[|sorted| - 1]];
      InsertPermutes(sorted[..|sorted| - 1], p);
    }
  }

  lemma {:induction false} InsertSorts(sorted: seq<Participant>, p: Participant, latest: int)
    requires Sorted(sorted)
    requires p.enqueuedAt <= latest && forall q :: q in sorted ==> q.enqueuedAt <= latest
    ensures Sorted(Insert(sorted, p))
    ensures forall q :: q in Insert(sorted, p) ==> q.enqueuedAt <= latest
  {
    if sorted != [] {
      var init, last := sorted[..|sorted| - 1], sorted[|sorted| - 1];
      assert forall q :: q in init ==> q in sorted && q.enqueuedAt <= last.enqueuedAt;
      if last.enqueuedAt > p.enqueuedAt {
        InsertSorts(init, p, last.enqueuedAt);
        LastStaysSorted(Insert(init, p), last);
      } else {
        LastStaysSorted(sorted, p);
      }
    }
  }

  lemma LastStaysSorted(ps: seq<Participant>, last: Participant)
    requires Sorted(ps) && forall q :: q in ps ==> q.enqueuedAt <= last.enqueuedAt
    ensures Sorted(ps + [last])
  {
    forall i | 0 <= i < |ps| ensures ps[i].enqueuedAt <= last.enqueuedAt {
      assert ps[i] in ps;
    }
  }

  function Latest(ps: seq<Participant>, p: Participant): (r: int)
    ensures p.enqueuedAt <= r && forall q :: q in ps ==> q.enqueuedAt <= r
  {
    if ps == [] then p.enqueuedAt
    else
      var rest := Latest(ps[1..], p);
      if ps[0].enqueuedAt > rest then ps[0].enqueuedAt else rest
  }

  lemma {:induction false} InsertIsStable(sorted: seq<Participant>, p: Participant, time: int)
    requires Sorted(sorted)
    ensures At(Insert(sorted, p), time) == At(sorted + [p], time)
  {
    assert (sorted + [p])[..|sorted|] == sorted;
    if sorted != [] && sorted[|sorted| - 1].enqueuedAt > p.enqueuedAt {
      var init, last := sorted[..|sorted| - 1], sorted[|sorted| - 1];
      InsertIsStable(init, p, time);
      assert (init + [p])[..|init|] == init;
      assert (Insert(init, p) + [last])[..|Insert(init, p)|] == Insert(init, p);
    }
  }

  /** The sort is a permutation, is ordered by arrival, and never swaps two arrivals of the same instant. */
  lemma {:induction false} SortIsStableSort(ps: seq<Participant>, time: int)
    ensures Sorted(SortByArrival(ps))
    ensures multiset(SortByArrival(ps)) == multiset(ps)
    ensures At(SortByArrival(ps), time) == At(ps, time)
  {
    if ps != [] {
      var init, last := ps[..|ps| - 1], ps[|ps| - 1];
      assert ps == init + [last];
      SortIsStableSort(init, time);
      InsertPermutes(SortByArrival(init), last);
      InsertSorts(SortByArrival(init), last, Latest(SortByArrival(init), last));
      InsertIsStable(SortByArrival(init), last, time);
      assert (SortByArrival(init) + [last])[..|SortByArrival(init)|] == SortByArrival(init);
    }
  }

  // ---- first come, first paired --------------------------------------------------------

  /** Whoever the pairing leaves over: nobody, or the last in line. */
  function LeftOver(ordered: seq<Participant>): seq<Participant> {
    if |ordered| % 2 == 0 then [] else [ordered[|ordered| - 1]]
  }

  ghost predicate IdsFrom(matches: seq<Match>, firstId: nat) {
    forall i :: 0 <= i < |matches| ==> matches[i].id == firstId + i
  }

  /** Laid end to end, the pairs and whoever is left over are the line itself. */
  lemma {:induction false} PairUpPartitions(ordered: seq<Participant>, firstId: nat)
    ensures Everyone(PairUp(ordered, firstId)) + LeftOver(ordered) == ordered
  {
    if |ordered| >= 2 {
      var head, tail := [ordered[0], ordered[1]], ordered[2..];
      PairUpPartitions(tail, firstId + 1);
      EveryoneAppend([HumanMatch(ordered[0], ordered[1], firstId)], PairUp(tail, firstId + 1));
      assert Everyone([HumanMatch(ordered[0], ordered[1], firstId)]) == head + Everyone([]);
      hide Everyone, PairUp;
      assert LeftOver(ordered) == LeftOver(tail);
    }
  }

  lemma {:induction false} PairUpNumbers(ordered: seq<Participant>, firstId: nat)
    ensures IdsFrom(PairUp(ordered, firstId), firstId)
    ensures |PairUp(ordered, firstId)| == |ordered| / 2
  {
    if |ordered| >= 2 {
      PairUpNumbers(ordered[2..], firstId + 1);
    }
  }

  lemma {:induction false} PairUpTakesInOrder(ordered: seq<Participant>, firstId: nat, k: nat)
    requires k < |PairUp(ordered, firstId)|
    ensures 2 * k + 1 < |ordered|
    ensures PairUp(ordered, firstId)[k] == HumanMatch(ordered[2 * k], ordered[2 * k + 1], firstId + k)
  {
    if k > 0 {
      PairUpTakesInOrder(ordered[2..], firstId + 1, k - 1);
    }
  }

  /** The one candidate FIFO may leave arrived no earlier than anyone it paired. */
  lemma LeftOverIsLatest(ordered: seq<Participant>, firstId: nat)
    requires Sorted(ordered)
    ensures |LeftOver(ordered)| <= 1
    ensures forall p, q :: p in LeftOver(ordered) && q in Everyone(PairUp(ordered, firstId)) ==> q.enqueuedAt <= p.enqueuedAt
  {
    PairUpPartitions(ordered, firstId);
    var paired := Everyone(PairUp(ordered, firstId));
    forall p, q | p in LeftOver(ordered) && q in paired ensures q.enqueuedAt <= p.enqueuedAt {
      var i :| 0 <= i < |paired| && paired[i] == q;
      assert ordered[i] == q && ordered[|ordered| - 1] == p;
    }
  }

  // ---- bots -------------------------------------------------------------------------------

  lemma {:induction false} BotMatchesArePart(ps: seq<Participant>, now: int, firstId: nat)
    ensures multiset(Everyone(BotMatches(ps, now, firstId))) <= multiset(ps)
  {
    if ps != [] {
      assert ps == [ps[0]] + ps[1..];
      BotMatchesArePart(ps[1..], now, if Overdue(ps[0], now) then firstId + 1 else firstId);
      if Overdue(ps[0], now) {
        assert BotMatches(ps, now, firstId)[1..] == BotMatches(ps[1..], now, firstId + 1);
      }
    }
  }

  lemma {:induction false} BotMatchesTakeOverdue(ps: seq<Participant>, now: int, firstId: nat)
    ensures IdsFrom(BotMatches(ps, now, firstId), firstId)
    ensures forall m :: m in BotMatches(ps, now, firstId) ==>
              && m.opponentKind.Bot? && !m.rated && |m.participants| == 1
              && m.format == m.participants[0].format && m.mode == m.participants[0].mode
              && m.participants[0].botFallbackAfterMs.Some?
              && now - m.participants[0].enqueuedAt > ClampBotFallbackDelay(m.participants[0].botFallbackAfterMs.value)
    ensures forall p :: p in ps && p.botFallbackAfterMs.Some?
                        && now - p.enqueuedAt > ClampBotFallbackDelay(p.botFallbackAfterMs.value) ==>
              exists m :: m in BotMatches(ps, now, firstId) && m.participants == [p]
  {
    if ps != [] {
      BotMatchesTakeOverdue(ps[1..], now, if Overdue(ps[0], now) then firstId + 1 else firstId);
      if Overdue(ps[0], now) {
        assert BotMatches(ps, now, firstId)[0].participants == [ps[0]];
      }
    }
  }

  // ---- the composite policy --------------------------------------------------------------

  lemma EveryoneAppend(a: seq<Match>, b: seq<Match>)
    ensures Everyone(a + b) == Everyone(a) + Everyone(b)
  {
    if a == [] {
      assert a + b == b;
    } else {
      assert (a + b)[1..] == a[1..] + b;
      EveryoneAppend(a[1..], b);
    }
  }

  lemma PairedArePart(candidates: seq<Participant>, firstId: nat)
    ensures multiset(Everyone(PairUp(SortByArrival(candidates), firstId))) + multiset(LeftOver(SortByArrival(candidates)))
            == multiset(candidates)
  {
    var ordered := SortByArrival(candidates);
    SortIsStableSort(candidates, 0);
    PairUpPartitions(ordered, firstId);
    assert multiset(Everyone(PairUp(ordered, firstId)) + LeftOver(ordered)) == multiset(ordered);
  }

  /** Each policy takes candidates out of what it was fed, each at most once. */
  lemma ChosenIsPart(policy: Policy, candidates: seq<Participant>, now: int, firstId: nat)
    ensures multiset(Everyone(Chosen(policy, candidates, now, firstId))) <= multiset(candidates)
    ensures IdsFrom(Chosen(policy, candidates, now, firstId), firstId)
  {
    match policy {
      case Fifo =>
        PairedArePart(candidates, firstId);
        PairUpNumbers(SortByArrival(candidates), firstId);
      case BotFallback(_) =>
        BotMatchesArePart(candidates, now, firstId);
        BotMatchesTakeOverdue(candidates, now, firstId);
    }
  }

  /** Each candidate is seated at most once, for any list of policies. */
  lemma {:induction false} CompositeIsDisjoint(policies: seq<Policy>, candidates: seq<Participant>, now: int, firstId: nat)
    requires Unique(multiset(candidates))
    ensures multiset(Everyone(Composite(policies, candidates, now, firstId))) <= multiset(candidates)
    decreases |policies|
  {
    hide *;
    if policies == [] {
      CompositeOfNone(candidates, now, firstId);
    } else {
      var chosen, rest, later := CompositeStep(policies, candidates, now, firstId);
      CompositeIsDisjoint(policies[1..], rest, now, firstId + |chosen|);
      PartOfWhole(chosen, later, rest, candidates);
    }
  }

  lemma CompositeOfNone(candidates: seq<Participant>, now: int, firstId: nat)
    ensures Composite([], candidates, now, firstId) == [] && Everyone(Composite([], candidates, now, firstId)) == []
  {
  }

  /** The composite runs its first policy, then the others on what that one left. */
  lemma CompositeStep(policies: seq<Policy>, candidates: seq<Participant>, now: int, firstId: nat)
    returns (chosen: seq<Match>, rest: seq<Participant>, later: seq<Match>)
    requires policies != [] && Unique(multiset(candidates))
    ensures chosen == Chosen(policies[0], candidates, now, firstId)
    ensures multiset(Everyone(chosen)) + multiset(rest) == multiset(candidates) && Unique(multiset(rest))
    ensures later == Composite(policies[1..], rest, now, firstId + |chosen|)
    ensures Composite(policies, candidates, now, firstId) == chosen + later
  {
    hide Chosen, Everyone, Unique;
    chosen := Chosen(policies[0], candidates, now, firstId);
    rest := Fed(policies[0], candidates, now, firstId);
    later := Composite(policies[1..], rest, now, firstId + |chosen|);
  }

  lemma PartOfWhole(chosen: seq<Match>, later: seq<Match>, rest: seq<Participant>, candidates: seq<Participant>)
    requires multiset(Everyone(chosen)) + multiset(rest) == multiset(candidates)
    requires multiset(Everyone(later)) <= multiset(rest)
    ensures multiset(Everyone(chosen + later)) <= multiset(candidates)
  {
    EveryoneAppend(chosen, later);
  }

  /** What the next policy is fed: the candidates without those just chosen. */
  lemma Fed(policy: Policy, candidates: seq<Participant>, now: int, firstId: nat) returns (rest: seq<Participant>)
    requires Unique(multiset(candidates))
    ensures rest == Drop(candidates, Ids(Everyone(Chosen(policy, candidates, now, firstId))))
    ensures multiset(Everyone(Chosen(policy, candidates, now, firstId))) + multiset(rest) == multiset(candidates)
    ensures Unique(multiset(rest))
  {
    var chosen := Chosen(policy, candidates, now, firstId);
    rest := Drop(candidates, Ids(Everyone(chosen)));
    ChosenIsPart(policy, candidates, now, firstId);
    KeepSelects(candidates, Everyone(chosen));
    KeepUnique(candidates, Ids(Everyone(chosen)));
  }

  lemma {:induction false} CompositeNumbers(policies: seq<Policy>, candidates: seq<Participant>, now: int, firstId: nat)
    ensures IdsFrom(Composite(policies, candidates, now, firstId), firstId)
    decreases |policies|
  {
    if policies != [] {
      var chosen := Chosen(policies[0], candidates, now, firstId);
      hide Chosen, Everyone, Drop, Ids;
      ChosenIsPart(policies[0], candidates, now, firstId);
      CompositeNumbers(policies[1..], Drop(candidates, Ids(Everyone(chosen))), now, firstId + |chosen|);
    }
  }

  /**
    A human match is rated and holds two different users; a bot match is not and holds one participant whose
    delay has passed. Either is of the format and mode its first participant asked for.
   */
  ghost predicate WellFormed(m: Match, now: int) {
    && |m.participants| == (if m.opponentKind.Human? then 2 else 1)
    && m.format == m.participants[0].format && m.mode == m.participants[0].mode
    && (m.rated <==> m.opponentKind.Human?)
    && if m.opponentKind.Human? then Apart(m.participants[0], m.participants[1])
       else
         && m.participants[0].botFallbackAfterMs.Some?
         && now - m.participants[0].enqueuedAt > ClampBotFallbackDelay(m.participants[0].botFallbackAfterMs.value)
  }

  lemma {:induction false} CompositeShapes(policies: seq<Policy>, candidates: seq<Participant>, now: int, firstId: nat)
    requires Unique(multiset(candidates))
    ensures forall m :: m in Composite(policies, candidates, now, firstId) ==> WellFormed(m, now)
    decreases |policies|
  {
    hide *;
    if policies == [] {
      CompositeOfNone(candidates, now, firstId);
    } else {
      var chosen, rest, later := CompositeStep(policies, candidates, now, firstId);
      CompositeShapes(policies[1..], rest, now, firstId + |chosen|);
      ChosenShapes(policies[0], candidates, now, firstId);
      forall m | m in chosen + later ensures WellFormed(m, now) {
        assert m in chosen || m in later;
      }
    }
  }

  lemma ChosenShapes(policy: Policy, candidates: seq<Participant>, now: int, firstId: nat)
    requires Unique(multiset(candidates))
    ensures forall m :: m in Chosen(policy, candidates, now, firstId) ==> WellFormed(m, now)
  {
    if policy.Fifo? {
      PairUpShapes(candidates, firstId);
    } else {
      BotMatchesTakeOverdue(candidates, now, firstId);
    }
  }

  lemma PairUpShapes(candidates: seq<Participant>, firstId: nat)
    requires Unique(multiset(candidates))
    ensures forall m :: m in PairUp(SortByArrival(candidates), firstId) ==>
              && m.opponentKind.Human? && m.rated && |m.participants| == 2 && Apart(m.participants[0], m.participants[1])
              && m.format == m.participants[0].format && m.mode == m.participants[0].mode
  {
    hide *;
    var ordered := SortByArrival(candidates);
    SortIsStableSort(candidates, 0);
    forall m | m in PairUp(ordered, firstId)
      ensures m.opponentKind.Human? && m.rated && |m.participants| == 2 && Apart(m.participants[0], m.participants[1])
      ensures m.format == m.participants[0].format && m.mode == m.participants[0].mode
    {
      var k :| 0 <= k < |PairUp(ordered, firstId)| && PairUp(ordered, firstId)[k] == m;
      PairUpTakesInOrder(ordered, firstId, k);
      OneOccurrence(ordered, 2 * k, 2 * k + 1);
      HumanMatchIs(ordered[2 * k], ordered[2 * k + 1], firstId + k);
    }
  }

  lemma HumanMatchIs(first: Participant, second: Participant, id: nat)
    ensures var m := HumanMatch(first, second, id);
            && m.opponentKind.Human? && m.rated && m.participants == [first, second]
            && m.format == first.format && m.mode == first.mode
  {
  }

  /** Who is left for the bots: the latest arrival of an odd crowd, or nobody. */
  lemma RestIsLeftOver(candidates: seq<Participant>, now: int, firstId: nat)
    requires Unique(multiset(candidates))
    ensures Drop(candidates, Ids(Everyone(PairUp(SortByArrival(candidates), firstId)))) == LeftOver(SortByArrival(candidates))
  {
    var ordered := SortByArrival(candidates);
    PairedArePart(candidates, firstId);
    var rest := Fed(Fifo, candidates, now, firstId);
    SameRest(multiset(Everyone(PairUp(ordered, firstId))), rest, LeftOver(ordered), multiset(candidates));
  }

  /**
    FIFO then bots, as the queue wires them: everyone but the latest arrival of an odd crowd plays a
    human, and only that one may get a bot.
   */
  lemma FifoThenBots(candidates: seq<Participant>, botAvailable: bool, now: int, firstId: nat)
    requires Unique(multiset(candidates))
    ensures Composite([Fifo, BotFallback(botAvailable)], candidates, now, firstId) ==
            PairUp(SortByArrival(candidates), firstId) +
            (if botAvailable then BotMatches(LeftOver(SortByArrival(candidates)), now, firstId + |candidates| / 2) else [])
  {
    hide *;
    RestIsLeftOver(candidates, now, firstId);
    PairUpNumbers(SortByArrival(candidates), firstId);
    SortedLength(candidates);
    CompositeOfTwo(botAvailable, candidates, now, firstId);
  }

  lemma CompositeOfTwo(botAvailable: bool, candidates: seq<Participant>, now: int, firstId: nat)
    ensures var pairs := PairUp(SortByArrival(candidates), firstId);
            var rest := Drop(candidates, Ids(Everyone(pairs)));
            Composite([Fifo, BotFallback(botAvailable)], candidates, now, firstId)
            == pairs + (if botAvailable then BotMatches(rest, now, firstId + |pairs|) else [])
  {
    var policies := [Fifo, BotFallback(botAvailable)];
    var pairs := Chosen(policies[0], candidates, now, firstId);
    var rest := Drop(candidates, Ids(Everyone(pairs)));
    assert policies[1..] == [BotFallback(botAvailable)] && policies[1..][1..] == [];
    var bots := Chosen(policies[1], rest, now, firstId + |pairs|);
    assert Composite(policies[1..], rest, now, firstId + |pairs|) == bots + [];
  }

  lemma SortedLength(candidates: seq<Participant>)
    ensures |SortByArrival(candidates)| == |candidates|
  {
    SortIsStableSort(candidates, 0);
    SameLength(candidates, SortByArrival(candidates));
  }

  lemma SameRest(taken: multiset<Participant>, rest: seq<Participant>, left: seq<Participant>, all: multiset<Participant>)
    requires taken + multiset(rest) == all && taken + multiset(left) == all && |left| <= 1
    ensures rest == left
  {
    assert multiset(rest) == all - taken == multiset(left);
    SingletonFromMultiset(rest, left);
  }

  lemma SameLength(a: seq<Participant>, b: seq<Participant>)
    requires multiset(a) == multiset(b)
    ensures |a| == |b|
  {
    assert |a| == |multiset(a)| == |multiset(b)| == |b|;
  }

  lemma SingletonFromMultiset(a: seq<Participant>, b: seq<Participant>)
    requires multiset(a) == multiset(b) && |b| <= 1
    ensures a == b
  {
    SameLength(a, b);
    if |b| == 1 {
      assert b[0] in multiset(b);
      assert b[0] in multiset(a);
    }
  }

  // ---- the policies as the program runs them -------------------------------------------

  method FifoPair(candidates: seq<Participant>, firstId: nat) returns (matches: seq<Match>)
    ensures matches == PairUp(SortByArrival(candidates), firstId)
  {
    hide PairUp;
    var ordered := SortByArrival(candidates);
    matches := [];
    var i := 0;
    assert ordered[0..] == ordered;
    while i + 1 < |ordered|
      invariant 0 <= i <= |ordered| && i == 2 * |matches|
      invariant matches + PairUp(ordered[i..], firstId + |matches|) == PairUp(ordered, firstId)
    {
      PairUpUnfolds(ordered, i, firstId + |matches|);
      Associates(matches, [HumanMatch(ordered[i], ordered[i + 1], firstId + |matches|)],
                  PairUp(ordered[i + 2..], firstId + |matches| + 1));
      matches := matches + [HumanMatch(ordered[i], ordered[i + 1], firstId + |matches|)];
      i := i + 2;
    }
    NoPair(ordered[i..], firstId + |matches|);
  }

  lemma NoPair(ordered: seq<Participant>, id: nat)
    requires |ordered| < 2
    ensures PairUp(ordered, id) == []
  {
  }

  lemma PairUpUnfolds(ordered: seq<Participant>, i: nat, id: nat)
    requires i + 1 < |ordered|
    ensures PairUp(ordered[i..], id) == [HumanMatch(ordered[i], ordered[i + 1], id)] + PairUp(ordered[i + 2..], id + 1)
  {
    assert ordered[i..][2..] == ordered[i + 2..];
  }

  method BotPair(candidates: seq<Participant>, botAvailable: bool, now: int, firstId: nat) returns (matches: seq<Match>)
    ensures matches == if botAvailable then BotMatches(candidates, now, firstId) else []
  {
    matches := [];
    if !botAvailable {
      return;
    }
    for i := 0 to |candidates|
      invariant matches + BotMatches(candidates[i..], now, firstId + |matches|) == BotMatches(candidates, now, firstId)
    {
      var p := candidates[i];
      assert candidates[i..][1..] == candidates[i + 1..];
      if p.botFallbackAfterMs.None? {
        continue;
      }
      if now - p.enqueuedAt <= ClampBotFallbackDelay(p.botFallbackAfterMs.value) {
        continue;
      }
      matches := matches + [BotMatch(p, firstId + |matches|)];
    }
  }

  method RunPolicy(policy: Policy, candidates: seq<Participant>, now: int, firstId: nat) returns (matches: seq<Match>)
    ensures matches == Chosen(policy, candidates, now, firstId)
  {
    match policy {
      case Fifo => matches := FifoPair(candidates, firstId);
      case BotFallback(botAvailable) => matches := BotPair(candidates, botAvailable, now, firstId);
    }
  }

  lemma CompositeUnfolds(policies: seq<Policy>, i: nat, candidates: seq<Participant>, now: int, firstId: nat)
    requires i < |policies|
    ensures var chosen := Chosen(policies[i], candidates, now, firstId);
            Composite(policies[i..], candidates, now, firstId)
            == chosen + Composite(policies[i + 1..], Drop(candidates, Ids(Everyone(chosen))), now, firstId + |chosen|)
  {
    hide Chosen, Everyone, Drop;
    assert policies[i..][1..] == policies[i + 1..];
  }

  lemma NobodyToDrop(ps: seq<Participant>)
    ensures Drop(ps, Ids(Everyone([]))) == ps
  {
    DropAll(ps, {});
  }

  method CompositePair(policies: seq<Policy>, candidates: seq<Participant>, now: int, firstId: nat)
    returns (matches: seq<Match>)
    ensures matches == Composite(policies, candidates, now, firstId)
  {
    hide *;
    matches := [];
    var remaining := candidates;
    assert policies[0..] == policies;
    for i := 0 to |policies|
      invariant matches + Composite(policies[i..], remaining, now, firstId + |matches|)
                == Composite(policies, candidates, now, firstId)
    {
      var chosen := RunPolicy(policies[i], remaining, now, firstId + |matches|);
      CompositeUnfolds(policies, i, remaining, now, firstId + |matches|);
      var rest := Drop(remaining, Ids(Everyone(chosen)));
      if chosen == [] {
        NobodyToDrop(remaining);
        continue;
      }
      Associates(matches, chosen, Composite(policies[i + 1..], rest, now, firstId + |matches| + |chosen|));
      matches := matches + chosen;
      remaining := rest;
    }
    CompositeOfNone(remaining, now, firstId + |matches|);
    assert policies[|policies|..] == [];
  }
}
