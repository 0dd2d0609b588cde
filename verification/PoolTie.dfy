/**
  A tie: an opponent whose match was declined goes behind somebody who arrived at the same instant, so it
  is not first in line again.
 */
module PoolTie {
  import opened Options
  import opened QueueEntry
  import opened Participants
  import opened Pairing
  import opened PoolModel
  import opened PoolBooks
  import opened PoolTrace
  import opened PoolInvariants
  import opened PoolTicks
  import opened PoolLoops
  import opened PoolRuns

  function Player(name: string, channel: nat): Participant {
    Participant(name, name, Tcg, Ranked, None, 0, None, true, Socket, channel)
  }

  const DECLINER := Player("a", 0)
  const OPPONENT := Player("b", 1)
  const RIVAL := Player("c", 2)
  const GAME := HumanMatch(DECLINER, OPPONENT, 0)
  const CALM := Surroundings(0, {}, [Fifo, BotFallback(false)], {}, {})

  /** Two players are paired and asked; a third arrives in the same instant. */
  const MOMENTS := [Moment(AddCall(DECLINER), CALM), Moment(AddCall(OPPONENT), CALM), Moment(TickCall, CALM),
                    Moment(AddCall(RIVAL), CALM)]

  const ONE := PoolState([DECLINER], [], map[], 0, [])
  const TWO := PoolState([DECLINER, OPPONENT], [], map[], 0, [])
  const ASKED := PoolState([], [Hold(GAME, MATCH_ACCEPT_TIMEOUT_MS)], map[], 1,
                           [Proposed(GAME, 0), ProposalSent(DECLINER, 0), ProposalSent(OPPONENT, 0)])
  const TIED := ASKED.(waiting := [RIVAL])

  // ---- the run ----------------------------------------------------------------------------------------

  lemma StoredNext(s: PoolState, p: Participant, after: seq<Participant>)
    requires FindByUser(s.waiting, p.userId).None? && PendingOfUser(s.pending, p.userId).None? && after == s.waiting + [p]
    ensures Add(s, p, 0).0 == s.(waiting := after)
  {
    AddCases(s, p, 0);
  }

  lemma Stored()
    ensures Add(EMPTY_POOL, DECLINER, 0).0 == ONE && Add(ONE, OPPONENT, 0).0 == TWO && Add(ASKED, RIVAL, 0).0 == TIED
  {
    assert OPPONENT.userId != DECLINER.userId && RIVAL.userId != DECLINER.userId && RIVAL.userId != OPPONENT.userId by {
      assert "a"[0] != "b"[0] && "c"[0] != "a"[0] && "c"[0] != "b"[0];
    }
    assert GAME.participants[1..] == [OPPONENT] && GAME.participants[1..][1..] == [];
    StoredNext(EMPTY_POOL, DECLINER, [DECLINER]);
    StoredNext(ONE, OPPONENT, [DECLINER, OPPONENT]);
    StoredNext(ASKED, RIVAL, [RIVAL]);
  }

  lemma PairListed()
    ensures Listed(TWO.waiting, POOL_KEYS[0]) == TWO.waiting
    ensures Listed(TWO.waiting, POOL_KEYS[1]) == [] && Listed(TWO.waiting, POOL_KEYS[2]) == []
  {
    assert TWO.waiting == [DECLINER] + [OPPONENT] && [DECLINER][1..] == [] && [OPPONENT][1..] == [];
    forall key: PoolKey ensures Listed(TWO.waiting, key) == Listed([DECLINER], key) + Listed([OPPONENT], key) {
      ListedAppend([DECLINER], [OPPONENT], key);
    }
    assert DECLINER.Key() == OPPONENT.Key() == POOL_KEYS[0];
  }

  lemma OnePair()
    ensures Composite(CALM.policies, TWO.waiting, 0, 0) == [GAME]
  {
    var ps := TWO.waiting;
    assert ps[..1] == [DECLINER] && [DECLINER][..0] == [] && SortByArrival([DECLINER]) == [DECLINER];
    assert SortByArrival(ps) == ps;
    assert ps[2..] == [] && PairUp(ps, 0) == [GAME];
    assert CALM.policies[1..] == [BotFallback(false)] && CALM.policies[1..][1..] == [];
  }

  lemma Asks()
    ensures Start(TWO.(nextMatchId := 1), GAME, CALM) == ASKED
  {
    var ps := GAME.participants;
    assert DECLINER in ps && DECLINER.supportsAcceptStep;
    assert ps[1..] == [OPPONENT] && ps[1..][1..] == [];
    assert OptedIn(ps) == ps;
    assert Proposals(ps, 0) == [ProposalSent(DECLINER, 0), ProposalSent(OPPONENT, 0)];
    assert DECLINER.id in Ids(ps) && OPPONENT.id in Ids(ps);
    DropAll(ps, Ids(ps));
    StartIs(TWO.(nextMatchId := 1), GAME, CALM);
  }

  lemma FirstKey()
    ensures PairKey(TWO, POOL_KEYS[0], CALM) == ASKED
  {
    PairListed();
    OnePair();
    Asks();
    PairKeyUnfolds(TWO, POOL_KEYS[0], CALM);
    StartAllUnfolds(TWO.(nextMatchId := 1), [GAME], CALM);
    StartNothing(ASKED, CALM);
    assert [GAME][1..] == [];
    hide PairKey, StartAll, Start, Composite, Listed;
  }

  lemma Ticked()
    ensures Tick(TWO, CALM) == ASKED
  {
    assert ASKED.waiting == [] && CALM.now == 0 && TWO.pending == [] && CALM.dead == {};
    assert ASKED.(trace := ASKED.trace + []) == ASKED;
    hide Tick, Sweep, Resolve, Forget, PairAll, PairKey, Publish, ByKey, Listed, Statuses;
    FirstKey();
    TickIs(TWO, CALM);
    NobodySwept(TWO, CALM);
    PairAllIs(TWO, CALM);
    PublishIs(ASKED, CALM);
    NobodyThere();
    NobodyToPair(ASKED, POOL_KEYS[1], CALM);
    NobodyToPair(ASKED, POOL_KEYS[2], CALM);
  }

  lemma NobodyThere()
    ensures ByKey([]) == [] && Statuses([], 0) == []
    ensures forall key: PoolKey :: Listed([], key) == []
  {
  }

  lemma Arrivals()
    ensures Arrival(EMPTY_POOL, DECLINER) && Arrival(ONE, OPPONENT) && Arrival(ASKED, RIVAL)
  {
    assert Places(ONE) == multiset{DECLINER};
    assert InPending(ASKED.pending) == [DECLINER, OPPONENT] by {
      assert ASKED.pending[1..] == [];
    }
    assert Places(ASKED) == multiset{DECLINER, OPPONENT};
    assert DECLINER.id != OPPONENT.id && DECLINER.id != RIVAL.id && OPPONENT.id != RIVAL.id by {
      assert "a"[0] != "b"[0] && "c"[0] != "a"[0] && "c"[0] != "b"[0];
    }
  }

  lemma StepsAre(m: Moment, s: PoolState)
    requires m.env == CALM
    ensures m.call.AddCall? ==> Step(s, m) == Add(s, m.call.p, 0).0
    ensures m.call.TickCall? ==> Step(s, m) == Tick(s, CALM)
  {
    hide Add, Tick;
  }

  lemma Reached()
    ensures Legal(EMPTY_POOL, MOMENTS) && Run(EMPTY_POOL, MOMENTS) == TIED
  {
    var m0, m1, m2, m3 := Moment(AddCall(DECLINER), CALM), Moment(AddCall(OPPONENT), CALM), Moment(TickCall, CALM), Moment(AddCall(RIVAL), CALM);
    assert MOMENTS == [m0, m1, m2, m3];
    hide *;
    Stored();
    Ticked();
    Arrivals();
    StepsAre(m0, EMPTY_POOL);
    StepsAre(m1, ONE);
    StepsAre(m2, TWO);
    StepsAre(m3, ASKED);
    FourSteps(EMPTY_POOL, m0, m1, m2, m3);
  }

  lemma FourSteps(s: PoolState, m0: Moment, m1: Moment, m2: Moment, m3: Moment)
    ensures var a := Step(s, m0);
            var b := Step(a, m1);
            var c := Step(b, m2);
            && Run(s, [m0, m1, m2, m3]) == Step(c, m3)
            && ((m0.call.AddCall? ==> Arrival(s, m0.call.p)) && (m1.call.AddCall? ==> Arrival(a, m1.call.p))
                && (m2.call.AddCall? ==> Arrival(b, m2.call.p)) && (m3.call.AddCall? ==> Arrival(c, m3.call.p))
                ==> Legal(s, [m0, m1, m2, m3]))
  {
    hide Step, Arrival;
    var a := Step(s, m0);
    var b := Step(a, m1);
    var c := Step(b, m2);
    assert [m0, m1, m2, m3][1..] == [m1, m2, m3] && [m1, m2, m3][1..] == [m2, m3] && [m2, m3][1..] == [m3] && [m3][1..] == [];
    assert Run(c, [m3]) == Step(c, m3) && Run(b, [m2, m3]) == Run(c, [m3]) && Run(a, [m1, m2, m3]) == Run(b, [m2, m3]);
    assert (m3.call.AddCall? ==> Arrival(c, m3.call.p)) ==> Legal(c, [m3]);
    assert Legal(b, [m2, m3]) <==> (m2.call.AddCall? ==> Arrival(b, m2.call.p)) && Legal(c, [m3]);
    assert Legal(a, [m1, m2, m3]) <==> (m1.call.AddCall? ==> Arrival(a, m1.call.p)) && Legal(b, [m2, m3]);
  }

  // ---- the tie ------------------------------------------------------------------------------------------

  /** After a run from the empty pool, a decline puts the opponent behind the rival of the same instant. */
  lemma OpponentGoesBehind()
    ensures Legal(EMPTY_POOL, MOMENTS) && OPPONENT.enqueuedAt == RIVAL.enqueuedAt
    ensures var s := Run(EMPTY_POOL, MOMENTS);
            var (after, response) := Decline(s, GAME.id, DECLINER.id, 1);
            && response == DeclinedResponse && after.waiting == [RIVAL, OPPONENT]
            && !FirstInLine(Listed(after.waiting, OPPONENT.Key()), OPPONENT)
  {
    var pm := Hold(GAME, MATCH_ACCEPT_TIMEOUT_MS);
    assert pm in TIED.pending && Opponents(pm, DECLINER, OPPONENT) && 1 < pm.deadline;
    assert TIED.waiting + [OPPONENT] == [RIVAL, OPPONENT] && OPPONENT.Key() == RIVAL.Key();
    assert RIVAL in Listed(TIED.waiting, OPPONENT.Key());
    assert OPPONENT.enqueuedAt == RIVAL.enqueuedAt;
    hide *;
    Reached();
    var s := RunFromEmpty(MOMENTS);
    DeclinePutsOpponentFirst(s, pm, DECLINER, OPPONENT, 1);
  }
}
