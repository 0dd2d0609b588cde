/**
  What one call does to the outside, as somebody watching the trace sees it: who may hold a place
  afterwards, and to whom a FOUND went out. A participant told of its match keeps a place if and only
  if the handler also put it back.
 */
module PoolEffects {
  import opened Options
  import opened QueueEntry
  import opened Participants
  import opened Pairing
  import opened PoolModel
  import opened PoolBooks
  import opened PoolTrace
  import opened PoolInvariants
  import opened PoolTicks
  import opened PoolLoops
  import PoolReturns

  /** The events of `after` that came on top of those of `s`. */
  function News(s: PoolState, after: PoolState): seq<Event> {
    if |s.trace| <= |after.trace| then after.trace[|s.trace|..] else []
  }

  /** Nobody was told of a match, and only `extra` may have got in. */
  ghost predicate Plain(s: PoolState, after: PoolState, extra: set<Participant>) {
    && s.trace <= after.trace
    && (forall e :: e in News(s, after) ==> !e.FoundSent?)
    && (forall p :: p in Places(after) ==> p in Places(s) || p in extra)
  }

  /** Everyone told of a match had a place, and still has one if and only if the handler put it back. */
  ghost predicate Effect(s: PoolState, after: PoolState, env: Surroundings) {
    && s.trace <= after.trace
    && (forall p :: p in Places(after) ==> p in Places(s))
    && (forall e :: e in News(s, after) && e.FoundSent? ==>
          e.p in Places(s) && e.p.id in env.told && (e.p in Places(after) <==> e.p.id in env.back))
  }

  lemma PlainIs(s: PoolState, after: PoolState, more: seq<Event>)
    requires after.trace == s.trace + more && (forall e :: e in more ==> !e.FoundSent?)
    requires Places(after) <= Places(s)
    ensures Plain(s, after, {})
  {
    assert News(s, after) == more;
  }

  lemma NewsThen(s: PoolState, s1: PoolState, s2: PoolState)
    requires s.trace <= s1.trace && s1.trace <= s2.trace
    ensures s.trace <= s2.trace
    ensures forall e :: e in News(s, s2) <==> e in News(s, s1) || e in News(s1, s2)
  {
    assert News(s, s2) == News(s, s1) + News(s1, s2);
  }

  lemma PlainThen(s: PoolState, s1: PoolState, s2: PoolState, extra: set<Participant>)
    requires Plain(s, s1, extra) && Plain(s1, s2, {})
    ensures Plain(s, s2, extra)
  {
    NewsThen(s, s1, s2);
  }

  lemma PlainEffect(s: PoolState, after: PoolState, env: Surroundings)
    requires Plain(s, after, {})
    ensures Effect(s, after, env)
  {
  }

  lemma PlainThenEffect(s: PoolState, s1: PoolState, s2: PoolState, env: Surroundings)
    requires Plain(s, s1, {}) && Effect(s1, s2, env)
    ensures Effect(s, s2, env)
  {
    NewsThen(s, s1, s2);
  }

  lemma EffectThen(s: PoolState, s1: PoolState, s2: PoolState, env: Surroundings)
    requires Effect(s, s1, env) && Effect(s1, s2, env)
    requires forall e :: e in News(s, s1) && e.FoundSent? && e.p.id in env.back ==> e.p in Places(s2)
    ensures Effect(s, s2, env)
  {
    NewsThen(s, s1, s2);
  }

  // ---- the quiet calls ------------------------------------------------------------------------

  lemma LeavePlain(s: PoolState, ps: seq<Participant>, outcome: Outcome, now: int)
    requires Inv(s) && multiset(ps) <= multiset(s.waiting)
    ensures Plain(s, Leave(s, ps, outcome, now), {})
  {
    hide *;
    LeaveKeeps(s, ps, outcome, now);
    LessIsPart(Places(s), multiset(ps), Places(Leave(s, ps, outcome, now)));
    NotFounds(ps, [], outcome, now);
    LeaveTells(s, ps, outcome, now);
    PlainIs(s, Leave(s, ps, outcome, now), Exits(ps, outcome, now));
  }

  lemma LeaveTells(s: PoolState, ps: seq<Participant>, outcome: Outcome, now: int)
    ensures Leave(s, ps, outcome, now).trace == s.trace + Exits(ps, outcome, now)
  {
  }

  lemma NotFounds(gone: seq<Participant>, stay: seq<Participant>, outcome: Outcome, now: int)
    ensures forall e :: e in Exits(gone, outcome, now) + Statuses(stay, now) ==> !e.FoundSent?
    ensures forall e :: e in Exits(gone, outcome, now) ==> !e.FoundSent?
  {
  }

  lemma AbandonPlain(s: PoolState, pm: PendingMatch, leaving: set<string>, outcome: Outcome, now: int)
    requires Inv(s) && pm in s.pending
    ensures Plain(s, Abandon(s, pm, leaving, outcome, now), {})
  {
    hide *;
    AbandonKeeps(s, pm, leaving, outcome, now);
    AbandonTells(s, pm, leaving, outcome, now);
    var gone, stay := Keep(pm.game.participants, leaving), Drop(pm.game.participants, leaving);
    NotFounds(gone, stay, outcome, now);
    LessIsPart(Places(s), multiset(gone), Places(Abandon(s, pm, leaving, outcome, now)));
    PlainIs(s, Abandon(s, pm, leaving, outcome, now), Exits(gone, outcome, now) + Statuses(stay, now));
  }

  lemma LessIsPart(was: multiset<Participant>, gone: multiset<Participant>, left: multiset<Participant>)
    requires left == was - gone
    ensures left <= was
  {
  }

  lemma TellPlain(s: PoolState, more: seq<Event>)
    requires forall e :: e in more ==> !e.FoundSent?
    ensures Plain(s, s.(trace := s.trace + more), {})
  {
    var after := s.(trace := s.trace + more);
    assert Places(after) == Places(s);
    PlainIs(s, after, more);
  }

  lemma BackPlain(s: PoolState, p: Participant)
    ensures Plain(s, Rejoined(s, [p]), {p})
  {
    var after := Rejoined(s, [p]);
    assert News(s, after) == [];
    assert multiset(after.waiting) == multiset(s.waiting) + multiset{p};
  }

  lemma WithdrawPlain(s: PoolState, id: string, fromStore: Outcome, fromPending: Outcome, now: int)
    requires Inv(s)
    ensures Plain(s, Withdraw(s, id, fromStore, fromPending, now).0, {})
  {
    var queued, held := FindById(s.waiting, id), PendingOfId(s.pending, id);
    WithdrawCases(s, id, fromStore, fromPending, now);
    if queued.Some? {
      JustOne(s.waiting, queued.value);
    }
    assert Plain(s, s, {});
    hide *;
    if queued.Some? {
      LeavePlain(s, [queued.value], fromStore, now);
    } else if held.Some? {
      AbandonPlain(s, held.value, {id}, fromPending, now);
    }
  }

  lemma ClosePlain(s: PoolState, p: Participant, reason: CloseReason)
    ensures Plain(s, Close(s, p, reason), {})
  {
    TellPlain(s, [Closed(p, reason)]);
  }

  lemma AddPlain(s: PoolState, p: Participant, now: int)
    requires Inv(s) && Arrival(s, p)
    ensures Plain(s, Add(s, p, now).0, {p})
  {
    var queued, held := FindByUser(s.waiting, p.userId), PendingOfUser(s.pending, p.userId);
    AddCases(s, p, now);
    assert Plain(s, s, {p});
    assert forall s1: PoolState :: PoolReturns.Back(s1, p) == Rejoined(s1, [p]);
    if queued.Some? {
      JustOne(s.waiting, queued.value);
    }
    hide *;
    if queued.Some? {
      LeavePlain(s, [queued.value], Replaced, now);
      ReplacedPlain(s, Leave(s, [queued.value], Replaced, now), queued.value, p);
    } else if held.Some? {
      var e := FindByUser(held.value.game.participants, p.userId).value;
      AbandonPlain(s, held.value, {e.id}, Replaced, now);
      ReplacedPlain(s, Abandon(s, held.value, {e.id}, Replaced, now), e, p);
    } else {
      BackPlain(s, p);
    }
  }

  lemma ReplacedPlain(s: PoolState, s1: PoolState, existing: Participant, p: Participant)
    requires Plain(s, s1, {})
    ensures Plain(s, Rejoined(Close(s1, existing, ReplacedByNewConnection), [p]), {p})
  {
    var s2 := Close(s1, existing, ReplacedByNewConnection);
    hide *;
    ClosePlain(s1, existing, ReplacedByNewConnection);
    PlainThen(s, s1, s2, {});
    BackPlain(s2, p);
    PlainThenIn(s, s2, Rejoined(s2, [p]), {p});
  }

  lemma PlainThenIn(s: PoolState, s1: PoolState, s2: PoolState, extra: set<Participant>)
    requires Plain(s, s1, {}) && Plain(s1, s2, extra)
    ensures Plain(s, s2, extra)
  {
    NewsThen(s, s1, s2);
  }

  lemma DeclinePlain(s: PoolState, matchId: nat, id: string, now: int)
    requires Inv(s)
    ensures Plain(s, Decline(s, matchId, id, now).0, {})
  {
    DeclineCases(s, matchId, id, now);
    assert Plain(s, s, {});
    var live := LivePending(s, matchId, id, now);
    if live.Some? {
      var s1 := Abandon(s, live.value, {id}, Declined, now);
      var p := FindById(live.value.game.participants, id).value;
      assert live.value in s.pending;
      hide *;
      AbandonPlain(s, live.value, {id}, Declined, now);
      ClosePlain(s1, p, DeclinedProposal);
      PlainThen(s, s1, Close(s1, p, DeclinedProposal), {});
    } else if WasRequeuedFrom(s, matchId, id, now) {
      var record := s.requeued[matchId].(ids := s.requeued[matchId].ids - {id});
      var s1 := s.(requeued := s.requeued[matchId := record]);
      ForgiveKeeps(s, matchId, record);
      assert s1.trace == s.trace + [];
      var queued, held := FindById(s.waiting, id), PendingOfId(s.pending, id);
      hide *;
      PlainIs(s, s1, []);
      if queued.Some? || held.Some? {
        var p := if queued.Some? then queued.value else FindById(held.value.game.participants, id).value;
        var s2 := Withdraw(s1, id, Declined, Declined, now).0;
        WithdrawPlain(s1, id, Declined, Declined, now);
        ClosePlain(s2, p, DeclinedProposal);
        PlainThen(s1, s2, Close(s2, p, DeclinedProposal), {});
        PlainThen(s, s1, Close(s2, p, DeclinedProposal), {});
      }
    }
  }

  // ---- handing over -----------------------------------------------------------------------------

  lemma HandleEffect(was: PoolState, s: PoolState, game: Match, env: Surroundings)
    requires Unique(Places(was)) && Plain(was, s, {})
    requires forall p :: p in game.participants ==> p in Places(was) && p !in Places(s)
    ensures Effect(was, Handle(s, game, env), env)
    ensures forall e :: e in News(was, Handle(s, game, env)) && e.FoundSent? ==>
              e.p in game.participants && (e.p.id in env.back ==> e.p in Handle(s, game, env).waiting)
  {
    hide Keep, Handle, Unique, Places, News, Inv;
    var after := Handle(s, game, env);
    HandleNews(s, game, env);
    HandlePlaces(s, game, env);
    NewsThen(was, s, after);
    KeepIn(game.participants, env.back);
  }

  lemma HandleNews(s: PoolState, game: Match, env: Surroundings)
    ensures var after := Handle(s, game, env);
            && s.trace <= after.trace
            && (forall e :: e in News(s, after) && e.FoundSent? ==> e.p in game.participants && e.p.id in env.told)
  {
    var founds := Founds(Keep(game.participants, env.told), game.id);
    var after := Handle(s, game, env);
    var more := [Handled(game, Keep(game.participants, env.back))] + founds;
    assert after.trace == s.trace + more && News(s, after) == more;
    KeepIn(game.participants, env.told);
    hide Handle, News, Keep;
    forall e | e in founds ensures e.p in game.participants && e.p.id in env.told {
      assert e.p in Keep(game.participants, env.told);
    }
  }

  lemma HandlePlaces(s: PoolState, game: Match, env: Surroundings)
    ensures var back, after := Keep(game.participants, env.back), Handle(s, game, env);
            && (forall p :: p in Places(after) <==> p in Places(s) || p in back)
            && (forall p :: p in back ==> p in after.waiting)
  {
    assert Places(Handle(s, game, env)) == Places(s) + multiset(Keep(game.participants, env.back));
  }

  lemma AcceptEffect(s: PoolState, matchId: nat, id: string, env: Surroundings)
    requires Inv(s)
    ensures Effect(s, Accept(s, matchId, id, env).0, env)
  {
    var live := LivePending(s, matchId, id, env.now);
    AcceptUnfolds(s, matchId, id, env);
    assert Plain(s, s, {}) && Books(s);
    if live.Some? {
      LiveIsPending(s, matchId, id, env.now);
      RecordKeepsPlaces(s.pending, matchId, id);
    }
    if live.Some? && !FullyAccepted(live.value.(accepted := live.value.accepted + {id})) {
      var after := s.(pending := Record(s.pending, matchId, id), trace := s.trace + [AcceptRecorded(matchId, id, env.now)]);
      assert Places(after) == Places(s);
      PlainIs(s, after, [AcceptRecorded(matchId, id, env.now)]);
      PlainEffect(s, after, env);
    }
    hide *;
    PlainEffect(s, s, env);
    if live.Some? && FullyAccepted(live.value.(accepted := live.value.accepted + {id})) {
      DetachPlain(s, live.value, id, env.now);
      HandleEffect(s, Detach(s, live.value, id, env.now), live.value.game, env);
    }
  }

  lemma DetachPlain(s: PoolState, pm: PendingMatch, id: string, now: int)
    requires Books(s) && pm in s.pending
    ensures Unique(Places(s)) && Plain(s, Detach(s, pm, id, now), {})
    ensures forall p :: p in pm.game.participants ==> p in Places(s) && p !in Places(Detach(s, pm, id, now))
  {
    var after := Detach(s, pm, id, now);
    var more := [AcceptRecorded(pm.game.id, id, now)] + Exits(pm.game.participants, MatchedHuman, now);
    DetachBooks(s, pm, id, now);
    assert after.trace == s.trace + more;
    NotFounds(pm.game.participants, [], MatchedHuman, now);
    PartOf(Places(after), multiset(pm.game.participants), Places(s));
    PlainIs(s, after, more);
    TakenAway(Places(s), multiset(pm.game.participants), Places(after));
    hide Places, Plain, Detach;
    forall p | p in pm.game.participants ensures p in Places(s) && p !in Places(after) {
      assert p in multiset(pm.game.participants);
    }
  }

  lemma TakenAway(was: multiset<Participant>, gone: multiset<Participant>, left: multiset<Participant>)
    requires Unique(was) && left + gone == was
    ensures forall p :: p in gone ==> p in was && p !in left
  {
    forall p | p in gone ensures p in was && p !in left {
      assert was[p] == left[p] + gone[p];
    }
  }

  // ---- starting matches -------------------------------------------------------------------------

  lemma ProposalsQuiet(s: PoolState, game: Match, now: int) returns (more: seq<Event>)
    ensures Propose(s, game, now).trace == s.trace + more && forall e :: e in more ==> !e.FoundSent?
  {
    more := [Proposed(game, now)] + Proposals(game.participants, game.id);
    hide OptedIn;
  }

  lemma InvBooks(s: PoolState)
    requires Inv(s)
    ensures Books(s) && Unique(Places(s))
  {
  }

  lemma ProposePlain(s: PoolState, game: Match, now: int)
    requires Inv(s) && Startable(s, game) && RequiresAcceptStep(game)
    ensures Plain(s, Propose(s, game, now), {})
  {
    hide *;
    InvBooks(s);
    ProposeBooks(s, game, now);
    var more := ProposalsQuiet(s, game, now);
    PlainIs(s, Propose(s, game, now), more);
  }

  lemma StartEffect(s: PoolState, game: Match, env: Surroundings)
    requires Inv(s) && Startable(s, game)
    ensures Effect(s, Start(s, game, env), env)
    ensures forall e :: e in News(s, Start(s, game, env)) && e.FoundSent? ==>
              e.p in game.participants && (e.p.id in env.back ==> e.p in Start(s, game, env).waiting)
  {
    StartIs(s, game, env);
    StartableParts(s, game);
    SeatIs(s, game, env);
    assert Unique(Places(s));
    if RequiresAcceptStep(game) {
      ProposePlain(s, game, env.now);
      PlainEffect(s, Propose(s, game, env.now), env);
    } else {
      var outcome := if game.opponentKind.Bot? then MatchedBot else MatchedHuman;
      var s1 := Leave(s, game.participants, outcome, env.now);
      hide *;
      LeavePlain(s, game.participants, outcome, env.now);
      LeaveKeeps(s, game.participants, outcome, env.now);
      StartableGone(s, game, s1);
      HandleEffect(s, s1, game, env);
    }
  }

  lemma StartableGone(s: PoolState, game: Match, s1: PoolState)
    requires Unique(Places(s)) && multiset(game.participants) <= multiset(s.waiting)
    requires Places(s1) == Places(s) - multiset(game.participants)
    ensures forall p :: p in game.participants ==> p in Places(s) && p !in Places(s1)
  {
    assert multiset(s.waiting) <= Places(s);
    assert Places(s1) + multiset(game.participants) == Places(s);
    TakenAway(Places(s), multiset(game.participants), Places(s1));
    forall p | p in game.participants ensures p in Places(s) && p !in Places(s1) {
      assert p in multiset(game.participants);
    }
  }

  lemma {:induction false} StartAllStays(s: PoolState, games: seq<Match>, env: Surroundings, p: Participant)
    requires Inv(s) && AllStartable(s, games) && p in s.waiting && p !in Everyone(games)
    ensures p in StartAll(s, games, env).waiting
    decreases |games|
  {
    if games != [] {
      var s1 := Start(s, games[0], env);
      StartAllUnfolds(s, games, env);
      RestStartable(s, games, env);
      EveryoneUnfolds(games);
      StartStays(s, games[0], env, p);
      hide *;
      StartKeeps(s, games[0], env);
      StartAllStays(s1, games[1..], env, p);
    }
  }

  lemma EveryoneUnfolds(games: seq<Match>)
    requires games != []
    ensures forall p :: p in Everyone(games) <==> p in games[0].participants || p in Everyone(games[1..])
  {
  }

  lemma StartStays(s: PoolState, game: Match, env: Surroundings, p: Participant)
    requires p in s.waiting && Inv(s) && Startable(s, game) && p !in game.participants
    ensures p in Start(s, game, env).waiting
  {
    StartParts(s, game, env);
    StartableUnique(s, game);
    DropIn(s.waiting, Ids(game.participants));
    if p.id in Ids(game.participants) {
      var q :| q in game.participants && q.id == p.id;
      SameIdSame(s.waiting, p, q);
    }
  }

  lemma {:induction false} StartAllEffect(s: PoolState, games: seq<Match>, env: Surroundings)
    requires Inv(s) && AllStartable(s, games)
    ensures Effect(s, StartAll(s, games, env), env)
    ensures forall e :: e in News(s, StartAll(s, games, env)) && e.FoundSent? ==>
              e.p in Everyone(games) && (e.p.id in env.back ==> e.p in StartAll(s, games, env).waiting)
    decreases |games|
  {
    if games == [] {
      assert News(s, s) == [];
    } else {
      var s1 := Start(s, games[0], env);
      var s2 := StartAll(s1, games[1..], env);
      StartAllUnfolds(s, games, env);
      RestStartable(s, games, env);
      EveryoneUnfolds(games);
      hide *;
      StartEffect(s, games[0], env);
      StartKeeps(s, games[0], env);
      StartAllEffect(s1, games[1..], env);
      FirstNotInRest(s, games);
      EffectTraces(s, s1, env);
      EffectTraces(s1, s2, env);
      NewsThen(s, s1, s2);
      forall e | e in News(s, s1) && e.FoundSent? && e.p.id in env.back ensures e.p in s2.waiting && e.p in Places(s2) {
        StartAllStays(s1, games[1..], env, e.p);
        WaitingHasPlace(s2, e.p);
      }
      EffectThen(s, s1, s2, env);
    }
  }

  lemma EffectTraces(s: PoolState, after: PoolState, env: Surroundings)
    requires Effect(s, after, env)
    ensures s.trace <= after.trace
  {
  }

  lemma FirstNotInRest(s: PoolState, games: seq<Match>)
    requires Inv(s) && AllStartable(s, games) && games != []
    ensures forall p :: p in games[0].participants ==> p !in Everyone(games[1..])
  {
    CrowdSplits(games);
    assert multiset(s.waiting) <= Places(s);
    SubUnique(multiset(Everyone(games)), Places(s));
    TakenAway(multiset(Everyone(games)), multiset(games[0].participants), multiset(Everyone(games[1..])));
    forall p | p in games[0].participants ensures p !in Everyone(games[1..]) {
      assert p in multiset(games[0].participants);
    }
  }

  // ---- a whole tick ---------------------------------------------------------------------------------

  /** The matches a key yields are drawn from the participants waiting under it. */
  lemma ChosenAreListed(s: PoolState, key: PoolKey, env: Surroundings)
    requires Inv(s)
    ensures forall p :: p in Everyone(Composite(env.policies, Listed(s.waiting, key), env.now, s.nextMatchId)) ==> p.Key() == key
  {
    var games := Composite(env.policies, Listed(s.waiting, key), env.now, s.nextMatchId);
    CandidatesUnique(s, key);
    CompositeIsDisjoint(env.policies, Listed(s.waiting, key), env.now, s.nextMatchId);
    ListedIn(s.waiting, key);
    hide *;
    PartMembers(Everyone(games), Listed(s.waiting, key));
  }

  lemma RenumberedEffect(s: PoolState, s1: PoolState, after: PoolState, env: Surroundings)
    requires s1 == s.(nextMatchId := s1.nextMatchId)
    ensures News(s1, after) == News(s, after) && (Effect(s1, after, env) ==> Effect(s, after, env))
  {
    assert Places(s1) == Places(s);
  }

  lemma PairKeyOpens(s: PoolState, key: PoolKey, env: Surroundings) returns (s1: PoolState, games: seq<Match>)
    requires Inv(s)
    ensures PairKey(s, key, env) == StartAll(s1, games, env) && Inv(s1) && AllStartable(s1, games)
    ensures s1 == s.(nextMatchId := s1.nextMatchId) && forall p :: p in Everyone(games) ==> p.Key() == key
  {
    hide *;
    games := Composite(env.policies, Listed(s.waiting, key), env.now, s.nextMatchId);
    s1 := s.(nextMatchId := s.nextMatchId + |games|);
    PairKeyUnfolds(s, key, env);
    NumberKeeps(s, |games|);
    ChosenStartable(s, key, env);
    ChosenAreListed(s, key, env);
  }

  lemma PairKeyEffect(s: PoolState, key: PoolKey, env: Surroundings)
    requires Inv(s)
    ensures Inv(PairKey(s, key, env)) && Effect(s, PairKey(s, key, env), env)
    ensures forall e :: e in News(s, PairKey(s, key, env)) && e.FoundSent? ==>
              e.p.Key() == key && (e.p.id in env.back ==> e.p in PairKey(s, key, env).waiting)
    ensures forall p :: p in s.waiting && p.Key() != key ==> p in PairKey(s, key, env).waiting
  {
    hide *;
    var s1, games := PairKeyOpens(s, key, env);
    var after := StartAll(s1, games, env);
    StartAllInv(s1, games, env);
    StartAllEffect(s1, games, env);
    RenumberedEffect(s, s1, after, env);
    forall p | p in s.waiting && p.Key() != key ensures p in after.waiting {
      StartAllStays(s1, games, env, p);
    }
  }

  lemma {:induction false} StartAllInv(s: PoolState, games: seq<Match>, env: Surroundings)
    requires Inv(s) && AllStartable(s, games)
    ensures Inv(StartAll(s, games, env))
    decreases |games|
  {
    if games != [] {
      StartAllUnfolds(s, games, env);
      RestStartable(s, games, env);
      hide *;
      StartKeeps(s, games[0], env);
      StartAllInv(Start(s, games[0], env), games[1..], env);
    }
  }

  lemma PairAllEffect(s: PoolState, env: Surroundings)
    requires Inv(s)
    ensures Inv(PairAll(s, env)) && Effect(s, PairAll(s, env), env)
  {
    var k0, k1, k2 := POOL_KEYS[0], POOL_KEYS[1], POOL_KEYS[2];
    var a := PairKey(s, k0, env);
    var b := PairKey(a, k1, env);
    var c := PairKey(b, k2, env);
    PairAllIs(s, env);
    assert k0 != k1 && k0 != k2 && k1 != k2;
    hide *;
    PairKeyEffect(s, k0, env);
    PairKeyEffect(a, k1, env);
    PairKeyEffect(b, k2, env);
    EffectTraces(s, a, env);
    EffectTraces(a, b, env);
    NewsThen(s, a, b);
    forall e | e in News(s, b) && e.FoundSent? && e.p.id in env.back ensures e.p in b.waiting && e.p in c.waiting {
    }
    forall p | p in b.waiting ensures p in Places(b) {
      WaitingHasPlace(b, p);
    }
    forall p | p in c.waiting ensures p in Places(c) {
      WaitingHasPlace(c, p);
    }
    EffectThen(s, a, b, env);
    EffectThen(s, b, c, env);
  }

  lemma SweepPlain(s: PoolState, env: Surroundings)
    requires Inv(s)
    ensures Plain(s, Sweep(s, env), {})
  {
    SweptArePart(s.waiting, DeadIds(s.waiting, env.dead));
    LeavePlain(s, Keep(ByKey(s.waiting), DeadIds(s.waiting, env.dead)), Expired, env.now);
  }

  lemma ResolveOnePlain(s: PoolState, pm: PendingMatch, env: Surroundings)
    requires Inv(s) && pm in s.pending
    ensures Plain(s, ResolveOne(s, pm, env), {})
  {
    var ps := pm.game.participants;
    var late := Drop(ps, pm.accepted);
    var s1 := Abandon(s, pm, Ids(late), AcceptTimeout, env.now);
    ResolveOneCases(s, pm, env);
    assert Plain(s, s, {});
    assert forall e :: e in Closes(late, AcceptTimedOut) ==> !e.FoundSent?;
    hide *;
    AbandonPlain(s, pm, DeadIds(ps, env.dead), Expired, env.now);
    AbandonPlain(s, pm, Ids(late), AcceptTimeout, env.now);
    TellPlain(s1, Closes(late, AcceptTimedOut));
    PlainThen(s, s1, s1.(trace := s1.trace + Closes(late, AcceptTimedOut)), {});
  }

  lemma {:induction false} ResolvePlain(s: PoolState, todo: seq<PendingMatch>, env: Surroundings)
    requires Inv(s) && Alive(s.waiting, env.dead) && ToResolve(s, todo)
    ensures Plain(s, Resolve(s, todo, env), {})
    decreases |todo|
  {
    if todo == [] {
      assert Plain(s, s, {});
    } else {
      var s1 := ResolveOne(s, todo[0], env);
      hide *;
      ResolveNext(s, todo, env);
      ResolveOnePlain(s, todo[0], env);
      ResolveOneKeeps(s, todo[0], env);
      ResolvePlain(s1, todo[1..], env);
      PlainThen(s, s1, Resolve(s1, todo[1..], env), {});
    }
  }

  lemma ForgetPlain(s: PoolState, now: int)
    ensures Plain(s, Forget(s, now), {})
  {
    assert Forget(s, now).trace == s.trace + [] && Places(Forget(s, now)) == Places(s);
    PlainIs(s, Forget(s, now), []);
  }

  lemma OpeningPlain(s: PoolState, env: Surroundings)
    requires Inv(s)
    ensures var s1 := Sweep(s, env);
            Plain(s, Forget(Resolve(s1, s1.pending, env), env.now), {})
  {
    var s1 := Sweep(s, env);
    SweepKeeps(s, env);
    InvDistinct(s1);
    assert ToResolve(s1, s1.pending);
    var s2 := Resolve(s1, s1.pending, env);
    hide *;
    SweepPlain(s, env);
    ResolvePlain(s1, s1.pending, env);
    PlainThen(s, s1, s2, {});
    ForgetPlain(s2, env.now);
    PlainThen(s, s2, Forget(s2, env.now), {});
  }

  lemma PublishPlain(s: PoolState, env: Surroundings)
    ensures Plain(s, Publish(s, env), {}) && Places(Publish(s, env)) == Places(s)
  {
    NotFounds([], ByKey(s.waiting), Expired, env.now);
    assert Exits([], Expired, env.now) + Statuses(ByKey(s.waiting), env.now) == Statuses(ByKey(s.waiting), env.now);
    hide ByKey, Statuses;
    TellPlain(s, Statuses(ByKey(s.waiting), env.now));
  }

  /** A tick tells only people who had a place, and whoever it told keeps one exactly when put back. */
  lemma TickEffect(s: PoolState, env: Surroundings)
    requires Inv(s)
    ensures Effect(s, Tick(s, env), env)
  {
    var s2 := TickOpens(s, env);
    var s3 := PairAll(s2, env);
    TickIs(s, env);
    hide *;
    OpeningPlain(s, env);
    PairAllEffect(s2, env);
    PlainThenEffect(s, s2, s3, env);
    PublishPlain(s3, env);
    SamePlacesThen(s, s3, Publish(s3, env), env);
  }

  lemma SamePlacesThen(s: PoolState, s1: PoolState, s2: PoolState, env: Surroundings)
    requires Effect(s, s1, env) && Plain(s1, s2, {}) && Places(s2) == Places(s1)
    ensures Effect(s, s2, env)
  {
    NewsThen(s, s1, s2);
  }
}
