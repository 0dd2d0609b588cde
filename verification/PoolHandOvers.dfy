/** Which matches a tick hands over and whom it tells of them, read off the pool before the tick. */
module PoolHandOvers {
  import opened Options
  import opened QueueEntry
  import opened Participants
  import opened Pairing
  import opened PoolModel
  import opened PoolBooks
  import opened PoolTrace
  import opened PoolInvariants
  import opened PoolTicks
  import opened PoolLoops
  import opened PoolEffects
  import opened PoolReasons

  /** The pool a tick pairs: swept, with its pending matches resolved and closed windows forgotten. */
  function Opened(s: PoolState, env: Surroundings): PoolState {
    var s1 := Sweep(s, env);
    Forget(Resolve(s1, s1.pending, env), env.now)
  }

  function GamesOf(s: PoolState, key: PoolKey, env: Surroundings, firstId: nat): seq<Match> {
    Composite(env.policies, Listed(s.waiting, key), env.now, firstId)
  }

  /** What the policies make of everyone waiting, key after key. */
  function Dealt(s: PoolState, env: Surroundings): seq<Match> {
    var g0 := GamesOf(s, POOL_KEYS[0], env, s.nextMatchId);
    var g1 := GamesOf(s, POOL_KEYS[1], env, s.nextMatchId + |g0|);
    g0 + g1 + GamesOf(s, POOL_KEYS[2], env, s.nextMatchId + |g0| + |g1|)
  }

  function Unasked(games: seq<Match>): seq<Match> {
    if games == [] then [] else (if RequiresAcceptStep(games[0]) then [] else [games[0]]) + Unasked(games[1..])
  }

  /** The matches a tick hands over at once: those of the deal in which nobody has to answer. */
  function TickGames(s: PoolState, env: Surroundings): seq<Match> {
    Unasked(Dealt(Opened(s, env), env))
  }

  /** The match an ACCEPT hands over, if it is the last answer that match waits for. */
  function AcceptGames(s: PoolState, matchId: nat, id: string, now: int): seq<Match> {
    var live := LivePending(s, matchId, id, now);
    if live.Some? && FullyAccepted(live.value.(accepted := live.value.accepted + {id})) then [live.value.game] else []
  }

  /** A FOUND that goes out when `games` are handed over. */
  ghost predicate TellsOf(games: seq<Match>, env: Surroundings, e: Event) {
    exists game :: game in games && e.FoundSent? && e.p in game.participants && e.p.id in env.told && e == FoundSent(e.p, game.id)
  }

  lemma {:induction false} UnaskedIn(games: seq<Match>, game: Match)
    ensures game in Unasked(games) <==> game in games && !RequiresAcceptStep(game)
  {
    if games != [] {
      assert games == [games[0]] + games[1..];
      hide RequiresAcceptStep;
      UnaskedIn(games[1..], game);
    }
  }

  lemma {:induction false} UnaskedJoin(a: seq<Match>, b: seq<Match>)
    ensures Unasked(a + b) == Unasked(a) + Unasked(b)
  {
    if a == [] {
      assert a + b == b;
    } else {
      assert (a + b)[0] == a[0] && (a + b)[1..] == a[1..] + b;
      hide RequiresAcceptStep;
      UnaskedJoin(a[1..], b);
    }
  }

  lemma FoundsSay(ps: seq<Participant>, matchId: nat)
    ensures forall e :: e in Founds(ps, matchId) <==> e.FoundSent? && e.p in ps && e == FoundSent(e.p, matchId)
  {
    forall e: Event | e.FoundSent? && e.p in ps && e == FoundSent(e.p, matchId) ensures e in Founds(ps, matchId) {
      var i :| 0 <= i < |ps| && ps[i] == e.p;
      assert Founds(ps, matchId)[i] == e;
    }
  }

  // ---- starting matches -------------------------------------------------------------------------

  lemma HandleTells(s: PoolState, game: Match, env: Surroundings, before: seq<Event>, after: seq<Event>, e: Event)
    requires after == before + [Handled(game, Keep(game.participants, env.back))] + Founds(Keep(game.participants, env.told), game.id)
    requires e.FoundSent? && e !in before
    ensures e in after <==> TellsOf([game], env, e)
  {
    hide Keep, Founds;
    FoundsSay(Keep(game.participants, env.told), game.id);
    KeepIn(game.participants, env.told);
    if TellsOf([game], env, e) {
      assert e in Founds(Keep(game.participants, env.told), game.id);
    }
    if e in after {
      assert game in [game];
    }
  }

  lemma StartFinds(s: PoolState, game: Match, env: Surroundings, e: Event)
    requires e.FoundSent?
    ensures s.trace <= Start(s, game, env).trace
    ensures e in News(s, Start(s, game, env)) <==> TellsOf(Unasked([game]), env, e)
  {
    StartIs(s, game, env);
    assert [game][1..] == [] && Unasked([]) == [];
    if RequiresAcceptStep(game) {
      ProposeIs(s, game, env.now);
      assert Propose(s, game, env.now).trace == s.trace + ([Proposed(game, env.now)] + Proposals(game.participants, game.id));
      hide Propose, News, RequiresAcceptStep, Start, OptedIn;
      NewsAre(s, Propose(s, game, env.now), [Proposed(game, env.now)] + Proposals(game.participants, game.id));
    } else {
      var exits := Exits(game.participants, Kind(game), env.now);
      var more := exits + [Handled(game, Keep(game.participants, env.back))] + Founds(Keep(game.participants, env.told), game.id);
      SeatTells(s, game, env);
      assert Unasked([game]) == [game];
      hide Seat, News, RequiresAcceptStep, Start, Keep, Founds, Unasked, TellsOf;
      NewsAre(s, Seat(s, game, env), more);
      HandleTells(s, game, env, exits, more, e);
    }
  }

  lemma {:induction false} StartAllFinds(s: PoolState, games: seq<Match>, env: Surroundings, e: Event)
    requires e.FoundSent?
    ensures s.trace <= StartAll(s, games, env).trace
    ensures e in News(s, StartAll(s, games, env)) <==> TellsOf(Unasked(games), env, e)
    decreases |games|
  {
    if games == [] {
      NewsAre(s, s, []);
      StartNothing(s, env);
    } else {
      var s1 := Start(s, games[0], env);
      StartAllUnfolds(s, games, env);
      assert games == [games[0]] + games[1..];
      hide *;
      StartFinds(s, games[0], env, e);
      StartAllFinds(s1, games[1..], env, e);
      NewsThen(s, s1, StartAll(s1, games[1..], env));
      UnaskedJoin([games[0]], games[1..]);
      TellsJoin(Unasked([games[0]]), Unasked(games[1..]), env, e);
    }
  }

  lemma TellsJoin(a: seq<Match>, b: seq<Match>, env: Surroundings, e: Event)
    ensures TellsOf(a + b, env, e) <==> TellsOf(a, env, e) || TellsOf(b, env, e)
  {
  }

  // ---- one key does not disturb another --------------------------------------------------------------

  lemma StartLeavesKey(s: PoolState, game: Match, env: Surroundings, other: PoolKey)
    requires Inv(s) && Startable(s, game) && forall p :: p in game.participants ==> p.Key() != other
    ensures Listed(Start(s, game, env).waiting, other) == Listed(s.waiting, other)
  {
    var ids := Ids(game.participants);
    var stay, back := Drop(s.waiting, ids), Keep(game.participants, env.back);
    StartParts(s, game, env);
    StartableUnique(s, game);
    KeepIn(game.participants, env.back);
    hide Inv, Startable, Keep, Drop, Start, Unique;
    ListedDrop(s.waiting, ids, other);
    ListedIn(s.waiting, other);
    forall p | p in Listed(s.waiting, other) ensures p.id !in ids {
      if p.id in ids {
        var q :| q in game.participants && q.id == p.id;
        SameIdSame(s.waiting, p, q);
      }
    }
    DropAll(Listed(s.waiting, other), ids);
    ListedAppend(stay, back, other);
    NobodyListed(back, other);
  }

  lemma {:induction false} NobodyListed(ps: seq<Participant>, key: PoolKey)
    requires forall p :: p in ps ==> p.Key() != key
    ensures Listed(ps, key) == []
  {
    if ps != [] {
      NobodyListed(ps[1..], key);
    }
  }

  lemma {:induction false} StartAllLeavesKey(s: PoolState, games: seq<Match>, env: Surroundings, other: PoolKey)
    requires Inv(s) && AllStartable(s, games) && forall p :: p in Everyone(games) ==> p.Key() != other
    ensures Listed(StartAll(s, games, env).waiting, other) == Listed(s.waiting, other)
    decreases |games|
  {
    if games == [] {
      StartNothing(s, env);
    } else {
      StartAllUnfolds(s, games, env);
      RestStartable(s, games, env);
      EveryoneUnfolds(games);
      hide *;
      StartKeeps(s, games[0], env);
      StartLeavesKey(s, games[0], env, other);
      StartAllLeavesKey(Start(s, games[0], env), games[1..], env, other);
    }
  }

  lemma {:induction false} StartAllNumbers(s: PoolState, games: seq<Match>, env: Surroundings)
    ensures StartAll(s, games, env).nextMatchId == s.nextMatchId
    decreases |games|
  {
    if games == [] {
      StartNothing(s, env);
    } else {
      StartAllUnfolds(s, games, env);
      StartParts(s, games[0], env);
      hide *;
      StartAllNumbers(Start(s, games[0], env), games[1..], env);
    }
  }

  lemma GamesAre(s: PoolState, key: PoolKey, env: Surroundings, firstId: nat)
    ensures GamesOf(s, key, env, firstId) == Composite(env.policies, Listed(s.waiting, key), env.now, firstId)
  {
  }

  lemma PairKeyStarts(s: PoolState, key: PoolKey, env: Surroundings) returns (s1: PoolState, games: seq<Match>)
    requires Inv(s)
    ensures games == GamesOf(s, key, env, s.nextMatchId) && s1 == s.(nextMatchId := s.nextMatchId + |games|)
    ensures PairKey(s, key, env) == StartAll(s1, games, env) && Inv(s1) && AllStartable(s1, games)
    ensures forall p :: p in Everyone(games) ==> p.Key() == key
  {
    hide *;
    games := GamesOf(s, key, env, s.nextMatchId);
    s1 := s.(nextMatchId := s.nextMatchId + |games|);
    GamesAre(s, key, env, s.nextMatchId);
    PairKeyUnfolds(s, key, env);
    NumberKeeps(s, |games|);
    ChosenStartable(s, key, env);
    ChosenAreListed(s, key, env);
  }

  /** Pairing a key tells whom its own deal says. */
  lemma PairKeyFinds(s: PoolState, key: PoolKey, env: Surroundings, e: Event)
    requires Inv(s) && e.FoundSent?
    ensures var games, after := GamesOf(s, key, env, s.nextMatchId), PairKey(s, key, env);
            s.trace <= after.trace && (e in News(s, after) <==> TellsOf(Unasked(games), env, e))
  {
    hide *;
    var s1, games := PairKeyStarts(s, key, env);
    StartAllFinds(s1, games, env, e);
    SameStart(s, s1, StartAll(s1, games, env));
  }

  /** Pairing a key leaves what the other keys will deal alone. */
  lemma PairKeyLeavesKeys(s: PoolState, key: PoolKey, env: Surroundings)
    requires Inv(s)
    ensures var after := PairKey(s, key, env);
            && Inv(after) && after.nextMatchId == s.nextMatchId + |GamesOf(s, key, env, s.nextMatchId)|
            && forall other: PoolKey :: other != key ==> Listed(after.waiting, other) == Listed(s.waiting, other)
  {
    hide *;
    var s1, games := PairKeyStarts(s, key, env);
    StartAllInv(s1, games, env);
    StartAllNumbers(s1, games, env);
    forall other: PoolKey | other != key
      ensures Listed(PairKey(s, key, env).waiting, other) == Listed(s.waiting, other)
    {
      StartAllLeavesKey(s1, games, env, other);
    }
  }

  lemma SameDeal(s: PoolState, s1: PoolState, key: PoolKey, env: Surroundings, firstId: nat)
    requires Listed(s1.waiting, key) == Listed(s.waiting, key)
    ensures GamesOf(s1, key, env, firstId) == GamesOf(s, key, env, firstId)
  {
  }

  lemma DealtIs(s: PoolState, env: Surroundings)
    ensures var g0 := GamesOf(s, POOL_KEYS[0], env, s.nextMatchId);
            var g1 := GamesOf(s, POOL_KEYS[1], env, s.nextMatchId + |g0|);
            Dealt(s, env) == g0 + g1 + GamesOf(s, POOL_KEYS[2], env, s.nextMatchId + |g0| + |g1|)
  {
  }

  lemma PairAllFinds(s: PoolState, env: Surroundings, e: Event)
    requires Inv(s) && e.FoundSent?
    ensures s.trace <= PairAll(s, env).trace
    ensures e in News(s, PairAll(s, env)) <==> TellsOf(Unasked(Dealt(s, env)), env, e)
  {
    hide *;
    var k0, k1, k2 := ThreeKeys();
    PairAllIs(s, env);
    DealtIs(s, env);
    ThreeKeysFind(s, k0, k1, k2, env, e);
  }

  lemma ThreeKeys() returns (k0: PoolKey, k1: PoolKey, k2: PoolKey)
    ensures k0 == POOL_KEYS[0] && k1 == POOL_KEYS[1] && k2 == POOL_KEYS[2]
    ensures k0 != k1 && k0 != k2 && k1 != k2
  {
    k0, k1, k2 := POOL_KEYS[0], POOL_KEYS[1], POOL_KEYS[2];
  }

  lemma ThreeKeysFind(s: PoolState, k0: PoolKey, k1: PoolKey, k2: PoolKey, env: Surroundings, e: Event)
    requires Inv(s) && e.FoundSent? && k0 != k1 && k0 != k2 && k1 != k2
    ensures var c := PairKey(PairKey(PairKey(s, k0, env), k1, env), k2, env);
            var g0 := GamesOf(s, k0, env, s.nextMatchId);
            var g1 := GamesOf(s, k1, env, s.nextMatchId + |g0|);
            var g2 := GamesOf(s, k2, env, s.nextMatchId + |g0| + |g1|);
            s.trace <= c.trace && (e in News(s, c) <==> TellsOf(Unasked(g0 + g1 + g2), env, e))
  {
    hide *;
    var a := PairKey(s, k0, env);
    var b := PairKey(a, k1, env);
    DealtAsItGoes(s, k0, k1, k2, env);
    PairKeyFinds(s, k0, env, e);
    PairKeyFinds(a, k1, env, e);
    PairKeyFinds(b, k2, env, e);
    NewsThen(s, a, b);
    NewsThen(s, b, PairKey(b, k2, env));
    var g0 := GamesOf(s, k0, env, s.nextMatchId);
    var g1 := GamesOf(s, k1, env, s.nextMatchId + |g0|);
    TellsJoinThree(g0, g1, GamesOf(s, k2, env, s.nextMatchId + |g0| + |g1|), env, e);
  }

  /** What the keys are dealt one after the other is what they are dealt at the start. */
  lemma DealtAsItGoes(s: PoolState, k0: PoolKey, k1: PoolKey, k2: PoolKey, env: Surroundings)
    requires Inv(s) && k0 != k1 && k0 != k2 && k1 != k2
    ensures var a := PairKey(s, k0, env);
            var b := PairKey(a, k1, env);
            var n0 := s.nextMatchId;
            var n1 := n0 + |GamesOf(s, k0, env, n0)|;
            var n2 := n1 + |GamesOf(s, k1, env, n1)|;
            && Inv(a) && Inv(b)
            && GamesOf(a, k1, env, a.nextMatchId) == GamesOf(s, k1, env, n1)
            && GamesOf(b, k2, env, b.nextMatchId) == GamesOf(s, k2, env, n2)
  {
    hide *;
    var a := PairKey(s, k0, env);
    SecondDeal(s, k0, k1, env, a.nextMatchId);
    var b := PairKey(a, k1, env);
    SecondDeal(a, k1, k2, env, b.nextMatchId);
    SecondDeal(s, k0, k2, env, b.nextMatchId);
  }

  /** Pairing a key first changes nothing about the deal of another but the ids it counts from. */
  lemma SecondDeal(s: PoolState, key: PoolKey, other: PoolKey, env: Surroundings, firstId: nat)
    requires Inv(s) && key != other
    ensures var after := PairKey(s, key, env);
            && Inv(after) && after.nextMatchId == s.nextMatchId + |GamesOf(s, key, env, s.nextMatchId)|
            && GamesOf(after, other, env, firstId) == GamesOf(s, other, env, firstId)
  {
    hide *;
    PairKeyLeavesKeys(s, key, env);
    SameDeal(s, PairKey(s, key, env), other, env, firstId);
  }

  lemma TellsJoinThree(g0: seq<Match>, g1: seq<Match>, g2: seq<Match>, env: Surroundings, e: Event)
    ensures TellsOf(Unasked(g0 + g1 + g2), env, e)
            <==> TellsOf(Unasked(g0), env, e) || TellsOf(Unasked(g1), env, e) || TellsOf(Unasked(g2), env, e)
  {
    hide *;
    UnaskedJoin(g0, g1);
    UnaskedJoin(g0 + g1, g2);
    TellsJoin(Unasked(g0), Unasked(g1), env, e);
    TellsJoin(Unasked(g0) + Unasked(g1), Unasked(g2), env, e);
  }

  // ---- the calls that hand over -------------------------------------------------------------------------

  lemma OpenedIs(s: PoolState, env: Surroundings)
    ensures var s1 := Sweep(s, env);
            Opened(s, env) == Forget(Resolve(s1, s1.pending, env), env.now)
  {
    hide Sweep, Resolve, Forget;
  }

  lemma TickGamesAre(s: PoolState, env: Surroundings)
    ensures TickGames(s, env) == Unasked(Dealt(Opened(s, env), env))
  {
    hide Opened, Dealt, Unasked;
  }

  /** A tick sends exactly the FOUNDs of the matches it hands over, to whom the handler tells. */
  lemma TickFinds(s: PoolState, env: Surroundings, e: Event)
    requires Inv(s) && e.FoundSent?
    ensures e in News(s, Tick(s, env)) <==> TellsOf(TickGames(s, env), env, e)
  {
    hide *;
    var s2 := TickOpens(s, env);
    var s3 := PairAll(s2, env);
    var s4 := Publish(s3, env);
    TickIs(s, env);
    OpenedIs(s, env);
    TickGamesAre(s, env);
    PublishIs(s3, env);
    OpeningPlain(s, env);
    PlainSays(s, s2, e);
    PairAllFinds(s2, env, e);
    var said := Statuses(ByKey(s3.waiting), env.now);
    NewsAre(s3, s4, said);
    StatusesSay(ByKey(s3.waiting), env.now, e);
    TraceGrows(s, s, s2, s3);
    NewsThen(s, s2, s3);
    NewsThen(s, s3, s4);
  }

  lemma PlainSays(s: PoolState, after: PoolState, e: Event)
    requires Plain(s, after, {}) && e.FoundSent?
    ensures s.trace <= after.trace && e !in News(s, after)
  {
  }

  lemma StatusesSay(ps: seq<Participant>, now: int, e: Event)
    requires e.FoundSent?
    ensures e !in Statuses(ps, now)
  {
  }

  /** An ACCEPT sends exactly the FOUNDs of the match it completes, to whom the handler tells. */
  lemma AcceptFinds(s: PoolState, matchId: nat, id: string, env: Surroundings, e: Event)
    requires e.FoundSent?
    ensures e in News(s, Accept(s, matchId, id, env).0) <==> TellsOf(AcceptGames(s, matchId, id, env.now), env, e)
  {
    var live := LivePending(s, matchId, id, env.now);
    AcceptUnfolds(s, matchId, id, env);
    if live.Some? && FullyAccepted(live.value.(accepted := live.value.accepted + {id})) {
      var game := live.value.game;
      var before := [AcceptRecorded(live.value.game.id, id, env.now)] + Exits(game.participants, MatchedHuman, env.now);
      var more := before + [Handled(game, Keep(game.participants, env.back))] + Founds(Keep(game.participants, env.told), game.id);
      assert Handle(Detach(s, live.value, id, env.now), game, env).trace == s.trace + more;
      hide Accept, News, LivePending, FullyAccepted, Handle, Detach, TellsOf, Keep, Founds;
      NewsAre(s, Accept(s, matchId, id, env).0, more);
      HandleTells(s, game, env, before, more, e);
    } else if live.Some? {
      hide Accept, News, LivePending, FullyAccepted;
      NewsAre(s, Accept(s, matchId, id, env).0, [AcceptRecorded(matchId, id, env.now)]);
    } else {
      hide Accept, News, LivePending;
      NewsAre(s, Accept(s, matchId, id, env).0, []);
    }
  }
}
