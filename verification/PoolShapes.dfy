/**
  What a match is that a tick starts: for one format and mode, with the opponents and the rating its kind asks
  for; and whom a tick asks about such a match.
 */
module PoolShapes {
  import opened Options
  import opened QueueEntry
  import opened Participants
  import opened Pairing
  import opened PoolModel
  import opened PoolBooks
  import opened PoolTrace
  import opened PoolInvariants
  import opened PoolTicks
  import opened PoolLoops
  import opened PoolEffects
  import opened PoolReasons
  import opened PoolNotices
  import opened PoolHandOvers

  /** Everyone in the match asked for its format and mode, and it is well formed. */
  ghost predicate Proper(game: Match, now: int) {
    && (forall p :: p in game.participants ==> p.format == game.format && p.mode == game.mode)
    && WellFormed(game, now)
  }

  /** The match was handed over by this call, or is held since. */
  ghost predicate Started(s: PoolState, after: PoolState, game: Match) {
    || (exists e :: e in News(s, after) && e.Handled? && e.game == game)
    || (exists pm :: pm in after.pending && pm !in s.pending && pm.game == game)
  }

  lemma StartStarts(s: PoolState, game: Match, env: Surroundings, other: Match)
    ensures s.trace <= Start(s, game, env).trace
    ensures Started(s, Start(s, game, env), other) ==> other == game
  {
    var after := Start(s, game, env);
    StartIs(s, game, env);
    if RequiresAcceptStep(game) {
      ProposeIs(s, game, env.now);
      HoldKeepsGame(game, env.now + MATCH_ACCEPT_TIMEOUT_MS);
      hide *;
      var more := [Proposed(game, env.now)] + Proposals(game.participants, game.id);
      NewsAre(s, after, more);
      OthersSayNothing(game.participants, game.id, env.now);
      NotHandled(more);
      StartedIs(s, after, other);
    } else {
      SeatTells(s, game, env);
      assert Seat(s, game, env).pending == s.pending;
      hide *;
      var exits, founds := Exits(game.participants, Kind(game), env.now), Founds(Keep(game.participants, env.told), game.id);
      var handed := [Handled(game, Keep(game.participants, env.back))];
      NewsAre(s, after, exits + handed + founds);
      OthersSayNothing(Keep(game.participants, env.told), game.id, env.now);
      ExitsSay(game.participants, Kind(game), env.now);
      NotHandled(founds);
      StartedIs(s, after, other);
    }
  }

  lemma StartedIs(s: PoolState, after: PoolState, game: Match)
    ensures Started(s, after, game) <==>
              || (exists e :: e in News(s, after) && e.Handled? && e.game == game)
              || (exists pm :: pm in after.pending && pm !in s.pending && pm.game == game)
  {
  }

  lemma NotHandled(events: seq<Event>)
    ensures (forall e :: e in events ==> !Notable(e)) ==> forall e :: e in events ==> !e.Handled?
  {
  }

  lemma StartedThen(s: PoolState, s1: PoolState, s2: PoolState, game: Match)
    requires s.trace <= s1.trace && s1.trace <= s2.trace && Started(s, s2, game)
    ensures s.trace <= s2.trace && (Started(s, s1, game) || Started(s1, s2, game))
  {
    NewsThen(s, s1, s2);
    hide News;
  }

  lemma {:induction false} StartAllStarts(s: PoolState, games: seq<Match>, env: Surroundings, game: Match)
    ensures s.trace <= StartAll(s, games, env).trace
    ensures Started(s, StartAll(s, games, env), game) ==> game in games
    decreases |games|
  {
    if games == [] {
      StartNothing(s, env);
      NewsAre(s, s, []);
    } else {
      var s1 := Start(s, games[0], env);
      var after := StartAll(s1, games[1..], env);
      hide *;
      StartAllUnfolds(s, games, env);
      StartStarts(s, games[0], env, game);
      StartAllStarts(s1, games[1..], env, game);
      if Started(s, after, game) {
        StartedThen(s, s1, after, game);
      }
    }
  }

  lemma ProperOfKey(s: PoolState, key: PoolKey, env: Surroundings, games: seq<Match>, game: Match)
    requires Inv(s) && games == GamesOf(s, key, env, s.nextMatchId) && game in games
    requires forall p :: p in Everyone(games) ==> p.Key() == key
    ensures Proper(game, env.now)
  {
    GamesAre(s, key, env, s.nextMatchId);
    CandidatesUnique(s, key);
    hide Inv, Composite, Listed, Unique, Everyone;
    CompositeShapes(env.policies, Listed(s.waiting, key), env.now, s.nextMatchId);
    forall p | p in game.participants ensures p.Key() == key {
      PoolRuns.InEveryone(games, game, p);
    }
    assert game.participants[0] in game.participants;
  }

  lemma PairKeyStartsProper(s: PoolState, key: PoolKey, env: Surroundings, game: Match)
    requires Inv(s)
    ensures s.trace <= PairKey(s, key, env).trace && Inv(PairKey(s, key, env))
    ensures Started(s, PairKey(s, key, env), game) ==> Proper(game, env.now)
  {
    hide *;
    PairKeyLeavesKeys(s, key, env);
    var s1, games := PairKeyStarts(s, key, env);
    StartAllStarts(s1, games, env, game);
    SameStarted(s, s1, StartAll(s1, games, env), game);
    if Started(s, PairKey(s, key, env), game) {
      ProperOfKey(s, key, env, games, game);
    }
  }

  lemma SameStarted(s: PoolState, s1: PoolState, after: PoolState, game: Match)
    requires s1 == s.(nextMatchId := s1.nextMatchId)
    ensures Started(s, after, game) <==> Started(s1, after, game)
  {
  }

  lemma PairAllStartsProper(s: PoolState, env: Surroundings, game: Match)
    requires Inv(s)
    ensures s.trace <= PairAll(s, env).trace
    ensures Started(s, PairAll(s, env), game) ==> Proper(game, env.now)
  {
    hide *;
    var k0, k1, k2 := ThreeKeys();
    PairAllIs(s, env);
    var a := PairKey(s, k0, env);
    var b := PairKey(a, k1, env);
    PairKeyStartsProper(s, k0, env, game);
    PairKeyStartsProper(a, k1, env, game);
    PairKeyStartsProper(b, k2, env, game);
    var c := PairKey(b, k2, env);
    TraceThen(s, a, b);
    TraceThen(s, b, c);
    if Started(s, c, game) {
      StartedThen(s, b, c, game);
      if Started(s, b, game) {
        StartedThen(s, a, b, game);
      }
    }
  }

  lemma TraceThen(s: PoolState, s1: PoolState, s2: PoolState)
    requires s.trace <= s1.trace && s1.trace <= s2.trace
    ensures s.trace <= s2.trace
  {
  }

  /**
    Every match a tick hands over or newly holds is for the one format and mode all of its participants asked
    for: two different users and rated, or one whose bot delay has passed and unrated.
   */
  lemma TickStartsProper(s: PoolState, env: Surroundings, game: Match)
    requires Inv(s) && Started(s, Tick(s, env), game)
    ensures Proper(game, env.now)
  {
    var s1 := Sweep(s, env);
    var s2 := TickOpens(s, env);
    assert s1.pending == s.pending && s2.pending == Resolve(s1, s1.pending, env).pending;
    assert Tick(s, env).pending == PairAll(s2, env).pending;
    hide *;
    var paired := TickSays(s, env);
    ResolveShrinks(s1, s1.pending, env);
    PairAllStartsProper(s2, env, game);
    StartedIs(s, Tick(s, env), game);
    StartedIs(s2, PairAll(s2, env), game);
    if e :| e in News(s, Tick(s, env)) && e.Handled? && e.game == game {
      HandedByPairing(s, env, e);
    }
  }

  lemma HandedByPairing(s: PoolState, env: Surroundings, e: Event)
    requires e.Handled?
    ensures Notable(e) && !SweptOut(s, env, e) && !AnyLetsOut(s.pending, env, e)
  {
  }

  // ---- who is asked -------------------------------------------------------------------------------------

  /** Whoever is sent a proposal opted in, and is in the match of that id that is proposed. */
  ghost predicate AsksRightly(s: PoolState, after: PoolState) {
    && s.trace <= after.trace
    && forall e :: e in News(s, after) && e.ProposalSent? ==>
         && e.p.supportsAcceptStep
         && exists g :: g in News(s, after) && g.Proposed? && g.game.id == e.matchId && e.p in g.game.participants
  }

  lemma AsksNobody(s: PoolState, after: PoolState, more: seq<Event>)
    requires after.trace == s.trace + more && forall e :: e in more ==> !e.ProposalSent?
    ensures AsksRightly(s, after)
  {
    NewsAre(s, after, more);
    hide News;
  }

  lemma AsksThen(s: PoolState, s1: PoolState, s2: PoolState)
    requires AsksRightly(s, s1) && AsksRightly(s1, s2)
    ensures AsksRightly(s, s2)
  {
    NewsThen(s, s1, s2);
    var a, b, c := News(s, s1), News(s1, s2), News(s, s2);
    hide News;
    forall e | e in c && e.ProposalSent?
      ensures e.p.supportsAcceptStep
      ensures exists g :: g in c && g.Proposed? && g.game.id == e.matchId && e.p in g.game.participants
    {
      if e in a {
        var g :| g in a && g.Proposed? && g.game.id == e.matchId && e.p in g.game.participants;
        assert g in c;
      } else {
        var g :| g in b && g.Proposed? && g.game.id == e.matchId && e.p in g.game.participants;
        assert g in c;
      }
    }
  }

  lemma StartAsksRightly(s: PoolState, game: Match, env: Surroundings)
    ensures AsksRightly(s, Start(s, game, env))
  {
    var after := Start(s, game, env);
    StartIs(s, game, env);
    if RequiresAcceptStep(game) {
      ProposeIs(s, game, env.now);
      OptedInIn(game.participants);
      hide Start, Propose, News, OptedIn, RequiresAcceptStep;
      var more := [Proposed(game, env.now)] + Proposals(game.participants, game.id);
      NewsAre(s, after, more);
      assert more[0] == Proposed(game, env.now);
      forall e | e in more && e.ProposalSent? ensures e.p.supportsAcceptStep && e.p in game.participants && e.matchId == game.id {
        assert e in Proposals(game.participants, game.id);
      }
    } else {
      SeatTells(s, game, env);
      hide Start, Seat, News, Keep, RequiresAcceptStep;
      AsksNobody(s, after, Exits(game.participants, Kind(game), env.now) + [Handled(game, Keep(game.participants, env.back))]
                           + Founds(Keep(game.participants, env.told), game.id));
    }
  }

  lemma {:induction false} StartAllAsksRightly(s: PoolState, games: seq<Match>, env: Surroundings)
    ensures AsksRightly(s, StartAll(s, games, env))
    decreases |games|
  {
    hide *;
    if games == [] {
      StartNothing(s, env);
      AsksNobody(s, s, []);
    } else {
      var s1 := Start(s, games[0], env);
      StartAllUnfolds(s, games, env);
      StartAsksRightly(s, games[0], env);
      StartAllAsksRightly(s1, games[1..], env);
      AsksThen(s, s1, StartAll(s1, games[1..], env));
    }
  }

  lemma SameAsks(s: PoolState, s1: PoolState, after: PoolState)
    requires s.trace == s1.trace
    ensures AsksRightly(s, after) <==> AsksRightly(s1, after)
  {
  }

  lemma PairKeyAsksRightly(s: PoolState, key: PoolKey, env: Surroundings)
    requires Inv(s)
    ensures AsksRightly(s, PairKey(s, key, env)) && Inv(PairKey(s, key, env))
  {
    hide *;
    PairKeyLeavesKeys(s, key, env);
    var s1, games := PairKeyStarts(s, key, env);
    StartAllAsksRightly(s1, games, env);
    SameAsks(s, s1, StartAll(s1, games, env));
  }

  lemma {:induction false} ResolveAsksRightly(s: PoolState, todo: seq<PendingMatch>, env: Surroundings)
    ensures AsksRightly(s, Resolve(s, todo, env))
    decreases |todo|
  {
    if todo == [] {
      AsksNobody(s, s, []);
    } else {
      var s1 := ResolveOne(s, todo[0], env);
      assert Resolve(s, todo, env) == Resolve(s1, todo[1..], env);
      hide *;
      ResolveOneAsksNobody(s, todo[0], env);
      ResolveAsksRightly(s1, todo[1..], env);
      AsksThen(s, s1, Resolve(s1, todo[1..], env));
    }
  }

  lemma ResolveOneAsksNobody(s: PoolState, pm: PendingMatch, env: Surroundings)
    ensures AsksRightly(s, ResolveOne(s, pm, env))
  {
    var ps := pm.game.participants;
    var gone, late := DeadIds(ps, env.dead), Drop(ps, pm.accepted);
    ResolveOneCases(s, pm, env);
    AbandonAsksNobody(s, pm, gone, Expired, env.now);
    AbandonAsksNobody(s, pm, Ids(late), AcceptTimeout, env.now);
    hide ResolveOne, Abandon, DeadIds, Drop, Ids;
    var s1 := Abandon(s, pm, Ids(late), AcceptTimeout, env.now);
    if gone == {} && env.now < pm.deadline {
      AsksNobody(s, s, []);
    } else if gone == {} {
      AsksNobody(s1, s1.(trace := s1.trace + Closes(late, AcceptTimedOut)), Closes(late, AcceptTimedOut));
      AsksThen(s, s1, s1.(trace := s1.trace + Closes(late, AcceptTimedOut)));
    }
  }

  lemma AbandonAsksNobody(s: PoolState, pm: PendingMatch, leaving: set<string>, outcome: Outcome, now: int)
    ensures AsksRightly(s, Abandon(s, pm, leaving, outcome, now))
  {
    AbandonTells(s, pm, leaving, outcome, now);
    hide Abandon, Keep, Drop;
    AsksNobody(s, Abandon(s, pm, leaving, outcome, now),
               Exits(Keep(pm.game.participants, leaving), outcome, now) + Statuses(Drop(pm.game.participants, leaving), now));
  }

  /** A tick asks nobody about a match but those in it who opted in, and only about a match it proposes. */
  lemma TickAsksRightly(s: PoolState, env: Surroundings)
    requires Inv(s)
    ensures AsksRightly(s, Tick(s, env))
  {
    var s1 := Sweep(s, env);
    var r := Resolve(s1, s1.pending, env);
    var s2 := TickOpens(s, env);
    var s3 := PairAll(s2, env);
    assert s2.trace == r.trace;
    var gone := Keep(ByKey(s.waiting), DeadIds(s.waiting, env.dead));
    LeaveTells(s, gone, Expired, env.now);
    assert s1.trace == s.trace + Exits(gone, Expired, env.now);
    ExitsAskNobody(gone, Expired, env.now, s3);
    hide *;
    TickIs(s, env);
    PublishIs(s3, env);
    AsksNobody(s, s1, Exits(gone, Expired, env.now));
    ResolveAsksRightly(s1, s1.pending, env);
    AsksThen(s, s1, r);
    PairAllAsksRightly(s2, env);
    SameAsks(r, s2, s3);
    AsksThen(s, r, s3);
    AsksNobody(s3, Publish(s3, env), Statuses(ByKey(s3.waiting), env.now));
    AsksThen(s, s3, Publish(s3, env));
  }

  lemma ExitsAskNobody(gone: seq<Participant>, outcome: Outcome, now: int, s: PoolState)
    ensures forall e :: e in Exits(gone, outcome, now) || e in Statuses(ByKey(s.waiting), now) ==> !e.ProposalSent?
  {
    hide ByKey;
  }

  lemma PairAllAsksRightly(s: PoolState, env: Surroundings)
    requires Inv(s)
    ensures AsksRightly(s, PairAll(s, env))
  {
    hide *;
    var k0, k1, k2 := ThreeKeys();
    PairAllIs(s, env);
    var a := PairKey(s, k0, env);
    var b := PairKey(a, k1, env);
    PairKeyAsksRightly(s, k0, env);
    PairKeyAsksRightly(a, k1, env);
    PairKeyAsksRightly(b, k2, env);
    AsksThen(s, a, b);
    AsksThen(s, b, PairKey(b, k2, env));
  }
}
