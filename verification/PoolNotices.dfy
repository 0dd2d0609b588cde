/** What a tick tells those it holds: proposals for the matches it newly holds, and a status for everyone waiting. */
module PoolNotices {
  import opened Options
  import opened QueueEntry
  import opened Participants
  import opened Pairing
  import opened PoolModel
  import opened PoolBooks
  import opened PoolTrace
  import opened PoolInvariants
  import opened PoolTicks
  import opened PoolLoops
  import opened PoolEffects
  import opened PoolRuns
  import opened PoolReasons

  /** A match held since this tick: its window is the whole one, and everyone who opted in was asked. */
  ghost predicate Asked(news: seq<Event>, pm: PendingMatch, env: Surroundings) {
    && pm == Hold(pm.game, env.now + MATCH_ACCEPT_TIMEOUT_MS)
    && Proposed(pm.game, env.now) in news
    && forall p :: p in pm.game.participants && p.supportsAcceptStep ==> ProposalSent(p, pm.game.id) in news
  }

  lemma StartAsks(s: PoolState, game: Match, env: Surroundings, pm: PendingMatch)
    requires pm in Start(s, game, env).pending
    ensures pm in s.pending || Asked(News(s, Start(s, game, env)), pm, env)
  {
    StartIs(s, game, env);
    if RequiresAcceptStep(game) {
      ProposeIs(s, game, env.now);
      hide Start, Propose, News, Seat;
      var more := [Proposed(game, env.now)] + Proposals(game.participants, game.id);
      NewsAre(s, Start(s, game, env), more);
      AsksAll(game);
      assert Proposed(game, env.now) in more;
      HoldKeepsGame(game, env.now + MATCH_ACCEPT_TIMEOUT_MS);
    } else {
      assert Seat(s, game, env).pending == s.pending;
    }
  }

  lemma AsksAll(game: Match)
    ensures forall p :: p in game.participants && p.supportsAcceptStep ==> ProposalSent(p, game.id) in Proposals(game.participants, game.id)
  {
    var asked := OptedIn(game.participants);
    OptedInIn(game.participants);
    hide OptedIn;
    forall p | p in game.participants && p.supportsAcceptStep ensures ProposalSent(p, game.id) in Proposals(game.participants, game.id) {
      var i :| 0 <= i < |asked| && asked[i] == p;
      assert Proposals(game.participants, game.id)[i] == ProposalSent(p, game.id);
    }
  }

  lemma AskedThen(s: PoolState, s1: PoolState, s2: PoolState, env: Surroundings, pm: PendingMatch)
    requires s.trace <= s1.trace && s1.trace <= s2.trace
    requires Asked(News(s, s1), pm, env) || Asked(News(s1, s2), pm, env)
    ensures Asked(News(s, s2), pm, env)
  {
    NewsThen(s, s1, s2);
    hide News, Hold;
  }

  lemma {:induction false} StartAllAsks(s: PoolState, games: seq<Match>, env: Surroundings, pm: PendingMatch)
    requires Inv(s) && AllStartable(s, games) && AliveEverywhere(s, env) && pm in StartAll(s, games, env).pending
    ensures pm in s.pending || Asked(News(s, StartAll(s, games, env)), pm, env)
    decreases |games|
  {
    if games == [] {
      StartNothing(s, env);
    } else {
      var s1 := Start(s, games[0], env);
      StartAllUnfolds(s, games, env);
      RestStartable(s, games, env);
      StillAlive(s, s1, games[0], env);
      assert Alive(s.waiting, env.dead);
      hide *;
      StartSeats(s, games[0], env);
      StartKeeps(s, games[0], env);
      StartAllSeats(s1, games[1..], env);
      StartAllAsks(s1, games[1..], env, pm);
      if pm in s1.pending {
        StartAsks(s, games[0], env, pm);
      }
      if pm !in s.pending {
        AskedThen(s, s1, StartAll(s1, games[1..], env), env, pm);
      }
    }
  }

  lemma PairKeyAsks(s: PoolState, key: PoolKey, env: Surroundings, pm: PendingMatch)
    requires Inv(s) && AliveEverywhere(s, env) && pm in PairKey(s, key, env).pending
    ensures pm in s.pending || Asked(News(s, PairKey(s, key, env)), pm, env)
  {
    hide *;
    var s1, games := PairKeyOpens(s, key, env);
    SameCrowd(s, s1, env);
    StartAllAsks(s1, games, env, pm);
    SameStart(s, s1, StartAll(s1, games, env));
  }

  lemma PairAllAsks(s: PoolState, env: Surroundings, pm: PendingMatch)
    requires Inv(s) && AliveEverywhere(s, env) && pm in PairAll(s, env).pending
    ensures pm in s.pending || Asked(News(s, PairAll(s, env)), pm, env)
  {
    var k0, k1, k2 := POOL_KEYS[0], POOL_KEYS[1], POOL_KEYS[2];
    var a := PairKey(s, k0, env);
    var b := PairKey(a, k1, env);
    var c := PairKey(b, k2, env);
    PairAllIs(s, env);
    hide *;
    PairKeySeats(s, k0, env);
    PairKeySeats(a, k1, env);
    PairKeySeats(b, k2, env);
    SeatsThen(s, a, b, env);
    PairKeyAsks(b, k2, env, pm);
    if pm in b.pending {
      PairKeyAsks(a, k1, env, pm);
      if pm in a.pending {
        PairKeyAsks(s, k0, env, pm);
      }
    }
    if pm !in s.pending {
      if pm in b.pending {
        AskedThen(s, a, b, env, pm);
      }
      AskedThen(s, b, c, env, pm);
    }
  }

  lemma {:induction false} ResolveShrinks(s: PoolState, todo: seq<PendingMatch>, env: Surroundings)
    ensures forall pm :: pm in Resolve(s, todo, env).pending ==> pm in s.pending
    decreases |todo|
  {
    if todo != [] {
      var s1 := ResolveOne(s, todo[0], env);
      assert Resolve(s, todo, env) == Resolve(s1, todo[1..], env);
      ResolveOneCases(s, todo[0], env);
      WithoutMatchIn(s.pending, todo[0].game.id);
      hide ResolveOne, Resolve, Abandon, WithoutMatch;
      ResolveShrinks(s1, todo[1..], env);
    }
  }

  /** Every match a tick newly holds was proposed to everyone who opted in, for the whole accept window. */
  lemma TickAsks(s: PoolState, env: Surroundings, pm: PendingMatch)
    requires Inv(s) && pm in Tick(s, env).pending && pm !in s.pending
    ensures Asked(News(s, Tick(s, env)), pm, env)
  {
    var s1 := Sweep(s, env);
    var s2 := TickOpens(s, env);
    var s3 := PairAll(s2, env);
    var s4 := Publish(s3, env);
    TickIs(s, env);
    PublishIs(s3, env);
    SweepKeeps(s, env);
    ResolveShrinks(s1, s1.pending, env);
    assert s2.pending == Resolve(s1, s1.pending, env).pending && AliveEverywhere(s2, env);
    hide *;
    OpeningPlain(s, env);
    PlainHolds(s, s2);
    PairAllSeats(s2, env);
    PairAllAsks(s2, env, pm);
    NewsAre(s3, s4, Statuses(ByKey(s3.waiting), env.now));
    AskedThen(s2, s3, s4, env, pm);
    TraceGrows(s2, s2, s3, s4);
    AskedThen(s, s2, s4, env, pm);
  }

  /** Everyone waiting after a tick was told during it how long it has waited. */
  lemma TickPublishes(s: PoolState, env: Surroundings, p: Participant)
    requires Inv(s) && p in Tick(s, env).waiting
    ensures StatusSent(p, env.now - p.enqueuedAt) in News(s, Tick(s, env))
  {
    var s2 := TickOpens(s, env);
    var s3 := PairAll(s2, env);
    var s4 := Publish(s3, env);
    TickIs(s, env);
    assert AliveEverywhere(s2, env);
    hide *;
    OpeningPlain(s, env);
    PlainHolds(s, s2);
    PairAllSeats(s2, env);
    PublishTells(s3, env, p);
    TraceGrows(s, s, s2, s3);
    NewsThen(s, s3, s4);
  }

  /** The trace ends with a status for each of these, in this order, with the time each has waited. */
  ghost predicate EndsTelling(trace: seq<Event>, told: seq<Participant>, now: int) {
    && |told| <= |trace|
    && forall i :: 0 <= i < |told| ==> trace[|trace| - |told| + i] == StatusSent(told[i], now - told[i].enqueuedAt)
  }

  /** The last thing a tick does is to tell exactly those who now wait, each once. */
  lemma TickEndsWithStatuses(s: PoolState, env: Surroundings) returns (told: seq<Participant>)
    requires Inv(s)
    ensures multiset(told) == multiset(Tick(s, env).waiting) && |s.trace| + |told| <= |Tick(s, env).trace|
    ensures EndsTelling(Tick(s, env).trace, told, env.now)
  {
    var s2 := TickOpens(s, env);
    var s3 := PairAll(s2, env);
    assert AliveEverywhere(s2, env);
    hide *;
    told := ByKey(s3.waiting);
    TickIs(s, env);
    PublishIs(s3, env);
    OpeningPlain(s, env);
    PlainHolds(s, s2);
    PairAllSeats(s2, env);
    ByKeyIsPermutation(s3.waiting);
    StatusesAtEnd(s3.trace, told, env.now);
  }

  lemma StatusesAtEnd(trace: seq<Event>, told: seq<Participant>, now: int)
    ensures |trace + Statuses(told, now)| == |trace| + |told| && EndsTelling(trace + Statuses(told, now), told, now)
  {
  }

  lemma PublishTells(s: PoolState, env: Surroundings, p: Participant)
    requires p in Publish(s, env).waiting
    ensures s.trace <= Publish(s, env).trace && StatusSent(p, env.now - p.enqueuedAt) in News(s, Publish(s, env))
  {
    PublishIs(s, env);
    ByKeyIn(s.waiting);
    hide *;
    StatusIn(ByKey(s.waiting), p, env.now);
    NewsAre(s, Publish(s, env), Statuses(ByKey(s.waiting), env.now));
  }

  lemma StatusIn(ps: seq<Participant>, p: Participant, now: int)
    ensures p in ps ==> StatusSent(p, now - p.enqueuedAt) in Statuses(ps, now)
  {
    if p in ps {
      var i :| 0 <= i < |ps| && ps[i] == p;
      assert Statuses(ps, now)[i] == StatusSent(p, now - p.enqueuedAt);
    }
  }

  // ---- who goes back is told so -------------------------------------------------------------------------

  /** Whoever waits after the call but not before it came out of a pending match and was told how long it has waited. */
  ghost predicate TellsReturners(s: PoolState, after: PoolState, now: int) {
    && s.trace <= after.trace
    && forall p :: p in after.waiting && p !in s.waiting ==> StatusSent(p, now - p.enqueuedAt) in News(s, after)
  }

  lemma AbandonTellsReturners(s: PoolState, pm: PendingMatch, leaving: set<string>, outcome: Outcome, now: int)
    ensures TellsReturners(s, Abandon(s, pm, leaving, outcome, now), now)
  {
    var after := Abandon(s, pm, leaving, outcome, now);
    var gone, stay := Keep(pm.game.participants, leaving), Drop(pm.game.participants, leaving);
    assert after.waiting == s.waiting + stay;
    AbandonTells(s, pm, leaving, outcome, now);
    hide Abandon, Keep, Drop, News, Exits;
    NewsAre(s, after, Exits(gone, outcome, now) + Statuses(stay, now));
    forall p | p in stay ensures StatusSent(p, now - p.enqueuedAt) in Statuses(stay, now) {
      var i :| 0 <= i < |stay| && stay[i] == p;
      assert Statuses(stay, now)[i] == StatusSent(p, now - p.enqueuedAt);
    }
  }

  lemma LeaveTellsReturners(s: PoolState, ps: seq<Participant>, outcome: Outcome, now: int)
    ensures TellsReturners(s, Leave(s, ps, outcome, now), now)
  {
    DropIn(s.waiting, Ids(ps));
    hide Drop, Exits, Ids;
  }

  lemma NothingTellsReturners(s: PoolState, after: PoolState, now: int)
    requires s.trace == after.trace && s.waiting == after.waiting
    ensures TellsReturners(s, after, now)
  {
  }

  lemma CloseTellsReturners(s: PoolState, s1: PoolState, p: Participant, reason: CloseReason, now: int)
    requires TellsReturners(s, s1, now)
    ensures TellsReturners(s, Close(s1, p, reason), now)
  {
    assert Close(s1, p, reason).waiting == s1.waiting;
    hide Close, News;
    forall e: Event ensures s.trace <= Close(s1, p, reason).trace
                    ensures e in News(s, s1) ==> e in News(s, Close(s1, p, reason)) {
      CloseSays(s, s1, p, reason, e);
    }
  }

  lemma WithdrawTellsReturners(s: PoolState, id: string, fromStore: Outcome, fromPending: Outcome, now: int)
    ensures TellsReturners(s, Withdraw(s, id, fromStore, fromPending, now).0, now)
  {
    var queued, held := FindById(s.waiting, id), PendingOfId(s.pending, id);
    hide *;
    WithdrawCases(s, id, fromStore, fromPending, now);
    if queued.Some? {
      LeaveTellsReturners(s, [queued.value], fromStore, now);
    } else if held.Some? {
      AbandonTellsReturners(s, held.value, {id}, fromPending, now);
    } else {
      NothingTellsReturners(s, s, now);
    }
  }

  lemma DeclineTellsReturners(s: PoolState, matchId: nat, id: string, now: int)
    ensures TellsReturners(s, Decline(s, matchId, id, now).0, now)
  {
    var live := LivePending(s, matchId, id, now);
    var queued, held := FindById(s.waiting, id), PendingOfId(s.pending, id);
    if live.Some? {
      LiveIsPending(s, matchId, id, now);
    }
    RequeuedMeans(s, matchId, id, now);
    hide *;
    DeclineCases(s, matchId, id, now);
    if live.Some? {
      AbandonTellsReturners(s, live.value, {id}, Outcome.Declined, now);
      CloseTellsReturners(s, Abandon(s, live.value, {id}, Outcome.Declined, now), FindById(live.value.game.participants, id).value,
                          DeclinedProposal, now);
    } else if !WasRequeuedFrom(s, matchId, id, now) {
      NothingTellsReturners(s, s, now);
    } else {
      var s1 := s.(requeued := s.requeued[matchId := s.requeued[matchId].(ids := s.requeued[matchId].ids - {id})]);
      if queued.None? && held.None? {
        NothingTellsReturners(s, s1, now);
      } else {
        var p := if queued.Some? then queued.value else FindById(held.value.game.participants, id).value;
        var s2 := Withdraw(s1, id, Outcome.Declined, Outcome.Declined, now).0;
        WithdrawTellsReturners(s1, id, Outcome.Declined, Outcome.Declined, now);
        CloseTellsReturners(s1, s2, p, DeclinedProposal, now);
        SameReturners(s, s1, Close(s2, p, DeclinedProposal), now);
      }
    }
  }

  lemma SameReturners(s: PoolState, s1: PoolState, after: PoolState, now: int)
    requires s.trace == s1.trace && s.waiting == s1.waiting
    ensures TellsReturners(s, after, now) <==> TellsReturners(s1, after, now)
  {
  }

  /** The arrival itself is the one newcomer an add does not tell. */
  lemma AddTellsReturners(s: PoolState, q: Participant, now: int)
    ensures var after := Add(s, q, now).0;
            && s.trace <= after.trace
            && forall p :: p in after.waiting && p !in s.waiting && p != q ==> StatusSent(p, now - p.enqueuedAt) in News(s, after)
  {
    var queued, held := FindByUser(s.waiting, q.userId), PendingOfUser(s.pending, q.userId);
    hide *;
    AddCases(s, q, now);
    if queued.None? && held.None? {
      NothingTellsReturners(s, s, now);
      BackAdds(s, s, q, now);
    } else if q.presence.Poll? {
      NothingTellsReturners(s, s, now);
      BackAdds(s, s, q, now);
      TellsReturnersIs(s, s, now);
    } else if queued.Some? {
      var s1 := Leave(s, [queued.value], Replaced, now);
      LeaveTellsReturners(s, [queued.value], Replaced, now);
      CloseTellsReturners(s, s1, queued.value, ReplacedByNewConnection, now);
      BackAdds(s, Close(s1, queued.value, ReplacedByNewConnection), q, now);
    } else {
      var e := FindByUser(held.value.game.participants, q.userId).value;
      var s1 := Abandon(s, held.value, {e.id}, Replaced, now);
      AbandonTellsReturners(s, held.value, {e.id}, Replaced, now);
      CloseTellsReturners(s, s1, e, ReplacedByNewConnection, now);
      BackAdds(s, Close(s1, e, ReplacedByNewConnection), q, now);
    }
  }

  lemma TellsReturnersIs(s: PoolState, after: PoolState, now: int)
    requires TellsReturners(s, after, now)
    ensures s.trace <= after.trace
    ensures forall p :: p in after.waiting && p !in s.waiting ==> StatusSent(p, now - p.enqueuedAt) in News(s, after)
  {
  }

  lemma BackAdds(s: PoolState, s1: PoolState, q: Participant, now: int)
    requires TellsReturners(s, s1, now)
    ensures var after := PoolReturns.Back(s1, q);
            && s.trace <= after.trace
            && forall p :: p in after.waiting && p !in s.waiting && p != q ==> StatusSent(p, now - p.enqueuedAt) in News(s, after)
  {
    assert PoolReturns.Back(s1, q).trace == s1.trace;
    hide News;
    assert News(s, PoolReturns.Back(s1, q)) == News(s, s1) by {
      SameNews(s, s1, PoolReturns.Back(s1, q));
    }
  }

  lemma SameNews(s: PoolState, s1: PoolState, s2: PoolState)
    requires s1.trace == s2.trace
    ensures News(s, s1) == News(s, s2)
  {
  }

  /**
    Whoever an arrival, a withdrawal, a dequeue or a decline puts back in the store is told by that very call how
    long it has waited.
   */
  lemma ReturnersAreTold(s: PoolState, m: Moment, p: Participant)
    requires !m.call.AcceptCall? && !m.call.TickCall? && m.call != AddCall(p)
    requires p in Step(s, m).waiting && p !in s.waiting
    ensures StatusSent(p, m.env.now - p.enqueuedAt) in News(s, Step(s, m))
  {
    var now := m.env.now;
    hide Add, Withdraw, Decline, News;
    match m.call {
      case AddCall(q) => AddTellsReturners(s, q, now);
      case RemoveCall(id) => WithdrawTellsReturners(s, id, Cancelled, Cancelled, now);
      case DequeueCall(id) => WithdrawTellsReturners(s, id, Dequeued, Outcome.Declined, now);
      case DeclineCall(matchId, id) => DeclineTellsReturners(s, matchId, id, now);
    }
  }
}
