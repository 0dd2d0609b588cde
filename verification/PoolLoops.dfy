/**
  The steps of the pool's loops, and its operations unfolded one level: what each method of the pool
  needs to know about the specification functions while it updates the store, the pending book and
  the trace one participant at a time.
 */
module PoolLoops {
  import opened Options
  import opened QueueEntry
  import opened Participants
  import opened Pairing
  import opened PoolModel
  import opened PoolBooks
  import opened PoolTrace
  import opened PoolInvariants
  import opened PoolTicks
  import opened PoolReturns
  import PoolRuns

  // ---- leaving one after the other ---------------------------------------------------------

  lemma LeaveAgain(s: PoolState, a: seq<Participant>, p: Participant, outcome: Outcome, now: int)
    ensures Leave(Leave(s, a, outcome, now), [p], outcome, now) == Leave(s, a + [p], outcome, now)
  {
    DropTwice(s.waiting, Ids(a), Ids([p]));
    PoolRuns.IdsJoin(a, [p]);
    assert Exits(a + [p], outcome, now) == Exits(a, outcome, now) + Exits([p], outcome, now);
    assert s.trace + Exits(a, outcome, now) + Exits([p], outcome, now) == s.trace + Exits(a + [p], outcome, now);
    hide Drop, Ids, Exits;
  }

  lemma LeaveNobody(s: PoolState, outcome: Outcome, now: int)
    ensures Leave(s, [], outcome, now) == s
  {
    DropAll(s.waiting, {});
    assert Ids([]) == {};
    assert s.trace + Exits([], outcome, now) == s.trace;
  }

  lemma LeaveOne(s: PoolState, p: Participant, outcome: Outcome, now: int)
    ensures Leave(s, [p], outcome, now) ==
            s.(waiting := Drop(s.waiting, Ids([p])), trace := s.trace + [Exited(p, outcome, now - p.enqueuedAt)])
  {
    assert Exits([p], outcome, now) == [Exited(p, outcome, now - p.enqueuedAt)];
  }

  /** The three things `add` may do. */
  lemma AddCases(s: PoolState, p: Participant, now: int)
    ensures var queued, held := FindByUser(s.waiting, p.userId), PendingOfUser(s.pending, p.userId);
            if queued.None? && held.None? then
              PoolModel.Add(s, p, now) == (Back(s, p), Stored(false))
            else if p.presence.Poll? then
              PoolModel.Add(s, p, now) == (s, DuplicateEntry)
            else if queued.Some? then
              PoolModel.Add(s, p, now) ==
              (Back(Close(Leave(s, [queued.value], Replaced, now), queued.value, ReplacedByNewConnection), p), Stored(true))
            else
              var e := FindByUser(held.value.game.participants, p.userId).value;
              PoolModel.Add(s, p, now) ==
              (Back(Close(PoolModel.Abandon(s, held.value, {e.id}, Replaced, now), e, ReplacedByNewConnection), p), Stored(true))
  {
    hide PoolModel.Abandon, Leave, FindByUser, PendingOfUser;
  }

  // ---- facts the methods lean on -------------------------------------------------------------------

  /** The leavers of an abandoned match, listed in the match's own order. */
  ghost predicate Leavers(pm: PendingMatch, leaving: seq<Participant>) {
    Keep(pm.game.participants, Ids(leaving)) == leaving
  }

  lemma OneLeaver(s: PoolState, pm: PendingMatch, p: Participant)
    requires Books(s) && pm in s.pending && p in pm.game.participants
    ensures Leavers(pm, [p]) && Ids([p]) == {p.id}
  {
    GameUnique(s, pm);
    KeepOne(pm.game.participants, p);
    JustOne(pm.game.participants, p);
    var kept := Keep(pm.game.participants, {p.id});
    assert multiset(kept) == multiset([p]);
    SingletonFromMultiset(kept, [p]);
  }

  lemma FewerPending(book: seq<PendingMatch>, pm: PendingMatch)
    requires pm in book
    ensures |WithoutMatch(book, pm.game.id)| < |book|
  {
    if book[0].game.id == pm.game.id {
      NotMorePending(book[1..], pm.game.id);
    } else {
      assert pm in book[1..];
      FewerPending(book[1..], pm);
    }
  }

  lemma NotMorePending(book: seq<PendingMatch>, id: nat)
    ensures |WithoutMatch(book, id)| <= |book|
  {
  }

  lemma StoredIsUnique(s: PoolState, p: Participant)
    requires Inv(Back(s, p))
    ensures Unique(multiset(s.waiting + [p]))
  {
    var after := Back(s, p);
    assert multiset(after.waiting) <= Places(after);
    SubUnique(multiset(after.waiting), Places(after));
  }

  /** Everyone in the match who is not leaving. */
  method Others(pm: PendingMatch, leaving: seq<Participant>) returns (others: seq<Participant>)
    requires Leavers(pm, leaving)
    ensures others == Drop(pm.game.participants, Ids(leaving))
  {
    var ps := pm.game.participants;
    others := [];
    LeaversAreNamed(pm, leaving);
    hide Leavers, Ids, Keep, Drop;
    assert ps[..0] == [];
    DropAll([], Ids(leaving));
    for i := 0 to |ps|
      invariant others == Drop(ps[..i], Ids(leaving))
    {
      DropNext(ps, i, Ids(leaving));
      assert ps[i] in ps;
      if ps[i] !in leaving {
        others := others + [ps[i]];
      }
    }
    assert ps[..|ps|] == ps;
  }

  lemma DropNext(ps: seq<Participant>, i: nat, ids: set<string>)
    requires i < |ps|
    ensures Drop(ps[..i + 1], ids) == if ps[i].id in ids then Drop(ps[..i], ids) else Drop(ps[..i], ids) + [ps[i]]
  {
    assert ps[..i + 1] == ps[..i] + [ps[i]];
    DropAppend(ps[..i], [ps[i]], ids);
    assert [ps[i]][1..] == [];
  }

  lemma LeaversAreNamed(pm: PendingMatch, leaving: seq<Participant>)
    requires Leavers(pm, leaving)
    ensures forall p :: p in pm.game.participants ==> (p in leaving <==> p.id in Ids(leaving))
  {
    KeepIn(pm.game.participants, Ids(leaving));
  }

  lemma ExitsNone(trace: seq<Event>, outcome: Outcome, now: int)
    ensures trace + Exits([], outcome, now) == trace
  {
  }

  lemma ExitsSoFar(trace: seq<Event>, ps: seq<Participant>, i: nat, outcome: Outcome, now: int)
    requires i < |ps|
    ensures trace + Exits(ps[..i], outcome, now) + [Exited(ps[i], outcome, now - ps[i].enqueuedAt)]
            == trace + Exits(ps[..i + 1], outcome, now)
  {
  }

  /** The pool once some of an abandoned match's participants are back in. */
  function Returned(s1: PoolState, ps: seq<Participant>, now: int): PoolState {
    s1.(waiting := s1.waiting + ps, trace := s1.trace + Statuses(ps, now))
  }

  lemma ReturnedNone(s1: PoolState, now: int)
    ensures Returned(s1, [], now) == s1
  {
    assert s1.waiting + [] == s1.waiting && s1.trace + Statuses([], now) == s1.trace;
  }

  lemma ReturnedSoFar(s1: PoolState, requeued: seq<Participant>, i: nat, now: int)
    requires i < |requeued|
    ensures Told(Back(Returned(s1, requeued[..i], now), requeued[i]), requeued[i], now) == Returned(s1, requeued[..i + 1], now)
  {
    assert s1.waiting + requeued[..i] + [requeued[i]] == s1.waiting + requeued[..i + 1];
    assert s1.trace + Statuses(requeued[..i], now) + [StatusSent(requeued[i], now - requeued[i].enqueuedAt)]
           == s1.trace + Statuses(requeued[..i + 1], now);
  }

  function Rejoined(s: PoolState, ps: seq<Participant>): PoolState {
    s.(waiting := s.waiting + ps)
  }

  lemma RejoinedNone(s: PoolState)
    ensures Rejoined(s, []) == s
  {
    assert s.waiting + [] == s.waiting;
  }

  lemma RejoinedSoFar(s: PoolState, ps: seq<Participant>, i: nat)
    requires i < |ps|
    ensures Back(Rejoined(s, ps[..i]), ps[i]) == Rejoined(s, ps[..i + 1])
  {
    assert s.waiting + ps[..i] + [ps[i]] == s.waiting + ps[..i + 1];
  }

  lemma AbandonOpensIs(s: PoolState, pm: PendingMatch, leaving: seq<Participant>, outcome: Outcome, now: int)
    requires Leavers(pm, leaving)
    ensures var stay := Drop(pm.game.participants, Ids(leaving));
            AbandonOpens(s, pm, Ids(leaving), outcome, now) ==
            PoolState(s.waiting, WithoutMatch(s.pending, pm.game.id),
                      if |stay| > 0 then s.requeued[pm.game.id := Requeue(Ids(stay), pm.deadline)] else s.requeued,
                      s.nextMatchId, s.trace + Exits(leaving, outcome, now))
  {
    hide WithoutMatch, Drop, Ids, Keep, Exits;
  }

  lemma AbandonCloses(s: PoolState, pm: PendingMatch, leaving: set<string>, outcome: Outcome, now: int)
    ensures PoolModel.Abandon(s, pm, leaving, outcome, now)
            == Returned(AbandonOpens(s, pm, leaving, outcome, now), Drop(pm.game.participants, leaving), now)
  {
  }

  lemma WithdrawCases(s: PoolState, id: string, fromStore: Outcome, fromPending: Outcome, now: int)
    ensures var queued, held := FindById(s.waiting, id), PendingOfId(s.pending, id);
            PoolModel.Withdraw(s, id, fromStore, fromPending, now) ==
            if queued.Some? then (Leave(s, [queued.value], fromStore, now), true)
            else if held.Some? then (PoolModel.Abandon(s, held.value, {id}, fromPending, now), true)
            else (s, false)
  {
    hide Leave, PoolModel.Abandon, FindById, PendingOfId;
  }

  /** What the pool owes a match before it hands it over. */
  ghost predicate HandOver(s: PoolState, game: Match) {
    && Detached(s, game)
    && game.id < s.nextMatchId
    && !WasHandled(s.trace, game.id)
    && (forall pm :: pm in s.pending ==> pm.game.id != game.id)
    && (RequiresAcceptStep(game) ==> Agreed(s.trace, game))
  }

  lemma HandleIs(s: PoolState, game: Match, env: Surroundings)
    ensures var s1 := HandleOpens(s, game, env);
            PoolModel.Handle(s, game, env) == Rejoined(s1, Keep(game.participants, env.back))
  {
  }

  lemma RequeuedIs(s: PoolState, record: map<nat, Requeue>, matchId: nat, id: string, now: int)
    requires record == if matchId in s.requeued then map[matchId := s.requeued[matchId]] else map[]
    ensures WasRequeuedFrom(EMPTY_POOL.(requeued := record), matchId, id, now) == WasRequeuedFrom(s, matchId, id, now)
  {
  }

  lemma OneLeaverOf(s: PoolState, pm: PendingMatch, p: Participant)
    requires Inv(s) && pm in s.pending && p in pm.game.participants
    ensures Leavers(pm, [p]) && Ids([p]) == {p.id}
  {
    OneLeaver(s, pm, p);
  }

  lemma AcceptAnswers(s: PoolState, matchId: nat, id: string, env: Surroundings)
    ensures PoolModel.Accept(s, matchId, id, env).1 ==
            if LivePending(s, matchId, id, env.now).Some? then AcceptedResponse
            else if WasRequeuedFrom(s, matchId, id, env.now) then RequeuedResponse
            else UnknownMatch
  {
    hide LivePending, PoolModel.Handle, Record, FullyAccepted, Exits;
  }

  lemma RequeuedMeans(s: PoolState, matchId: nat, id: string, now: int)
    ensures WasRequeuedFrom(s, matchId, id, now)
            <==> matchId in s.requeued && now < s.requeued[matchId].until && id in s.requeued[matchId].ids
  {
  }

  lemma LiveIsPending(s: PoolState, matchId: nat, id: string, now: int)
    requires LivePending(s, matchId, id, now).Some?
    ensures var pm := LivePending(s, matchId, id, now).value;
            && pm in s.pending && now < pm.deadline && pm.game.id == matchId
            && FindById(pm.game.participants, id).Some?
  {
  }

  lemma DetachIs(s: PoolState, pm: PendingMatch, id: string, now: int)
    ensures Detach(s, pm, id, now) ==
            s.(pending := WithoutMatch(s.pending, pm.game.id),
               trace := s.trace + [AcceptRecorded(pm.game.id, id, now)] + Exits(pm.game.participants, MatchedHuman, now))
  {
    hide WithoutMatch, Exits;
  }

  lemma DetachHandsOver(s: PoolState, pm: PendingMatch, id: string, env: Surroundings)
    requires Inv(s) && pm in s.pending && env.now < pm.deadline
    requires FullyAccepted(pm.(accepted := pm.accepted + {id}))
    ensures Inv(Detach(s, pm, id, env.now)) && HandOver(Detach(s, pm, id, env.now), pm.game)
  {
    var s1 := Detach(s, pm, id, env.now);
    assert Books(s) && pm.game.id < s.nextMatchId && s1.nextMatchId == s.nextMatchId && Unique(Places(s));
    DetachBooks(s, pm, id, env.now);
    DetachHistory(s, pm, id, env.now);
    hide Books, History, Places, Unique, WasHandled, Agreed, ClosedChannel, RequiresAcceptStep, Detach;
  }

  lemma {:induction false} RecordedThenGone(book: seq<PendingMatch>, matchId: nat, id: string)
    ensures WithoutMatch(Record(book, matchId, id), matchId) == WithoutMatch(book, matchId)
  {
    if book != [] {
      var recorded := Record(book, matchId, id);
      assert recorded[1..] == Record(book[1..], matchId, id);
      assert recorded[0].game.id == book[0].game.id;
      RecordedThenGone(book[1..], matchId, id);
    }
  }

  lemma DeclineCases(s: PoolState, matchId: nat, id: string, now: int)
    ensures var live := LivePending(s, matchId, id, now);
            live.Some? ==>
              var decliner := FindById(live.value.game.participants, id).value;
              PoolModel.Decline(s, matchId, id, now) ==
              (Close(PoolModel.Abandon(s, live.value, {id}, Declined, now), decliner, DeclinedProposal), DeclinedResponse)
    ensures LivePending(s, matchId, id, now).None? && !WasRequeuedFrom(s, matchId, id, now) ==>
              PoolModel.Decline(s, matchId, id, now) == (s, UnknownMatch)
    ensures LivePending(s, matchId, id, now).None? && WasRequeuedFrom(s, matchId, id, now) ==>
              var record := s.requeued[matchId];
              var s1 := s.(requeued := s.requeued[matchId := record.(ids := record.ids - {id})]);
              var queued, held := FindById(s.waiting, id), PendingOfId(s.pending, id);
              if queued.None? && held.None? then PoolModel.Decline(s, matchId, id, now) == (s1, UnknownMatch)
              else
                var p := if queued.Some? then queued.value else FindById(held.value.game.participants, id).value;
                PoolModel.Decline(s, matchId, id, now)
                == (Close(PoolModel.Withdraw(s1, id, Declined, Declined, now).0, p, DeclinedProposal), DeclinedResponse)
  {
    hide PoolModel.Abandon, PoolModel.Withdraw, FindById, PendingOfId;
  }

  /** One step of the sweep: `everyone[i]` is still waiting, and leaves if and only if it is dead. */
  lemma SweepNext(s: PoolState, everyone: seq<Participant>, i: nat, env: Surroundings)
    requires Unique(multiset(s.waiting)) && everyone == ByKey(s.waiting) && i < |everyone|
    ensures var ids := DeadIds(s.waiting, env.dead);
            var sofar := Leave(s, Keep(everyone[..i], ids), Expired, env.now);
            var next := Leave(s, Keep(everyone[..i + 1], ids), Expired, env.now);
            && everyone[i] in sofar.waiting
            && next == if everyone[i].channel in env.dead then Leave(sofar, [everyone[i]], Expired, env.now) else sofar
  {
    var p, ids := everyone[i], DeadIds(s.waiting, env.dead);
    var gone := Keep(everyone[..i], ids);
    hide *;
    Walked(s.waiting, everyone, i);
    DeadById(s.waiting, p, env.dead);
    StillWaiting(s.waiting, everyone, i, ids);
    WaitingWithout(s, gone, Expired, env.now);
    KeepNext(everyone, i, ids);
    LeaveAgain(s, gone, p, Expired, env.now);
  }

  lemma DeadById(ps: seq<Participant>, p: Participant, dead: set<nat>)
    requires Unique(multiset(ps)) && p in ps
    ensures p.id in DeadIds(ps, dead) <==> p.channel in dead
  {
    if p.id in DeadIds(ps, dead) {
      var q :| q in ps && q.channel in dead && q.id == p.id;
      SameIdSame(ps, p, q);
    }
  }

  lemma Walked(waiting: seq<Participant>, everyone: seq<Participant>, i: nat)
    requires Unique(multiset(waiting)) && everyone == ByKey(waiting) && i < |everyone|
    ensures Unique(multiset(everyone)) && everyone[i] in waiting
  {
    ByKeyIsPermutation(waiting);
    assert everyone[i] in multiset(everyone);
  }

  lemma WaitingWithout(s: PoolState, gone: seq<Participant>, outcome: Outcome, now: int)
    ensures Leave(s, gone, outcome, now).waiting == Drop(s.waiting, Ids(gone))
  {
  }

  lemma StillWaiting(waiting: seq<Participant>, walk: seq<Participant>, i: nat, ids: set<string>)
    requires Unique(multiset(walk)) && i < |walk| && walk[i] in waiting
    ensures walk[i] in Drop(waiting, Ids(Keep(walk[..i], ids)))
  {
    var gone := Keep(walk[..i], ids);
    KeepIn(walk[..i], ids);
    DropIn(waiting, Ids(gone));
    if walk[i].id in Ids(gone) {
      var q :| q in gone && q.id == walk[i].id;
      var j :| 0 <= j < i && walk[j] == q;
      OneOccurrence(walk, j, i);
    }
  }

  // ---- one step of each loop of the tick -----------------------------------------------------------

  lemma KeepNext(ps: seq<Participant>, i: nat, ids: set<string>)
    requires i < |ps|
    ensures Keep(ps[..i + 1], ids) == if ps[i].id in ids then Keep(ps[..i], ids) + [ps[i]] else Keep(ps[..i], ids)
  {
    assert ps[..i + 1] == ps[..i] + [ps[i]];
    KeepAppend(ps[..i], [ps[i]], ids);
    assert [ps[i]][1..] == [];
  }

  /** Matches still to be resolved are all different and all still pending. */
  ghost predicate ToResolve(s: PoolState, todo: seq<PendingMatch>) {
    DistinctGames(todo) && DistinctGames(s.pending) && forall pm :: pm in todo ==> pm in s.pending
  }

  lemma ResolveNext(s: PoolState, todo: seq<PendingMatch>, env: Surroundings)
    requires Inv(s) && Alive(s.waiting, env.dead) && ToResolve(s, todo) && todo != []
    ensures todo[0] in s.pending
    ensures var s1 := PoolModel.ResolveOne(s, todo[0], env);
            && Resolve(s, todo, env) == Resolve(s1, todo[1..], env)
            && Alive(s1.waiting, env.dead) && ToResolve(s1, todo[1..])
  {
    var pm := todo[0];
    var s1 := PoolModel.ResolveOne(s, pm, env);
    assert pm in todo;
    ResolveOneKeeps(s, pm, env);
    WithoutMatchIn(s.pending, pm.game.id);
    WithoutMatchDistinct(s.pending, pm.game.id);
    RestIsDistinct(todo);
  }

  lemma ResolveNothing(s: PoolState, env: Surroundings)
    ensures Resolve(s, [], env) == s
  {
  }

  lemma MatchUnique(s: PoolState, pm: PendingMatch)
    requires Inv(s) && pm in s.pending
    ensures Unique(multiset(pm.game.participants))
  {
    GameUnique(s, pm);
  }

  lemma {:induction false} KeepIsStable(ps: seq<Participant>, ids: set<string>)
    requires Unique(multiset(ps))
    ensures Keep(ps, Ids(Keep(ps, ids))) == Keep(ps, ids)
  {
    KeepIn(ps, ids);
    assert forall p :: p in ps ==> (p.id in Ids(Keep(ps, ids)) <==> p.id in ids);
    KeepSame(ps, Ids(Keep(ps, ids)), ids);
  }

  lemma {:induction false} KeepSame(ps: seq<Participant>, a: set<string>, b: set<string>)
    requires forall p :: p in ps ==> (p.id in a <==> p.id in b)
    ensures Keep(ps, a) == Keep(ps, b) && Drop(ps, a) == Drop(ps, b)
  {
    if ps != [] {
      assert ps[0] in ps && forall p :: p in ps[1..] ==> p in ps;
      KeepSame(ps[1..], a, b);
    }
  }

  lemma DeadLeave(pm: PendingMatch, dead: seq<Participant>, gone: set<nat>)
    requires Unique(multiset(pm.game.participants)) && dead == Keep(pm.game.participants, DeadIds(pm.game.participants, gone))
    ensures Leavers(pm, dead) && Ids(dead) == DeadIds(pm.game.participants, gone)
    ensures |dead| > 0 <==> DeadIds(pm.game.participants, gone) != {}
  {
    var ps, ids := pm.game.participants, DeadIds(pm.game.participants, gone);
    KeepIsStable(ps, ids);
    KeepIn(ps, ids);
    assert Ids(dead) == ids;
    if |dead| > 0 {
      assert dead[0].id in ids;
    }
  }

  method DeadIn(pm: PendingMatch, dead: set<nat>) returns (gone: seq<Participant>)
    requires Unique(multiset(pm.game.participants))
    ensures gone == Keep(pm.game.participants, DeadIds(pm.game.participants, dead))
  {
    var ps := pm.game.participants;
    gone := [];
    assert ps[..0] == [] && Keep([], DeadIds(ps, dead)) == [];
    hide *;
    for i := 0 to |ps|
      invariant gone == Keep(ps[..i], DeadIds(ps, dead))
    {
      KeepNext(ps, i, DeadIds(ps, dead));
      assert ps[i] in ps;
      DeadById(ps, ps[i], dead);
      if ps[i].channel in dead {
        gone := gone + [ps[i]];
      }
    }
    assert ps[..|ps|] == ps;
  }

  method LateIn(pm: PendingMatch) returns (late: seq<Participant>)
    ensures late == Drop(pm.game.participants, pm.accepted)
  {
    var ps := pm.game.participants;
    late := [];
    assert ps[..0] == [] && Drop([], pm.accepted) == [];
    hide *;
    for i := 0 to |ps|
      invariant late == Drop(ps[..i], pm.accepted)
    {
      DropNext(ps, i, pm.accepted);
      if ps[i].id !in pm.accepted {
        late := late + [ps[i]];
      }
    }
    assert ps[..|ps|] == ps;
  }

  lemma LateLeave(pm: PendingMatch)
    requires Unique(multiset(pm.game.participants))
    ensures Leavers(pm, Drop(pm.game.participants, pm.accepted))
  {
    var ps := pm.game.participants;
    var late := Drop(ps, pm.accepted);
    DropIn(ps, pm.accepted);
    DropIsKeep(ps, pm.accepted, Ids(late));
  }

  lemma {:induction false} DropIsKeep(ps: seq<Participant>, a: set<string>, b: set<string>)
    requires forall p :: p in ps ==> (p.id in a <==> p.id !in b)
    ensures Drop(ps, a) == Keep(ps, b)
  {
    if ps != [] {
      assert ps[0] in ps && forall p :: p in ps[1..] ==> p in ps;
      DropIsKeep(ps[1..], a, b);
    }
  }

  lemma PairAllIs(s: PoolState, env: Surroundings)
    ensures PairAll(s, env) ==
            PoolModel.PairKey(PoolModel.PairKey(PoolModel.PairKey(s, POOL_KEYS[0], env), POOL_KEYS[1], env), POOL_KEYS[2], env)
  {
    hide PoolModel.PairKey;
  }

  /** A key nobody waits under is skipped, as pairing it would do nothing. */
  lemma NobodyToPair(s: PoolState, key: PoolKey, env: Surroundings)
    ensures |Listed(s.waiting, key)| == 0 ==> PoolModel.PairKey(s, key, env) == s
  {
    if Listed(s.waiting, key) == [] {
      NobodyPaired(env.policies, env.now, s.nextMatchId);
      assert s.(nextMatchId := s.nextMatchId + 0) == s;
    }
  }

  lemma {:induction false} NobodyPaired(policies: seq<Policy>, now: int, firstId: nat)
    ensures Composite(policies, [], now, firstId) == []
  {
    if policies != [] {
      assert Chosen(policies[0], [], now, firstId) == [];
      NobodyPaired(policies[1..], now, firstId);
    }
  }

  lemma StartNothing(s: PoolState, env: Surroundings)
    ensures StartAll(s, [], env) == s
  {
  }

  lemma StartableParts(s: PoolState, game: Match)
    requires Startable(s, game)
    ensures multiset(game.participants) <= multiset(s.waiting)
    ensures forall pm :: pm in s.pending ==> pm.game.id != game.id
  {
  }

  lemma HoldKeepsGame(game: Match, deadline: int)
    ensures Hold(game, deadline).game == game
  {
  }

  lemma ProposeIs(s: PoolState, game: Match, now: int)
    ensures PoolModel.Propose(s, game, now) ==
            s.(waiting := Drop(s.waiting, Ids(game.participants)),
               pending := s.pending + [Hold(game, now + MATCH_ACCEPT_TIMEOUT_MS)],
               trace := s.trace + [Proposed(game, now)] + Proposals(game.participants, game.id))
  {
    hide Drop, Ids, Hold, Proposals;
  }

  lemma PublishIs(s: PoolState, env: Surroundings)
    ensures Publish(s, env) == s.(trace := s.trace + Statuses(ByKey(s.waiting), env.now))
  {
    hide Statuses, ByKey;
  }

  lemma StatusesNone(trace: seq<Event>, now: int)
    ensures trace + Statuses([], now) == trace
  {
  }

  lemma StatusesNext(trace: seq<Event>, ps: seq<Participant>, i: nat, now: int)
    requires i < |ps|
    ensures trace + Statuses(ps[..i], now) + [StatusSent(ps[i], now - ps[i].enqueuedAt)] == trace + Statuses(ps[..i + 1], now)
  {
  }

  lemma ProposalsNone(trace: seq<Event>, matchId: nat)
    ensures trace + Proposals([], matchId) == trace
  {
  }

  lemma ProposalsNext(trace: seq<Event>, game: Match, i: nat)
    requires i < |game.participants|
    ensures trace + Proposals(game.participants[..i + 1], game.id) ==
            if game.participants[i].supportsAcceptStep
            then trace + Proposals(game.participants[..i], game.id) + [ProposalSent(game.participants[i], game.id)]
            else trace + Proposals(game.participants[..i], game.id)
  {
    var p := game.participants[i];
    assert game.participants[..i + 1] == game.participants[..i] + [p];
    OptedInAppend(game.participants[..i], p);
    if p.supportsAcceptStep {
      assert Proposals(game.participants[..i + 1], game.id)
             == Proposals(game.participants[..i], game.id) + [ProposalSent(p, game.id)];
    }
  }

  lemma {:induction false} OptedInAppend(ps: seq<Participant>, p: Participant)
    ensures OptedIn(ps + [p]) == OptedIn(ps) + (if p.supportsAcceptStep then [p] else [])
  {
    if ps == [] {
      assert [] + [p] == [p] && [p][1..] == [];
    } else {
      assert (ps + [p])[0] == ps[0] && (ps + [p])[1..] == ps[1..] + [p];
      var first: seq<Participant>, last: seq<Participant> := if ps[0].supportsAcceptStep then [ps[0]] else [], if p.supportsAcceptStep then [p] else [];
      OptedInAppend(ps[1..], p);
      assert first + (OptedIn(ps[1..]) + last) == (first + OptedIn(ps[1..])) + last;
    }
  }

  lemma DropNobody(ps: seq<Participant>)
    ensures Drop(ps, Ids([])) == ps
  {
    assert Ids([]) == {};
    DropAll(ps, {});
  }

  lemma NotTakenYet(was: seq<Participant>, ps: seq<Participant>, i: nat)
    requires Unique(multiset(was)) && multiset(ps) <= multiset(was) && i < |ps|
    ensures ps[i] in Drop(was, Ids(ps[..i]))
  {
    SubUnique(multiset(ps), multiset(was));
    PartMembers(ps, was);
    assert ps[i] in ps;
    DropIn(was, Ids(ps[..i]));
    hide Drop, Unique;
    forall j | 0 <= j < i ensures ps[j].id != ps[i].id {
      OneOccurrence(ps, j, i);
    }
  }

  lemma TakeNext(was: seq<Participant>, ps: seq<Participant>, i: nat)
    requires Unique(multiset(was)) && multiset(ps) <= multiset(was) && i < |ps|
    ensures ps[i] in Drop(was, Ids(ps[..i]))
    ensures Drop(was, Ids(ps[..i + 1])) == Drop(Drop(was, Ids(ps[..i])), {ps[i].id})
  {
    hide *;
    NotTakenYet(was, ps, i);
    DropTwice(was, Ids(ps[..i]), {ps[i].id});
    IdsNext(ps, i);
  }

  lemma IdsNext(ps: seq<Participant>, i: nat)
    requires i < |ps|
    ensures Ids(ps[..i + 1]) == Ids(ps[..i]) + {ps[i].id}
  {
    assert ps[..i + 1] == ps[..i] + [ps[i]];
    PoolRuns.IdsJoin(ps[..i], [ps[i]]);
  }

  lemma LeaveNext(s: PoolState, ps: seq<Participant>, i: nat, outcome: Outcome, now: int)
    requires Unique(multiset(s.waiting)) && multiset(ps) <= multiset(s.waiting) && i < |ps|
    ensures ps[i] in Leave(s, ps[..i], outcome, now).waiting
    ensures Leave(s, ps[..i + 1], outcome, now) == Leave(Leave(s, ps[..i], outcome, now), [ps[i]], outcome, now)
  {
    assert Leave(s, ps[..i], outcome, now).waiting == Drop(s.waiting, Ids(ps[..i]));
    hide *;
    NotTakenYet(s.waiting, ps, i);
    LeaveAgain(s, ps[..i], ps[i], outcome, now);
    assert ps[..i + 1] == ps[..i] + [ps[i]];
  }

  lemma SeatIs(s: PoolState, game: Match, env: Surroundings)
    ensures PoolModel.Seat(s, game, env) ==
            PoolModel.Handle(Leave(s, game.participants, if game.opponentKind.Bot? then MatchedBot else MatchedHuman, env.now), game, env)
  {
    hide PoolModel.Handle, Leave;
  }

  lemma SeatHandsOver(s: PoolState, game: Match, outcome: Outcome, now: int)
    requires Inv(s) && Startable(s, game) && !RequiresAcceptStep(game)
    ensures Inv(Leave(s, game.participants, outcome, now)) && HandOver(Leave(s, game.participants, outcome, now), game)
  {
    StartableParts(s, game);
    SeatDetached(s, game, outcome, now);
    hide Inv, Detached, WasHandled, RequiresAcceptStep, Leave;
    LeaveKeeps(s, game.participants, outcome, now);
  }

  lemma TickIs(s: PoolState, env: Surroundings)
    ensures var s1 := Sweep(s, env);
            PoolModel.Tick(s, env) == Publish(PairAll(Forget(Resolve(s1, s1.pending, env), env.now), env), env)
  {
    hide Sweep, Resolve, Forget, PairAll, Publish;
  }

  /** A tick over living participants and no pending match has nothing to do before it pairs. */
  lemma NobodySwept(s: PoolState, env: Surroundings)
    requires env.dead == {} && s.pending == [] && s.requeued == map[]
    ensures Forget(Resolve(Sweep(s, env), Sweep(s, env).pending, env), env.now) == s
  {
    var s1 := Sweep(s, env);
    assert DeadIds(s.waiting, env.dead) == {};
    hide ByKey, Listed;
    DropAll(ByKey(s.waiting), {});
    LeaveNobody(s, Expired, env.now);
    assert s1 == s;
    hide Sweep, Leave;
    assert Resolve(s1, [], env) == s1;
    assert Forget(s, env.now).requeued == map[];
  }
}
