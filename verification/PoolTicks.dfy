/** The tick, phase by phase: what it keeps, and what is true of the pool once it is over. */
module PoolTicks {
  import opened Options
  import opened QueueEntry
  import opened Participants
  import opened Pairing
  import opened PoolModel
  import opened PoolBooks
  import opened PoolTrace
  import opened PoolInvariants

  ghost predicate Alive(ps: seq<Participant>, dead: set<nat>) {
    forall p :: p in ps ==> p.channel !in dead
  }

  // ---- sweeping the dead ------------------------------------------------------------------

  lemma SweepKeeps(s: PoolState, env: Surroundings)
    requires Inv(s)
    ensures Inv(Sweep(s, env)) && Account(Sweep(s, env)) == Account(s)
    ensures Sweep(s, env).pending == s.pending
    ensures Alive(Sweep(s, env).waiting, env.dead)
  {
    var ids := DeadIds(s.waiting, env.dead);
    var gone := Keep(ByKey(s.waiting), ids);
    SweptArePart(s.waiting, ids);
    SweepsAllDead(s.waiting, env.dead);
    hide Inv, Account, Keep, Drop, DeadIds, ByKey;
    LeaveKeeps(s, gone, Expired, env.now);
  }

  lemma SweptArePart(ps: seq<Participant>, ids: set<string>)
    ensures multiset(Keep(ByKey(ps), ids)) <= multiset(ps)
  {
    ByKeyIsPermutation(ps);
    KeepDropSplit(ByKey(ps), ids);
  }

  lemma SweepsAllDead(ps: seq<Participant>, dead: set<nat>)
    ensures Alive(Drop(ps, Ids(Keep(ByKey(ps), DeadIds(ps, dead)))), dead)
  {
    var gone := Keep(ByKey(ps), DeadIds(ps, dead));
    KeepIn(ByKey(ps), DeadIds(ps, dead));
    ByKeyIn(ps);
    DropIn(ps, Ids(gone));
    forall p | p in ps && p.channel in dead ensures p.id in Ids(gone) {
      assert p in gone;
    }
  }

  // ---- resolving pending matches --------------------------------------------------------------

  /** A match that may stay pending: everyone in it is alive and its window is open. */
  ghost predicate MayStay(pm: PendingMatch, env: Surroundings) {
    Alive(pm.game.participants, env.dead) && env.now < pm.deadline
  }

  /** A timed-out match always lets somebody out: the book never holds a fully accepted match. */
  lemma TimeoutRemovesSomebody(s: PoolState, pm: PendingMatch)
    requires Inv(s) && pm in s.pending
    ensures Drop(pm.game.participants, pm.accepted) != []
  {
    assert !FullyAccepted(pm);
    var p :| p in pm.game.participants && p.id !in pm.accepted;
    DropIn(pm.game.participants, pm.accepted);
    assert p in Drop(pm.game.participants, pm.accepted);
  }

  lemma ResolveOneKeeps(s: PoolState, pm: PendingMatch, env: Surroundings)
    requires Inv(s) && pm in s.pending && Alive(s.waiting, env.dead)
    ensures Inv(ResolveOne(s, pm, env)) && Account(ResolveOne(s, pm, env)) == Account(s)
    ensures Alive(ResolveOne(s, pm, env).waiting, env.dead)
    ensures ResolveOne(s, pm, env).pending == if MayStay(pm, env) then s.pending else WithoutMatch(s.pending, pm.game.id)
  {
    var ps := pm.game.participants;
    var gone := DeadIds(ps, env.dead);
    ResolveOneCases(s, pm, env);
    assert MayStay(pm, env) <==> Alive(ps, env.dead) && env.now < pm.deadline;
    hide *;
    NobodyDead(ps, env.dead);
    if gone != {} {
      AbandonKeeps(s, pm, gone, Expired, env.now);
      StayersAlive(s.waiting, ps, gone, env.dead);
    } else if env.now >= pm.deadline {
      TimeOutKeeps(s, pm, env);
      StayersAlive(s.waiting, ps, Ids(Drop(ps, pm.accepted)), env.dead);
    }
  }

  lemma ResolveOneCases(s: PoolState, pm: PendingMatch, env: Surroundings)
    ensures var ps := pm.game.participants;
            var gone := DeadIds(ps, env.dead);
            var late := Drop(ps, pm.accepted);
            var s1 := Abandon(s, pm, Ids(late), AcceptTimeout, env.now);
            ResolveOne(s, pm, env) ==
            if gone != {} then Abandon(s, pm, gone, Expired, env.now)
            else if env.now < pm.deadline then s
            else s1.(trace := s1.trace + Closes(late, AcceptTimedOut))
    ensures forall leaving: set<string>, outcome ::
              var after := Abandon(s, pm, leaving, outcome, env.now);
              && after.waiting == s.waiting + Drop(pm.game.participants, leaving)
              && after.pending == WithoutMatch(s.pending, pm.game.id)
  {
    hide DeadIds, Drop, Keep, WithoutMatch, Ids, Exits, Statuses, Closes;
  }

  lemma NobodyDead(ps: seq<Participant>, dead: set<nat>)
    ensures DeadIds(ps, dead) == {} <==> Alive(ps, dead)
  {
    forall p | p in ps && p.channel in dead ensures p.id in DeadIds(ps, dead) {
    }
  }

  lemma StayersAlive(waiting: seq<Participant>, ps: seq<Participant>, leaving: set<string>, dead: set<nat>)
    requires Alive(waiting, dead)
    requires Alive(ps, dead) || leaving == DeadIds(ps, dead)
    ensures Alive(waiting + Drop(ps, leaving), dead)
  {
    DropIn(ps, leaving);
    forall p | p in ps && p.channel in dead ensures p.id in DeadIds(ps, dead) {
    }
  }

  lemma TimeOutKeeps(s: PoolState, pm: PendingMatch, env: Surroundings)
    requires Inv(s) && pm in s.pending
    ensures var late := Drop(pm.game.participants, pm.accepted);
            var s1 := Abandon(s, pm, Ids(late), AcceptTimeout, env.now);
            var s2 := s1.(trace := s1.trace + Closes(late, AcceptTimedOut));
            Inv(s2) && Account(s2) == Account(s)
  {
    var ps := pm.game.participants;
    var late := Drop(ps, pm.accepted);
    var s1 := Abandon(s, pm, Ids(late), AcceptTimeout, env.now);
    assert Books(s) && Unique(Places(s));
    LateIsPart(s, pm);
    hide *;
    AbandonKeeps(s, pm, Ids(late), AcceptTimeout, env.now);
    LateAreApart(Places(s), late);
    CloseManyKeeps(s1, late);
  }

  lemma LateIsPart(s: PoolState, pm: PendingMatch)
    requires Books(s) && pm in s.pending
    ensures var late := Drop(pm.game.participants, pm.accepted);
            multiset(Keep(pm.game.participants, Ids(late))) == multiset(late) && multiset(late) <= Places(s)
  {
    var ps := pm.game.participants;
    GameUnique(s, pm);
    KeepDropSplit(ps, pm.accepted);
    KeepSelects(ps, Drop(ps, pm.accepted));
  }

  lemma LateAreApart(before: multiset<Participant>, late: seq<Participant>)
    requires Unique(before) && multiset(late) <= before
    ensures forall p, q :: p in late && q in before - multiset(late) ==> p.channel != q.channel
  {
    forall p, q | p in late && q in before - multiset(late) ensures p.channel != q.channel {
      assert p in multiset(late);
      GoneIsApart(before, multiset(late), p);
    }
  }

  lemma CloseManyKeeps(s: PoolState, gone: seq<Participant>)
    requires Inv(s) && forall p, q :: p in gone && q in Places(s) ==> p.channel != q.channel
    ensures var after := s.(trace := s.trace + Closes(gone, AcceptTimedOut));
            Inv(after) && Account(after) == Account(s)
  {
    var closes := Closes(gone, AcceptTimedOut);
    TellBalances(s, closes);
    HistoryCloses(s, closes);
  }

  lemma {:induction false} ResolveKeeps(s: PoolState, todo: seq<PendingMatch>, env: Surroundings)
    requires Inv(s) && Alive(s.waiting, env.dead)
    requires DistinctGames(todo) && forall pm :: pm in todo ==> pm in s.pending
    requires forall pm :: pm in s.pending ==> pm in todo || MayStay(pm, env)
    ensures Inv(Resolve(s, todo, env)) && Account(Resolve(s, todo, env)) == Account(s)
    ensures Alive(Resolve(s, todo, env).waiting, env.dead)
    ensures forall pm :: pm in Resolve(s, todo, env).pending ==> MayStay(pm, env)
    decreases |todo|
  {
    hide Inv, Account, Alive, MayStay, ResolveOne;
    if todo != [] {
      var pm, rest := todo[0], todo[1..];
      assert pm in todo;
      ResolveOneKeeps(s, pm, env);
      WithoutMatchIn(s.pending, pm.game.id);
      RestIsDistinct(todo);
      assert todo == [pm] + rest;
      var s1 := ResolveOne(s, pm, env);
      InvDistinct(s);
      forall q | q in s1.pending ensures q in rest || MayStay(q, env) {
        if q.game.id == pm.game.id {
          SameGame(s.pending, q, pm);
        }
      }
      ResolveKeeps(s1, rest, env);
    }
  }

  lemma InvDistinct(s: PoolState)
    requires Inv(s)
    ensures DistinctGames(s.pending)
  {
  }

  lemma RestIsDistinct(book: seq<PendingMatch>)
    requires book != [] && DistinctGames(book)
    ensures DistinctGames(book[1..])
    ensures forall pm :: pm in book[1..] ==> pm in book && pm.game.id != book[0].game.id
  {
    var rest := book[1..];
    assert forall i :: 0 <= i < |rest| ==> rest[i] == book[i + 1];
  }

  lemma ForgetKeeps(s: PoolState, now: int)
    requires Inv(s)
    ensures Inv(Forget(s, now)) && Account(Forget(s, now)) == Account(s)
    ensures forall id :: id in Forget(s, now).requeued <==> id in s.requeued && now < s.requeued[id].until
    ensures forall id :: id in Forget(s, now).requeued ==> Forget(s, now).requeued[id] == s.requeued[id]
  {
    var after := Forget(s, now);
    assert after.trace == s.trace + [] && Places(after) == Places(s);
    HistoryGrows(s, after, []);
  }

  // ---- starting matches ------------------------------------------------------------------------

  /** A match id nobody has used yet. */
  ghost predicate FreshId(s: PoolState, id: nat) {
    && id < s.nextMatchId
    && !WasHandled(s.trace, id)
    && id !in s.requeued
    && (forall pm :: pm in s.pending ==> pm.game.id != id)
  }

  ghost predicate Startable(s: PoolState, game: Match) {
    FreshId(s, game.id) && multiset(game.participants) <= multiset(s.waiting)
  }

  lemma ProposeKeeps(s: PoolState, game: Match, now: int)
    requires Inv(s) && Startable(s, game) && RequiresAcceptStep(game)
    ensures Inv(Propose(s, game, now)) && Account(Propose(s, game, now)) == Account(s)
  {
    ProposeBooks(s, game, now);
    ProposeHistory(s, game, now);
    ProposeTrace(s, game, now);
    hide Books, History, Places, ExitedFrom, HandedBack, RequiresAcceptStep, Propose;
  }

  lemma ProposeTrace(s: PoolState, game: Match, now: int)
    ensures ExitedFrom(Propose(s, game, now).trace) == ExitedFrom(s.trace)
    ensures HandedBack(Propose(s, game, now).trace) == HandedBack(s.trace)
  {
    Silent(s.trace, [Proposed(game, now)]);
    Silent(s.trace + [Proposed(game, now)], Proposals(game.participants, game.id));
  }

  lemma ProposeBooks(s: PoolState, game: Match, now: int)
    requires Books(s) && Startable(s, game) && RequiresAcceptStep(game)
    ensures Books(Propose(s, game, now)) && Places(Propose(s, game, now)) == Places(s)
  {
    var held := Hold(game, now + MATCH_ACCEPT_TIMEOUT_MS);
    var after := Propose(s, game, now);
    assert after.waiting == Drop(s.waiting, Ids(game.participants)) && after.pending == s.pending + [held];
    assert held.game == game && after.requeued == s.requeued && after.nextMatchId == s.nextMatchId;
    assert game.id < s.nextMatchId && game.id !in s.requeued;
    StartableUnique(s, game);
    HoldAwaits(game, now + MATCH_ACCEPT_TIMEOUT_MS);
    hide Unique, RequiresAcceptStep, Awaiting, Hold, Propose, InPending;
    ProposePlaces(s, game, held);
    BookGrows(s, held);
  }

  lemma BookGrows(s: PoolState, held: PendingMatch)
    requires BookOk(s.pending, s.nextMatchId) && RequeuesOk(s.requeued, s.pending, s.nextMatchId)
    requires Awaiting(held) && held.game.id < s.nextMatchId && held.game.id !in s.requeued
    requires forall pm :: pm in s.pending ==> pm.game.id != held.game.id
    ensures BookOk(s.pending + [held], s.nextMatchId)
    ensures RequeuesOk(s.requeued, s.pending + [held], s.nextMatchId)
  {
  }

  lemma ProposePlaces(s: PoolState, game: Match, held: PendingMatch)
    requires Unique(multiset(s.waiting)) && multiset(game.participants) <= multiset(s.waiting) && held.game == game
    ensures multiset(Drop(s.waiting, Ids(game.participants))) + multiset(InPending(s.pending + [held])) == Places(s)
  {
    KeepSelects(s.waiting, game.participants);
    InPendingAppend(s.pending, held);
    hide Drop, Ids, InPending, Unique;
    TakeFromPart(multiset(s.waiting), multiset(game.participants), multiset(InPending(s.pending)));
  }

  lemma StartableUnique(s: PoolState, game: Match)
    requires Unique(Places(s)) && multiset(game.participants) <= multiset(s.waiting)
    ensures Unique(multiset(game.participants)) && Unique(multiset(s.waiting))
    ensures multiset(game.participants) <= Places(s)
    ensures forall p :: p in game.participants ==> p in Places(s) && p in s.waiting
  {
    assert multiset(game.participants) <= multiset(s.waiting) <= Places(s);
    SubUnique(multiset(game.participants), Places(s));
    SubUnique(multiset(s.waiting), Places(s));
    PartMembers(game.participants, s.waiting);
    forall p | p in game.participants ensures p in Places(s) {
      WaitingHasPlace(s, p);
    }
  }

  lemma {:induction false} OptedInIn(ps: seq<Participant>)
    ensures forall p :: p in OptedIn(ps) <==> p in ps && p.supportsAcceptStep
  {
    if ps != [] {
      OptedInIn(ps[1..]);
    }
  }

  lemma ProposalsSpeak(trace: seq<Event>, game: Match, at: int)
    requires forall p :: p in game.participants ==> !ClosedChannel(trace, p.channel)
    ensures Harmless(trace, [Proposed(game, at)] + Proposals(game.participants, game.id))
  {
    OptedInIn(game.participants);
    hide ClosedChannel;
    var proposals := Proposals(game.participants, game.id);
    forall e | e in [Proposed(game, at)] + proposals && Speaks(e) ensures !ClosedChannel(trace, e.p.channel) {
      assert e in proposals;
      assert e.p in OptedIn(game.participants);
    }
  }

  lemma ProposeHistory(s: PoolState, game: Match, now: int)
    requires Inv(s) && Startable(s, game)
    requires Places(Propose(s, game, now)) == Places(s)
    ensures History(Propose(s, game, now))
  {
    var more := [Proposed(game, now)] + Proposals(game.participants, game.id);
    var told := s.(trace := s.trace + more);
    var after := Propose(s, game, now);
    var held := Hold(game, now + MATCH_ACCEPT_TIMEOUT_MS);
    assert after.trace == told.trace && after.pending == s.pending + [held];
    assert told.trace == s.trace + [Proposed(game, now)] + Proposals(game.participants, game.id);
    assert Unique(Places(s)) && Reachable(s) && !WasHandled(s.trace, game.id);
    StartableUnique(s, game);
    forall p | p in game.participants ensures !ClosedChannel(s.trace, p.channel) {
      PlacesOpen(s, p);
    }
    NoHandOver(game);
    hide Places, Quiet, AcceptSafe, HandledOnce, Backed, Unique, Proposals, Hold, Propose, ClosedChannel, WasHandled;
    ProposalsSpeak(s.trace, game, now);
    HoldIsBacked(s.trace, game, now, Proposals(game.participants, game.id));
    HistoryGrows(s, told, more);
    HeldIsBacked(told, after, held);
  }

  lemma NoHandOver(game: Match)
    ensures forall e :: e in Proposals(game.participants, game.id) ==> !e.Handled?
  {
  }

  lemma HeldIsBacked(told: PoolState, after: PoolState, held: PendingMatch)
    requires History(told) && Backed(told.trace, held)
    requires after.trace == told.trace && after.pending == told.pending + [held]
    requires Places(after) == Places(told) && after.nextMatchId == told.nextMatchId
    ensures History(after)
  {
    hide Quiet, AcceptSafe, HandledOnce, Backed, Places;
    forall pm | pm in after.pending ensures Backed(after.trace, pm) {
      assert pm == held || pm in told.pending;
    }
  }

  lemma SeatKeeps(s: PoolState, game: Match, env: Surroundings)
    requires Inv(s) && Startable(s, game) && !RequiresAcceptStep(game)
    ensures Inv(Seat(s, game, env)) && Settles(Account(s), Account(Seat(s, game, env)), multiset{})
  {
    var outcome := if game.opponentKind.Bot? then MatchedBot else MatchedHuman;
    var s1 := Leave(s, game.participants, outcome, env.now);
    assert Seat(s, game, env) == Handle(s1, game, env);
    assert s1.pending == s.pending && s1.nextMatchId == s.nextMatchId;
    assert Unique(Places(s)) && Reachable(s);
    SeatDetached(s, game, outcome, env.now);
    hide *;
    LeaveKeeps(s, game.participants, outcome, env.now);
    HandleKeeps(s1, game, env);
    SettlesHandBack(Account(s), multiset(Keep(game.participants, env.back)));
  }

  lemma SeatDetached(s: PoolState, game: Match, outcome: Outcome, now: int)
    requires Inv(s) && Startable(s, game)
    ensures var s1 := Leave(s, game.participants, outcome, now);
            && Detached(s1, game) && game.id < s1.nextMatchId && !WasHandled(s1.trace, game.id)
            && forall pm :: pm in s1.pending ==> pm.game.id != game.id
  {
    var exits := Exits(game.participants, outcome, now);
    StartableUnique(s, game);
    LeavePlaces(s, game.participants, outcome, now);
    assert Leave(s, game.participants, outcome, now).trace == s.trace + exits;
    NotHandledLater(s.trace, exits, game.id);
    NotClosing(game.participants, [], outcome, now);
    hide Unique, Places, Quiet, AcceptSafe, HandledOnce, Backed, BookOk, RequeuesOk, Drop;
    forall p | p in game.participants ensures !ClosedChannel(s.trace + exits, p.channel) {
      PlacesOpen(s, p);
      HarmlessCloses(s.trace, exits, p.channel);
    }
  }

  lemma StartIs(s: PoolState, game: Match, env: Surroundings)
    ensures Start(s, game, env) == if RequiresAcceptStep(game) then Propose(s, game, env.now) else Seat(s, game, env)
  {
  }

  lemma StartKeeps(s: PoolState, game: Match, env: Surroundings)
    requires Inv(s) && Startable(s, game)
    ensures Inv(Start(s, game, env)) && Settles(Account(s), Account(Start(s, game, env)), multiset{})
  {
    StartIs(s, game, env);
    hide *;
    if RequiresAcceptStep(game) {
      ProposeKeeps(s, game, env.now);
      SettlesSame(Account(s));
    } else {
      SeatKeeps(s, game, env);
    }
  }

  /** Starting one match leaves the others startable. */
  lemma StartLeavesOthers(s: PoolState, game: Match, other: nat, env: Surroundings)
    requires FreshId(s, other) && other != game.id
    ensures FreshId(Start(s, game, env), other)
  {
    var after := Start(s, game, env);
    if RequiresAcceptStep(game) {
      var more := [Proposed(game, env.now)] + Proposals(game.participants, game.id);
      assert after.trace == s.trace + more;
      NotHandledLater(s.trace, more, other);
    } else {
      var outcome := if game.opponentKind.Bot? then MatchedBot else MatchedHuman;
      var more := Exits(game.participants, outcome, env.now)
                  + ([Handled(game, Keep(game.participants, env.back))] + Founds(Keep(game.participants, env.told), game.id));
      assert after.trace == s.trace + more;
      NotHandledLater(s.trace, more, other);
    }
  }

  /** What is still waiting once a match has started: everyone else, and whoever was handed back. */
  lemma StartWaiting(s: PoolState, game: Match, env: Surroundings)
    requires Unique(multiset(s.waiting)) && multiset(game.participants) <= multiset(s.waiting)
    ensures multiset(s.waiting) - multiset(game.participants) <= multiset(Start(s, game, env).waiting)
    ensures forall p :: p in Start(s, game, env).waiting ==> p in s.waiting
    ensures forall pm :: pm in Start(s, game, env).pending ==>
              pm in s.pending || (pm.game == game && pm.deadline == env.now + MATCH_ACCEPT_TIMEOUT_MS)
    ensures Start(s, game, env).requeued == s.requeued && Start(s, game, env).nextMatchId == s.nextMatchId
  {
    var stay := Drop(s.waiting, Ids(game.participants));
    var back := Keep(game.participants, env.back);
    StartParts(s, game, env);
    KeepSelects(s.waiting, game.participants);
    DropIn(s.waiting, Ids(game.participants));
    KeepIn(game.participants, env.back);
    PartMembers(game.participants, s.waiting);
    hide *;
    MoreThan(stay, back);
  }

  lemma MoreThan(stay: seq<Participant>, back: seq<Participant>)
    ensures multiset(stay) <= multiset(stay + back)
    ensures stay + [] == stay
    ensures forall p :: p in stay + back <==> p in stay || p in back
  {
  }

  lemma StartParts(s: PoolState, game: Match, env: Surroundings)
    ensures var stay := Drop(s.waiting, Ids(game.participants));
            Start(s, game, env).waiting == if RequiresAcceptStep(game) then stay else stay + Keep(game.participants, env.back)
    ensures forall pm :: pm in Start(s, game, env).pending ==>
              pm in s.pending || (pm.game == game && pm.deadline == env.now + MATCH_ACCEPT_TIMEOUT_MS)
    ensures Start(s, game, env).requeued == s.requeued && Start(s, game, env).nextMatchId == s.nextMatchId
  {
    hide Drop, Keep, Ids, RequiresAcceptStep, Exits, Founds, Proposals;
  }

  ghost predicate AllStartable(s: PoolState, games: seq<Match>) {
    && (forall i :: 0 <= i < |games| ==> FreshId(s, games[i].id))
    && (forall i, j :: 0 <= i < j < |games| ==> games[i].id != games[j].id)
    && multiset(Everyone(games)) <= multiset(s.waiting)
  }

  lemma RestStartable(s: PoolState, games: seq<Match>, env: Surroundings)
    requires Inv(s) && AllStartable(s, games) && games != []
    ensures Startable(s, games[0]) && AllStartable(Start(s, games[0], env), games[1..])
    ensures forall p :: p in Start(s, games[0], env).waiting ==> p in s.waiting
    ensures forall pm :: pm in Start(s, games[0], env).pending ==>
              pm in s.pending || (pm.game == games[0] && pm.deadline == env.now + MATCH_ACCEPT_TIMEOUT_MS)
    ensures Start(s, games[0], env).requeued == s.requeued
    ensures forall p :: p in games[0].participants ==> p in s.waiting
  {
    var game, rest := games[0], games[1..];
    var after := Start(s, game, env);
    CrowdSplits(games);
    assert Unique(Places(s)) && FreshId(s, game.id) && multiset(Everyone(games)) <= multiset(s.waiting);
    FirstOfCrowd(multiset(game.participants), multiset(Everyone(rest)), multiset(s.waiting));
    StartableUnique(s, game);
    OthersFresh(s, games, env);
    assert Startable(s, game);
    hide *;
    StartWaiting(s, game, env);
    RestOfCrowd(multiset(game.participants), multiset(Everyone(rest)), multiset(s.waiting), multiset(after.waiting));
    CrowdIsStartable(after, rest);
  }

  lemma CrowdIsStartable(s: PoolState, games: seq<Match>)
    requires forall i :: 0 <= i < |games| ==> FreshId(s, games[i].id)
    requires forall i, j :: 0 <= i < j < |games| ==> games[i].id != games[j].id
    requires multiset(Everyone(games)) <= multiset(s.waiting)
    ensures AllStartable(s, games)
  {
  }

  lemma CrowdSplits(games: seq<Match>)
    requires games != []
    ensures multiset(Everyone(games)) == multiset(games[0].participants) + multiset(Everyone(games[1..]))
  {
  }

  lemma FirstOfCrowd(first: multiset<Participant>, rest: multiset<Participant>, waiting: multiset<Participant>)
    requires first + rest <= waiting
    ensures first <= waiting
  {
    forall p ensures first[p] <= waiting[p] {
      assert (first + rest)[p] <= waiting[p];
    }
  }

  lemma OthersFresh(s: PoolState, games: seq<Match>, env: Surroundings)
    requires games != []
    requires forall i :: 0 <= i < |games| ==> FreshId(s, games[i].id)
    requires forall i, j :: 0 <= i < j < |games| ==> games[i].id != games[j].id
    ensures var rest := games[1..];
            && (forall i :: 0 <= i < |rest| ==> FreshId(Start(s, games[0], env), rest[i].id))
            && (forall i, j :: 0 <= i < j < |rest| ==> rest[i].id != rest[j].id)
  {
    var rest := games[1..];
    assert forall i :: 0 <= i < |rest| ==> rest[i] == games[i + 1];
    hide Start, FreshId;
    forall i | 0 <= i < |rest| ensures FreshId(Start(s, games[0], env), rest[i].id) {
      assert FreshId(s, games[i + 1].id) && games[0].id != games[i + 1].id;
      StartLeavesOthers(s, games[0], rest[i].id, env);
    }
  }

  lemma RestOfCrowd(first: multiset<Participant>, rest: multiset<Participant>,
                    waiting: multiset<Participant>, after: multiset<Participant>)
    requires first + rest <= waiting && waiting - first <= after
    ensures rest <= after
  {
    assert rest == (first + rest) - first;
    forall p ensures rest[p] <= after[p] {
      assert (first + rest)[p] <= waiting[p];
      assert (waiting - first)[p] <= after[p];
    }
  }

  ghost predicate AliveEverywhere(s: PoolState, env: Surroundings) {
    Alive(s.waiting, env.dead) && forall pm :: pm in s.pending ==> MayStay(pm, env)
  }

  lemma {:induction false} StartAllKeeps(s: PoolState, games: seq<Match>, env: Surroundings)
    requires Inv(s) && AllStartable(s, games) && AliveEverywhere(s, env)
    ensures Inv(StartAll(s, games, env)) && Settles(Account(s), Account(StartAll(s, games, env)), multiset{})
    ensures AliveEverywhere(StartAll(s, games, env), env) && StartAll(s, games, env).requeued == s.requeued
    decreases |games|
  {
    if games == [] {
      SettlesSame(Account(s));
    } else {
      var s1 := Start(s, games[0], env);
      StartAllUnfolds(s, games, env);
      RestStartable(s, games, env);
      StillAlive(s, s1, games[0], env);
      hide *;
      StartKeeps(s, games[0], env);
      StartAllKeeps(s1, games[1..], env);
      SettlesOn(Account(s), Account(s1), Account(StartAll(s1, games[1..], env)));
    }
  }

  lemma StartAllUnfolds(s: PoolState, games: seq<Match>, env: Surroundings)
    requires games != []
    ensures StartAll(s, games, env) == StartAll(Start(s, games[0], env), games[1..], env)
  {
  }

  lemma StillAlive(s: PoolState, s1: PoolState, game: Match, env: Surroundings)
    requires AliveEverywhere(s, env)
    requires forall p :: p in s1.waiting ==> p in s.waiting
    requires forall p :: p in game.participants ==> p in s.waiting
    requires forall pm :: pm in s1.pending ==>
               pm in s.pending || (pm.game == game && pm.deadline == env.now + MATCH_ACCEPT_TIMEOUT_MS)
    ensures AliveEverywhere(s1, env)
  {
  }

  // ---- pairing a key --------------------------------------------------------------------------------

  lemma PairKeyKeeps(s: PoolState, key: PoolKey, env: Surroundings)
    requires Inv(s) && AliveEverywhere(s, env)
    ensures Inv(PairKey(s, key, env)) && Settles(Account(s), Account(PairKey(s, key, env)), multiset{})
    ensures AliveEverywhere(PairKey(s, key, env), env) && PairKey(s, key, env).requeued == s.requeued
  {
    hide *;
    var games := Composite(env.policies, Listed(s.waiting, key), env.now, s.nextMatchId);
    var s1 := s.(nextMatchId := s.nextMatchId + |games|);
    PairKeyUnfolds(s, key, env);
    SameCrowd(s, s1, env);
    NumberKeeps(s, |games|);
    ChosenStartable(s, key, env);
    StartAllKeeps(s1, games, env);
  }

  lemma PairKeyUnfolds(s: PoolState, key: PoolKey, env: Surroundings)
    ensures var games := Composite(env.policies, Listed(s.waiting, key), env.now, s.nextMatchId);
            PairKey(s, key, env) == StartAll(s.(nextMatchId := s.nextMatchId + |games|), games, env)
  {
    hide Composite, Listed, StartAll;
  }

  lemma SameCrowd(s: PoolState, s1: PoolState, env: Surroundings)
    requires AliveEverywhere(s, env) && s1.waiting == s.waiting && s1.pending == s.pending
    ensures AliveEverywhere(s1, env)
  {
  }

  lemma NumberKeeps(s: PoolState, n: nat)
    requires Inv(s)
    ensures Inv(s.(nextMatchId := s.nextMatchId + n)) && Account(s.(nextMatchId := s.nextMatchId + n)) == Account(s)
  {
    var after := s.(nextMatchId := s.nextMatchId + n);
    assert after.trace == s.trace + [] && Places(after) == Places(s);
    HistoryGrows(s, after, []);
  }

  lemma ChosenStartable(s: PoolState, key: PoolKey, env: Surroundings)
    requires Inv(s)
    ensures var games := Composite(env.policies, Listed(s.waiting, key), env.now, s.nextMatchId);
            AllStartable(s.(nextMatchId := s.nextMatchId + |games|), games)
  {
    var candidates := Listed(s.waiting, key);
    var games := Composite(env.policies, candidates, env.now, s.nextMatchId);
    hide *;
    CandidatesUnique(s, key);
    CompositeIsDisjoint(env.policies, candidates, env.now, s.nextMatchId);
    CompositeNumbers(env.policies, candidates, env.now, s.nextMatchId);
    NumbersAreFresh(s, games);
    NowStartable(s.(nextMatchId := s.nextMatchId + |games|), games, candidates);
  }

  lemma NowStartable(s: PoolState, games: seq<Match>, candidates: seq<Participant>)
    requires forall i :: 0 <= i < |games| ==> FreshId(s, games[i].id)
    requires forall i, j :: 0 <= i < j < |games| ==> games[i].id != games[j].id
    requires multiset(Everyone(games)) <= multiset(candidates) <= multiset(s.waiting)
    ensures AllStartable(s, games)
  {
  }

  lemma CandidatesUnique(s: PoolState, key: PoolKey)
    requires Inv(s)
    ensures Unique(multiset(Listed(s.waiting, key))) && multiset(Listed(s.waiting, key)) <= multiset(s.waiting)
  {
    ListedIsPart(s.waiting, key);
    assert multiset(Listed(s.waiting, key)) <= multiset(s.waiting) <= Places(s);
    hide Places, History, Unique, Listed;
    SubUnique(multiset(Listed(s.waiting, key)), Places(s));
  }

  lemma NumbersAreFresh(s: PoolState, games: seq<Match>)
    requires Inv(s) && IdsFrom(games, s.nextMatchId)
    ensures var s1 := s.(nextMatchId := s.nextMatchId + |games|);
            && (forall i :: 0 <= i < |games| ==> FreshId(s1, games[i].id))
            && (forall i, j :: 0 <= i < j < |games| ==> games[i].id != games[j].id)
  {
    var s1 := s.(nextMatchId := s.nextMatchId + |games|);
    hide Inv, FreshId;
    forall i | 0 <= i < |games| ensures FreshId(s1, games[i].id) {
      NewNumberIsFresh(s, s1, games[i].id);
    }
  }

  lemma NewNumberIsFresh(s: PoolState, s1: PoolState, id: nat)
    requires Inv(s) && s.nextMatchId <= id < s1.nextMatchId && s1 == s.(nextMatchId := s1.nextMatchId)
    ensures FreshId(s1, id)
  {
  }

  lemma PublishKeeps(s: PoolState, env: Surroundings)
    requires Inv(s)
    ensures Inv(Publish(s, env)) && Account(Publish(s, env)) == Account(s)
  {
    var told := Statuses(ByKey(s.waiting), env.now);
    TellBalances(s, told);
    ByKeyIn(s.waiting);
    forall e | e in told ensures !ClosedChannel(s.trace, e.p.channel) {
      assert e.p in ByKey(s.waiting);
      WaitingHasPlace(s, e.p);
    }
    hide Books, Quiet, AcceptSafe, HandledOnce, Backed, ByKey, ExitedFrom, HandedBack;
    HistoryGrows(s, Publish(s, env), told);
  }

  // ---- the whole tick ----------------------------------------------------------------------------------

  /** No deadline has passed, no memory is stale, and everyone still held is alive. */
  ghost predicate Settled(s: PoolState, env: Surroundings) {
    && AliveEverywhere(s, env)
    && (forall id :: id in s.requeued ==> env.now < s.requeued[id].until)
  }

  lemma TickOpens(s: PoolState, env: Surroundings) returns (s2: PoolState)
    requires Inv(s)
    ensures s2 == Forget(Resolve(Sweep(s, env), Sweep(s, env).pending, env), env.now)
    ensures Inv(s2) && Account(s2) == Account(s) && Settled(s2, env)
  {
    var s1 := Sweep(s, env);
    SweepKeeps(s, env);
    InvDistinct(s1);
    hide Inv, Account, Sweep, Alive, MayStay, Resolve;
    ResolveKeeps(s1, s1.pending, env);
    s2 := Forget(Resolve(s1, s1.pending, env), env.now);
    ForgetKeeps(Resolve(s1, s1.pending, env), env.now);
  }

  lemma PairAllKeeps(s: PoolState, env: Surroundings)
    requires Inv(s) && AliveEverywhere(s, env)
    ensures Inv(PairAll(s, env)) && Settles(Account(s), Account(PairAll(s, env)), multiset{})
    ensures AliveEverywhere(PairAll(s, env), env) && PairAll(s, env).requeued == s.requeued
  {
    var k0, k1, k2 := POOL_KEYS[0], POOL_KEYS[1], POOL_KEYS[2];
    var a := PairKey(s, k0, env);
    var b := PairKey(a, k1, env);
    var c := PairKey(b, k2, env);
    assert PairAll(s, env) == c;
    hide *;
    PairKeyKeeps(s, k0, env);
    PairKeyKeeps(a, k1, env);
    PairKeyKeeps(b, k2, env);
    SettlesOn(Account(s), Account(a), Account(b));
    SettlesOn(Account(s), Account(b), Account(c));
  }

  /**
    A tick keeps everything, loses nobody, and leaves a settled pool: everyone held is alive, every
    pending deadline lies ahead, and every requeue memory is still in its window.
   */
  lemma TickKeeps(s: PoolState, env: Surroundings)
    requires Inv(s)
    ensures Inv(Tick(s, env)) && Settles(Account(s), Account(Tick(s, env)), multiset{})
    ensures Settled(Tick(s, env), env)
  {
    var s2 := TickOpens(s, env);
    var s3 := PairAll(s2, env);
    assert Tick(s, env) == Publish(s3, env);
    assert AliveEverywhere(s2, env);
    hide Inv, Account, Settles, Alive, MayStay, PairAll, Sweep, Resolve, Forget, Tick;
    PairAllKeeps(s2, env);
    PublishKeeps(s3, env);
  }
}
