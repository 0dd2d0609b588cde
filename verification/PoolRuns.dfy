/** Whole runs of the pool: any calls, in any order, under any surroundings. */
module PoolRuns {
  import opened Options
  import opened QueueEntry
  import opened Participants
  import opened Pairing
  import opened PoolModel
  import opened PoolBooks
  import opened PoolTrace
  import opened PoolInvariants
  import opened PoolTicks

  datatype Call =
    | AddCall(p: Participant)
    | RemoveCall(id: string)
    | DequeueCall(id: string)
    | AcceptCall(matchId: nat, id: string)
    | DeclineCall(matchId: nat, id: string)
    | TickCall

  datatype Moment = Moment(call: Call, env: Surroundings)

  function Step(s: PoolState, m: Moment): PoolState {
    match m.call
    case AddCall(p) => Add(s, p, m.env.now).0
    case RemoveCall(id) => Remove(s, id, m.env.now)
    case DequeueCall(id) => Dequeue(s, id, m.env.now).0
    case AcceptCall(matchId, id) => Accept(s, matchId, id, m.env).0
    case DeclineCall(matchId, id) => Decline(s, matchId, id, m.env.now).0
    case TickCall => Tick(s, m.env)
  }

  /** Whom one call let in from outside: an arrival that was stored. */
  function Admitted(s: PoolState, m: Moment): multiset<Participant> {
    if m.call.AddCall? && Add(s, m.call.p, m.env.now).1.Stored? then multiset{m.call.p} else multiset{}
  }

  function Run(s: PoolState, moments: seq<Moment>): PoolState
    decreases |moments|
  {
    if moments == [] then s else Run(Step(s, moments[0]), moments[1..])
  }

  function AllAdmitted(s: PoolState, moments: seq<Moment>): multiset<Participant>
    decreases |moments|
  {
    if moments == [] then multiset{} else Admitted(s, moments[0]) + AllAdmitted(Step(s, moments[0]), moments[1..])
  }

  /** Every arrival of the run is one the pool may rely on. */
  ghost predicate Legal(s: PoolState, moments: seq<Moment>)
    decreases |moments|
  {
    moments == [] ||
    ((moments[0].call.AddCall? ==> Arrival(s, moments[0].call.p)) && Legal(Step(s, moments[0]), moments[1..]))
  }

  lemma StepKeeps(s: PoolState, m: Moment)
    requires Inv(s) && (m.call.AddCall? ==> Arrival(s, m.call.p))
    ensures Inv(Step(s, m)) && Settles(Account(s), Account(Step(s, m)), Admitted(s, m))
  {
    hide Inv, Account, Add, Accept, Decline, Tick, Withdraw, Arrival, Settled, AlreadyIn;
    SettlesSame(Account(s));
    match m.call {
      case AddCall(p) =>
        AddKeeps(s, p, m.env.now);
        SettlesEnter(Account(s), multiset{p});
      case RemoveCall(id) => WithdrawKeeps(s, id, Cancelled, Cancelled, m.env.now);
      case DequeueCall(id) => WithdrawKeeps(s, id, Dequeued, Declined, m.env.now);
      case AcceptCall(matchId, id) => AcceptKeeps(s, matchId, id, m.env);
      case DeclineCall(matchId, id) => DeclineKeeps(s, matchId, id, m.env.now);
      case TickCall => TickKeeps(s, m.env);
    }
  }

  lemma {:induction false} RunKeeps(s: PoolState, moments: seq<Moment>)
    requires Inv(s) && Legal(s, moments)
    ensures Inv(Run(s, moments)) && Settles(Account(s), Account(Run(s, moments)), AllAdmitted(s, moments))
    decreases |moments|
  {
    hide Inv, Account, Settles, Step, Admitted;
    if moments == [] {
      SettlesSame(Account(s));
    } else {
      var s1 := Step(s, moments[0]);
      StepKeeps(s, moments[0]);
      RunKeeps(s1, moments[1..]);
      SettlesThen(Account(s), Account(s1), Account(Run(s1, moments[1..])),
                  Admitted(s, moments[0]), AllAdmitted(s1, moments[1..]));
    }
  }

  // ---- what holds after any legal run from an empty pool --------------------------------------

  lemma RunFromEmpty(moments: seq<Moment>) returns (s: PoolState)
    requires Legal(EMPTY_POOL, moments)
    ensures s == Run(EMPTY_POOL, moments) && Inv(s)
    ensures Settles(Ledger(multiset{}, multiset{}), Account(s), AllAdmitted(EMPTY_POOL, moments))
  {
    hide *;
    EmptyPoolIsFine();
    RunKeeps(EMPTY_POOL, moments);
    s := Run(EMPTY_POOL, moments);
  }

  /** A user has at most one place across the store and the pending matches, and so has an id and a channel. */
  lemma OnePlacePerUser(moments: seq<Moment>, p: Participant, q: Participant)
    requires Legal(EMPTY_POOL, moments)
    requires p in Places(Run(EMPTY_POOL, moments)) && q in Places(Run(EMPTY_POOL, moments))
    requires p.userId == q.userId || p.id == q.id || p.channel == q.channel
    ensures p == q && Places(Run(EMPTY_POOL, moments))[p] == 1
  {
    hide *;
    var s := RunFromEmpty(moments);
    OnePlace(s, p, q);
  }

  lemma OnePlace(s: PoolState, p: Participant, q: Participant)
    requires Inv(s) && p in Places(s) && q in Places(s)
    requires p.userId == q.userId || p.id == q.id || p.channel == q.channel
    ensures p == q && Places(s)[p] == 1
  {
    hide Places, History, BookOk, RequeuesOk;
  }

  /** Arrivals and hand-backs are exactly those still held plus those let out, each let out once per stay. */
  lemma Conservation(moments: seq<Moment>)
    requires Legal(EMPTY_POOL, moments)
    ensures var s := Run(EMPTY_POOL, moments);
            Places(s) + ExitedFrom(s.trace) == AllAdmitted(EMPTY_POOL, moments) + HandedBack(s.trace)
  {
    hide *;
    var s := RunFromEmpty(moments);
    AccountFromNothing(s, AllAdmitted(EMPTY_POOL, moments));
  }

  lemma AccountFromNothing(s: PoolState, arrived: multiset<Participant>)
    requires Settles(Ledger(multiset{}, multiset{}), Account(s), arrived)
    ensures Places(s) + ExitedFrom(s.trace) == arrived + HandedBack(s.trace)
  {
    hide Places, ExitedFrom, HandedBack;
    var nobody: multiset<Participant> := multiset{};
    var seen := Places(s) + ExitedFrom(s.trace);
    assert seen + nobody == seen && nobody + arrived == arrived;
  }

  /**
    A match is handed over at most once, and a human match with anybody who opted in only after everyone in
    it who opted in accepted it before its deadline. Whatever the pool holds as pending is a human match
    that lacks the answer of somebody who opted in.
   */
  lemma AcceptSafety(moments: seq<Moment>)
    requires Legal(EMPTY_POOL, moments)
    ensures var s := Run(EMPTY_POOL, moments);
            && HandledOnce(s.trace) && AcceptSafe(s.trace)
            && forall pm :: pm in s.pending ==>
                 && pm.game.opponentKind.Human? && !WasHandled(s.trace, pm.game.id)
                 && exists p :: p in pm.game.participants && p.supportsAcceptStep && p.id !in pm.accepted
  {
    hide *;
    var s := RunFromEmpty(moments);
    SafeHistory(s);
  }

  lemma SafeHistory(s: PoolState)
    requires Inv(s)
    ensures Quiet(s.trace) && HandledOnce(s.trace) && AcceptSafe(s.trace)
    ensures forall pm :: pm in s.pending ==>
              && pm.game.opponentKind.Human? && !WasHandled(s.trace, pm.game.id)
              && exists p :: p in pm.game.participants && p.supportsAcceptStep && p.id !in pm.accepted
  {
    forall pm | pm in s.pending
      ensures pm.game.opponentKind.Human? && !WasHandled(s.trace, pm.game.id)
      ensures exists p :: p in pm.game.participants && p.supportsAcceptStep && p.id !in pm.accepted
    {
      assert Awaiting(pm) && Backed(s.trace, pm);
    }
  }

  /** No connection is told anything after the pool closed it. */
  lemma NothingAfterClose(moments: seq<Moment>)
    requires Legal(EMPTY_POOL, moments)
    ensures Quiet(Run(EMPTY_POOL, moments).trace)
  {
    hide *;
    var s := RunFromEmpty(moments);
    SafeHistory(s);
  }

  // ---- what a tick leaves behind -----------------------------------------------------------------

  lemma {:induction false} DropShrinks(ps: seq<Participant>, ids: set<string>)
    ensures |Drop(ps, ids)| <= |ps|
  {
    if ps != [] {
      DropShrinks(ps[1..], ids);
    }
  }

  lemma IdsJoin(a: seq<Participant>, b: seq<Participant>)
    ensures Ids(a + b) == Ids(a) + Ids(b)
  {
    assert forall p :: p in a + b <==> p in a || p in b;
  }

  /** When the handler takes every match, starting matches removes exactly their participants. */
  lemma {:induction false} StartAllTakes(s: PoolState, games: seq<Match>, env: Surroundings)
    requires env.back == {}
    ensures StartAll(s, games, env).waiting == Drop(s.waiting, Ids(Everyone(games)))
    decreases |games|
  {
    hide Drop, Keep, Start;
    if games == [] {
      DropAll(s.waiting, {});
      assert Ids(Everyone(games)) == {};
    } else {
      StartTakes(s, games[0], env);
      StartAllTakes(Start(s, games[0], env), games[1..], env);
      DropTwice(s.waiting, Ids(games[0].participants), Ids(Everyone(games[1..])));
      IdsJoin(games[0].participants, Everyone(games[1..]));
    }
  }

  lemma StartTakes(s: PoolState, game: Match, env: Surroundings)
    requires env.back == {}
    ensures Start(s, game, env).waiting == Drop(s.waiting, Ids(game.participants))
  {
    StartParts(s, game, env);
    DropAll(game.participants, {});
    hide Start, Drop, RequiresAcceptStep;
    assert Drop(s.waiting, Ids(game.participants)) + [] == Drop(s.waiting, Ids(game.participants));
  }

  /** A key that is paired off: at most one participant left, and no bot that one should have had. */
  ghost predicate PairedOff(ps: seq<Participant>, botAvailable: bool, now: int) {
    && |ps| <= 1
    && (botAvailable ==>
          forall p :: p in ps && p.botFallbackAfterMs.Some? ==>
            now - p.enqueuedAt <= ClampBotFallbackDelay(p.botFallbackAfterMs.value))
  }

  lemma RestIsPairedOff(candidates: seq<Participant>, botAvailable: bool, now: int, firstId: nat)
    requires Unique(multiset(candidates))
    ensures PairedOff(Drop(candidates, Ids(Everyone(Composite([Fifo, BotFallback(botAvailable)], candidates, now, firstId)))),
                      botAvailable, now)
  {
    var ordered := SortByArrival(candidates);
    var pairs, left := PairUp(ordered, firstId), LeftOver(ordered);
    var bots := if botAvailable then BotMatches(left, now, firstId + |candidates| / 2) else [];
    FifoThenBots(candidates, botAvailable, now, firstId);
    RestIsLeftOver(candidates, now, firstId);
    AtMostOneLeft(ordered);
    BotMatchesTakeOverdue(left, now, firstId + |candidates| / 2);
    hide *;
    EveryoneAppend(pairs, bots);
    IdsJoin(Everyone(pairs), Everyone(bots));
    DropTwice(candidates, Ids(Everyone(pairs)), Ids(Everyone(bots)));
    BotsTakeTheRest(left, bots, botAvailable, now);
  }

  lemma AtMostOneLeft(ordered: seq<Participant>)
    ensures |LeftOver(ordered)| <= 1
  {
  }

  lemma BotsTakeTheRest(left: seq<Participant>, bots: seq<Match>, botAvailable: bool, now: int)
    requires |left| <= 1
    requires botAvailable ==>
               forall p :: p in left && p.botFallbackAfterMs.Some?
                           && now - p.enqueuedAt > ClampBotFallbackDelay(p.botFallbackAfterMs.value) ==>
                 exists m :: m in bots && m.participants == [p]
    ensures PairedOff(Drop(left, Ids(Everyone(bots))), botAvailable, now)
  {
    DropShrinks(left, Ids(Everyone(bots)));
    DropIn(left, Ids(Everyone(bots)));
    if botAvailable {
      forall p | p in left && p.botFallbackAfterMs.Some? && now - p.enqueuedAt > ClampBotFallbackDelay(p.botFallbackAfterMs.value)
        ensures p.id in Ids(Everyone(bots))
      {
        var m :| m in bots && m.participants == [p];
        InEveryone(bots, m, p);
      }
    }
  }

  lemma {:induction false} InEveryone(games: seq<Match>, game: Match, p: Participant)
    requires game in games && p in game.participants
    ensures p in Everyone(games)
  {
    if games[0] != game {
      assert game in games[1..];
      InEveryone(games[1..], game, p);
    }
  }

  lemma PairKeyPairsOff(s: PoolState, key: PoolKey, env: Surroundings, botAvailable: bool)
    requires Inv(s) && env.back == {} && env.policies == [Fifo, BotFallback(botAvailable)]
    ensures PairedOff(Listed(PairKey(s, key, env).waiting, key), botAvailable, env.now)
    ensures forall other: PoolKey :: PairedOff(Listed(s.waiting, other), botAvailable, env.now)
              ==> PairedOff(Listed(PairKey(s, key, env).waiting, other), botAvailable, env.now)
  {
    hide *;
    var candidates := Listed(s.waiting, key);
    var games := Composite(env.policies, candidates, env.now, s.nextMatchId);
    var s1 := s.(nextMatchId := s.nextMatchId + |games|);
    PairKeyUnfolds(s, key, env);
    StartAllTakes(s1, games, env);
    ListedDrop(s.waiting, Ids(Everyone(games)), key);
    CandidatesUnique(s, key);
    RestIsPairedOff(candidates, botAvailable, env.now, s.nextMatchId);
    forall other: PoolKey | PairedOff(Listed(s.waiting, other), botAvailable, env.now)
      ensures PairedOff(Listed(PairKey(s, key, env).waiting, other), botAvailable, env.now)
    {
      ListedDrop(s.waiting, Ids(Everyone(games)), other);
      StaysPairedOff(Listed(s.waiting, other), Ids(Everyone(games)), botAvailable, env.now);
    }
  }

  lemma StaysPairedOff(ps: seq<Participant>, ids: set<string>, botAvailable: bool, now: int)
    requires PairedOff(ps, botAvailable, now)
    ensures PairedOff(Drop(ps, ids), botAvailable, now)
  {
    DropShrinks(ps, ids);
    DropIn(ps, ids);
  }

  /**
    With the queue's own policies and a handler that takes every match, a tick leaves each key with at
    most one participant, and, while a bot is up, with nobody whose bot delay has passed.
   */
  lemma TickPairsOff(s: PoolState, env: Surroundings, botAvailable: bool, key: PoolKey)
    requires Inv(s) && env.back == {} && env.policies == [Fifo, BotFallback(botAvailable)]
    ensures PairedOff(Listed(Tick(s, env).waiting, key), botAvailable, env.now)
  {
    var s2 := TickOpens(s, env);
    var k0, k1, k2 := POOL_KEYS[0], POOL_KEYS[1], POOL_KEYS[2];
    var a := PairKey(s2, k0, env);
    var b := PairKey(a, k1, env);
    var c := PairKey(b, k2, env);
    assert Tick(s, env).waiting == c.waiting && AliveEverywhere(s2, env);
    EveryKeyIsWalked(key);
    hide *;
    PairKeyKeeps(s2, k0, env);
    PairKeyKeeps(a, k1, env);
    PairKeyPairsOff(s2, k0, env, botAvailable);
    PairKeyPairsOff(a, k1, env, botAvailable);
    PairKeyPairsOff(b, k2, env, botAvailable);
  }

  // ---- fairness after an abandoned match --------------------------------------------------------

  ghost predicate FirstInLine(ps: seq<Participant>, p: Participant) {
    SortByArrival(ps) != [] && SortByArrival(ps)[0] == p
  }

  lemma {:induction false} InsertFirst(sorted: seq<Participant>, p: Participant)
    requires p !in sorted
    ensures Insert(sorted, p) != []
    ensures Insert(sorted, p)[0] == p <==> forall q :: q in sorted ==> p.enqueuedAt < q.enqueuedAt
  {
    if sorted != [] {
      var front, last := sorted[..|sorted| - 1], sorted[|sorted| - 1];
      assert sorted == front + [last];
      if last.enqueuedAt > p.enqueuedAt {
        InsertFirst(front, p);
      }
    }
  }

  /** The newest to wait is first in line if and only if it came in before everyone else. */
  lemma FirstExactly(ps: seq<Participant>, p: Participant)
    requires p !in ps
    ensures FirstInLine(ps + [p], p) <==> forall q :: q in ps ==> p.enqueuedAt < q.enqueuedAt
  {
    assert (ps + [p])[..|ps|] == ps;
    SortIsStableSort(ps, 0);
    assert forall q :: q in ps <==> q in multiset(ps);
    assert forall q :: q in SortByArrival(ps) <==> q in multiset(SortByArrival(ps));
    hide Insert;
    InsertFirst(SortByArrival(ps), p);
  }

  ghost predicate Opponents(pm: PendingMatch, a: Participant, b: Participant) {
    pm.game.participants == [a, b] || pm.game.participants == [b, a]
  }

  /**
    Declining takes out the decliner alone: the opponent waits again exactly as it came in, and it is
    first to be paired again if and only if it came in before everyone waiting for the same key.
   */
  lemma DeclinePutsOpponentFirst(s: PoolState, pm: PendingMatch, decliner: Participant, opponent: Participant, now: int)
    requires Inv(s) && pm in s.pending && Opponents(pm, decliner, opponent) && now < pm.deadline
    ensures Decline(s, pm.game.id, decliner.id, now).1 == DeclinedResponse
    ensures Decline(s, pm.game.id, decliner.id, now).0.waiting == s.waiting + [opponent]
    ensures !IsQueued(Decline(s, pm.game.id, decliner.id, now).0, decliner.id)
    ensures FirstInLine(Listed(s.waiting + [opponent], opponent.Key()), opponent)
            <==> forall q :: q in Listed(s.waiting, opponent.Key()) ==> opponent.enqueuedAt < q.enqueuedAt
  {
    DeclineFinds(s, pm, decliner, opponent, now);
    var s1 := Abandon(s, pm, {decliner.id}, Declined, now);
    DeclineUnfolds(s, pm, decliner, now);
    AbandonWaiting(s, pm, {decliner.id}, now);
    ListedAppend(s.waiting, [opponent], opponent.Key());
    ListedOne(opponent);
    HeldIsNotWaiting(s, pm, opponent);
    ListedIn(s.waiting, opponent.Key());
    hide *;
    WithdrawHeld(s, pm, decliner, Declined, now);
    NotQueued(s1, decliner.id);
    NotQueuedClosed(s1, decliner);
    FirstExactly(Listed(s.waiting, opponent.Key()), opponent);
  }

  lemma HeldIsNotWaiting(s: PoolState, pm: PendingMatch, p: Participant)
    requires Books(s) && pm in s.pending && p in pm.game.participants
    ensures p !in s.waiting
  {
    TakeOut(s.pending, pm);
    assert multiset(pm.game.participants)[p] >= 1;
    assert Places(s)[p] >= multiset(s.waiting)[p] + 1;
    assert p in Places(s);
  }

  lemma ListedOne(p: Participant)
    ensures Listed([p], p.Key()) == [p]
  {
    assert [p][1..] == [];
  }

  lemma NotQueuedClosed(s: PoolState, p: Participant)
    requires !IsQueued(s, p.id)
    ensures !IsQueued(Close(s, p, DeclinedProposal), p.id)
  {
  }

  lemma AbandonWaiting(s: PoolState, pm: PendingMatch, leaving: set<string>, now: int)
    ensures Abandon(s, pm, leaving, Declined, now).waiting == s.waiting + Drop(pm.game.participants, leaving)
    ensures forall p :: Close(Abandon(s, pm, leaving, Declined, now), p, DeclinedProposal).waiting
                        == s.waiting + Drop(pm.game.participants, leaving)
  {
  }

  lemma DeclineUnfolds(s: PoolState, pm: PendingMatch, decliner: Participant, now: int)
    requires LivePending(s, pm.game.id, decliner.id, now) == Some(pm)
    requires FindById(pm.game.participants, decliner.id) == Some(decliner)
    ensures Decline(s, pm.game.id, decliner.id, now)
            == (Close(Abandon(s, pm, {decliner.id}, Declined, now), decliner, DeclinedProposal), DeclinedResponse)
  {
    hide LivePending, Abandon, WasRequeuedFrom, Withdraw;
  }

  lemma NotQueued(s: PoolState, id: string)
    requires forall q :: q in Places(s) ==> q.id != id
    ensures !IsQueued(s, id)
  {
    if FindById(s.waiting, id).Some? {
      WaitingHasPlace(s, FindById(s.waiting, id).value);
    } else if PendingOfId(s.pending, id).Some? {
      var pm := PendingOfId(s.pending, id).value;
      PendingHasPlace(s, pm, FindById(pm.game.participants, id).value);
    }
  }

  lemma DeclineFinds(s: PoolState, pm: PendingMatch, decliner: Participant, opponent: Participant, now: int)
    requires Inv(s) && pm in s.pending && Opponents(pm, decliner, opponent) && now < pm.deadline
    ensures pm in s.pending && decliner in pm.game.participants && opponent in pm.game.participants
    ensures LivePending(s, pm.game.id, decliner.id, now) == Some(pm)
    ensures FindById(pm.game.participants, decliner.id) == Some(decliner)
    ensures Drop(pm.game.participants, {decliner.id}) == [opponent]
  {
    GameUnique(s, pm);
    OneOccurrence(pm.game.participants, 0, 1);
    hide Unique, History;
    SameGame(s.pending, PendingById(s.pending, pm.game.id).value, pm);
    DropTheOther(decliner, opponent);
  }

  lemma DropTheOther(p: Participant, q: Participant)
    requires p.id != q.id
    ensures Drop([p, q], {p.id}) == [q] && Drop([q, p], {p.id}) == [q]
  {
    assert [p, q] == [p] + [q] && [q, p] == [q] + [p];
    DropAppend([p], [q], {p.id});
    DropAppend([q], [p], {p.id});
    DropAll([p], {p.id});
    DropAll([q], {p.id});
  }

  // ---- depth -------------------------------------------------------------------------------------------

  /** Everyone waiting is counted for exactly one format, the one it asked for. */
  lemma DepthsAddUp(s: PoolState)
    ensures Depth(s, Tcg) + Depth(s, Jtp) + Depth(s, Edison) == |s.waiting|
    ensures forall format: Format :: Depth(s, format) == 0 <==> forall p :: p in s.waiting ==> p.format != format
  {
    ListingsAddUp(s.waiting);
    forall format: Format ensures Depth(s, format) == 0 <==> forall p :: p in s.waiting ==> p.format != format {
      ListedIn(s.waiting, PoolKey(format, Ranked));
      OneMode(s.waiting);
      hide Listed;
      var listed := Listed(s.waiting, PoolKey(format, Ranked));
      assert |listed| == 0 || listed[0] in listed;
    }
  }

  lemma OneMode(ps: seq<Participant>)
    ensures forall p, format :: p in ps ==> (p.Key() == PoolKey(format, Ranked) <==> p.format == format)
  {
    forall p | p in ps ensures p.mode == Ranked {
      match p.mode { case Ranked => }
    }
  }

  lemma {:induction false} ListingsAddUp(ps: seq<Participant>)
    ensures |Listed(ps, PoolKey(Tcg, Ranked))| + |Listed(ps, PoolKey(Jtp, Ranked))| + |Listed(ps, PoolKey(Edison, Ranked))| == |ps|
  {
    if ps != [] {
      ListingsAddUp(ps[1..]);
      match ps[0].format { case Tcg => case Jtp => case Edison => }
      assert ps[0].mode == Ranked;
    }
  }
}
