/**
  Who leaves, and why: each call logs an exit for exactly the participants it must let out, with the
  outcome that fits, and closes exactly the connections it must close. Everyone else stays.
 */
module PoolReasons {
  import opened Options
  import opened QueueEntry
  import opened Participants
  import opened Pairing
  import opened PoolModel
  import opened PoolBooks
  import opened PoolTrace
  import opened PoolInvariants
  import opened PoolTicks
  import opened PoolLoops
  import opened PoolEffects
  import opened PoolRuns

  // ---- reasons ------------------------------------------------------------------------------------

  function Left(p: Participant, outcome: Outcome, now: int): Event {
    Exited(p, outcome, now - p.enqueuedAt)
  }

  function Kind(game: Match): Outcome {
    if game.opponentKind.Bot? then MatchedBot else MatchedHuman
  }

  predicate IsMatch(outcome: Outcome) {
    outcome.MatchedHuman? || outcome.MatchedBot?
  }

  /** A match with this participant was handed over, and was of the kind the outcome names. */
  ghost predicate SeatedIn(news: seq<Event>, p: Participant, outcome: Outcome) {
    exists e :: e in news && e.Handled? && p in e.game.participants && outcome == Kind(e.game)
  }

  /** The window is over, everyone in the match is alive, and this participant has not accepted. */
  ghost predicate Late(pm: PendingMatch, env: Surroundings, p: Participant) {
    p in pm.game.participants && p.id !in pm.accepted && pm.deadline <= env.now && Alive(pm.game.participants, env.dead)
  }

  ghost predicate TimedOut(book: seq<PendingMatch>, env: Surroundings, p: Participant) {
    exists pm :: pm in book && Late(pm, env, p)
  }

  /** The match is pending, its window is open, and somebody in it has this id. */
  ghost predicate MayAnswer(s: PoolState, matchId: nat, id: string, now: int) {
    exists pm, p :: pm in s.pending && pm.game.id == matchId && now < pm.deadline && p in pm.game.participants && p.id == id
  }

  /** The pool remembers putting this id back from the match, and the match's window is open. */
  ghost predicate Remembered(s: PoolState, matchId: nat, id: string, now: int) {
    matchId in s.requeued && now < s.requeued[matchId].until && id in s.requeued[matchId].ids
  }

  /** Everyone else in the match has answered. */
  ghost predicate OthersAccepted(pm: PendingMatch, id: string) {
    forall q :: q in pm.game.participants ==> q.id == id || q.id in pm.accepted
  }

  /** This ACCEPT is the last one the participant's match waited for. */
  ghost predicate Completes(s: PoolState, matchId: nat, id: string, now: int, p: Participant) {
    && MayAnswer(s, matchId, id, now)
    && exists pm :: pm in s.pending && pm.game.id == matchId && OthersAccepted(pm, id) && p in pm.game.participants
  }

  /** The DECLINE is for a match that is pending, or was until the opponent left. */
  ghost predicate MayDecline(s: PoolState, matchId: nat, id: string, now: int) {
    MayAnswer(s, matchId, id, now) || Remembered(s, matchId, id, now)
  }

  lemma LiveMeans(s: PoolState, matchId: nat, id: string, now: int)
    requires Inv(s)
    ensures LivePending(s, matchId, id, now).Some? <==> MayAnswer(s, matchId, id, now)
    ensures forall pm :: pm in s.pending && pm.game.id == matchId && MayAnswer(s, matchId, id, now) ==>
              LivePending(s, matchId, id, now) == Some(pm)
    ensures WasRequeuedFrom(s, matchId, id, now) <==> Remembered(s, matchId, id, now)
  {
    var found := PendingById(s.pending, matchId);
    assert DistinctGames(s.pending);
    hide Inv, DistinctGames, FindById, PendingById;
    forall pm | pm in s.pending && pm.game.id == matchId ensures found == Some(pm) {
      SameGame(s.pending, found.value, pm);
    }
  }

  lemma CompletesMeans(s: PoolState, matchId: nat, id: string, now: int, p: Participant)
    requires Inv(s)
    ensures var live := LivePending(s, matchId, id, now);
            Completes(s, matchId, id, now, p)
            <==> live.Some? && FullyAccepted(live.value.(accepted := live.value.accepted + {id})) && p in live.value.game.participants
  {
    var live := LivePending(s, matchId, id, now);
    LiveMeans(s, matchId, id, now);
    if live.Some? {
      LiveIsPending(s, matchId, id, now);
      OthersMeans(live.value, id);
    }
    hide Inv, LivePending, MayAnswer, FullyAccepted, OthersAccepted;
  }

  lemma OthersMeans(pm: PendingMatch, id: string)
    ensures FullyAccepted(pm.(accepted := pm.accepted + {id})) <==> OthersAccepted(pm, id)
  {
  }

  /** Whom a call lets out of the places there were, and as what. */
  ghost predicate Leaves(s: PoolState, m: Moment, p: Participant, outcome: Outcome) {
    match m.call
    case AddCall(q) => q.presence.Socket? && p.userId == q.userId && outcome.Replaced?
    case RemoveCall(id) => p.id == id && outcome.Cancelled?
    case DequeueCall(id) => p.id == id && outcome == if p in s.waiting then Dequeued else Outcome.Declined
    case AcceptCall(matchId, id) => Completes(s, matchId, id, m.env.now, p) && outcome.MatchedHuman?
    case DeclineCall(matchId, id) => p.id == id && MayDecline(s, matchId, id, m.env.now) && outcome.Declined?
    case TickCall =>
      match outcome
      case Expired => p.channel in m.env.dead
      case AcceptTimeout => TimedOut(s.pending, m.env, p)
      case MatchedHuman => SeatedIn(News(s, Step(s, m)), p, outcome)
      case MatchedBot => SeatedIn(News(s, Step(s, m)), p, outcome)
      case _ => false
  }

  /** Whose connection a call closes. Leaving on one's own account closes nothing. */
  ghost predicate IsClosed(s: PoolState, m: Moment, p: Participant, reason: CloseReason) {
    match m.call
    case AddCall(q) => q.presence.Socket? && p.userId == q.userId && reason.ReplacedByNewConnection?
    case DeclineCall(matchId, id) => p.id == id && MayDecline(s, matchId, id, m.env.now) && reason.DeclinedProposal?
    case TickCall => TimedOut(s.pending, m.env, p) && reason.AcceptTimedOut?
    case _ => false
  }

  /** The events this module is about. */
  predicate Notable(e: Event) {
    e.Exited? || e.Closed? || e.Handled?
  }

  // ---- what lists of events say ---------------------------------------------------------------------

  lemma ExitsSay(ps: seq<Participant>, outcome: Outcome, now: int)
    ensures forall e :: e in Exits(ps, outcome, now) <==> e.Exited? && e.p in ps && e == Left(e.p, outcome, now)
  {
    forall e: Event | e.Exited? && e.p in ps && e == Left(e.p, outcome, now) ensures e in Exits(ps, outcome, now) {
      var i :| 0 <= i < |ps| && ps[i] == e.p;
      assert Exits(ps, outcome, now)[i] == e;
    }
  }

  lemma ClosesSay(ps: seq<Participant>, reason: CloseReason)
    ensures forall e :: e in Closes(ps, reason) <==> e.Closed? && e.p in ps && e == Closed(e.p, reason)
  {
    forall e: Event | e.Closed? && e.p in ps && e == Closed(e.p, reason) ensures e in Closes(ps, reason) {
      var i :| 0 <= i < |ps| && ps[i] == e.p;
      assert Closes(ps, reason)[i] == e;
    }
  }

  lemma OthersSayNothing(ps: seq<Participant>, matchId: nat, now: int)
    ensures forall e :: e in Statuses(ps, now) || e in Founds(ps, matchId) || e in Proposals(ps, matchId) ==> !Notable(e)
  {
    hide OptedIn;
  }

  lemma NewsAre(s: PoolState, after: PoolState, more: seq<Event>)
    requires after.trace == s.trace + more
    ensures s.trace <= after.trace && News(s, after) == more
  {
  }

  // ---- the sweep --------------------------------------------------------------------------------------

  ghost predicate SweptOut(s: PoolState, env: Surroundings, e: Event) {
    e.Exited? && e.p in s.waiting && e.p.channel in env.dead && e == Left(e.p, Expired, env.now)
  }

  lemma SweepSays(s: PoolState, env: Surroundings, e: Event)
    requires Unique(multiset(s.waiting))
    ensures s.trace <= Sweep(s, env).trace && (e in News(s, Sweep(s, env)) <==> SweptOut(s, env, e))
  {
    var ids := DeadIds(s.waiting, env.dead);
    var gone := Keep(ByKey(s.waiting), ids);
    LeaveTells(s, gone, Expired, env.now);
    NewsAre(s, Sweep(s, env), Exits(gone, Expired, env.now));
    hide News, DeadIds, Keep, ByKey, Unique, Exits;
    ExitsSay(gone, Expired, env.now);
    KeepIn(ByKey(s.waiting), ids);
    ByKeyIn(s.waiting);
    if e.Exited? && e.p in s.waiting {
      DeadById(s.waiting, e.p, env.dead);
    }
  }

  // ---- pending matches ----------------------------------------------------------------------------------

  /** Somebody dead, or too late, leaves; whoever is too late is closed as well. */
  ghost predicate LetOut(pm: PendingMatch, env: Surroundings, e: Event) {
    || (e.Exited? && e.p in pm.game.participants && e.p.channel in env.dead && e == Left(e.p, Expired, env.now))
    || (e.Exited? && Late(pm, env, e.p) && e == Left(e.p, AcceptTimeout, env.now))
    || (e.Closed? && Late(pm, env, e.p) && e == Closed(e.p, AcceptTimedOut))
  }

  lemma ResolveOneSays(s: PoolState, pm: PendingMatch, env: Surroundings, e: Event)
    requires Unique(multiset(pm.game.participants)) && Notable(e)
    ensures s.trace <= ResolveOne(s, pm, env).trace
    ensures e in News(s, ResolveOne(s, pm, env)) <==> LetOut(pm, env, e)
  {
    var ps := pm.game.participants;
    var gone, late := DeadIds(ps, env.dead), Drop(ps, pm.accepted);
    ResolveOneCases(s, pm, env);
    NobodyDead(ps, env.dead);
    hide Alive, ResolveOne, Abandon, DeadIds, Keep, Drop, Unique;
    if gone != {} {
      AbandonSays(s, pm, gone, Expired, env.now, e);
      if e.Exited? && e.p in ps {
        DeadById(ps, e.p, env.dead);
      }
    } else if env.now < pm.deadline {
      NewsAre(s, s, []);
      if e.Exited? && e.p in ps && e.p.channel in env.dead {
        assert false by { DeadById(ps, e.p, env.dead); }
      }
    } else {
      LateSays(s, pm, env, e);
    }
  }

  lemma AbandonSays(s: PoolState, pm: PendingMatch, leaving: set<string>, outcome: Outcome, now: int, e: Event)
    requires Notable(e)
    ensures s.trace <= Abandon(s, pm, leaving, outcome, now).trace
    ensures e in News(s, Abandon(s, pm, leaving, outcome, now)) <==>
            e.Exited? && e.p in pm.game.participants && e.p.id in leaving && e == Left(e.p, outcome, now)
  {
    var gone, stay := Keep(pm.game.participants, leaving), Drop(pm.game.participants, leaving);
    AbandonTells(s, pm, leaving, outcome, now);
    hide *;
    NewsAre(s, Abandon(s, pm, leaving, outcome, now), Exits(gone, outcome, now) + Statuses(stay, now));
    ExitsSay(gone, outcome, now);
    OthersSayNothing(stay, 0, now);
    KeepIn(pm.game.participants, leaving);
  }

  lemma LateSays(s: PoolState, pm: PendingMatch, env: Surroundings, e: Event)
    requires Notable(e) && Alive(pm.game.participants, env.dead) && pm.deadline <= env.now
    ensures var late := Drop(pm.game.participants, pm.accepted);
            var s1 := Abandon(s, pm, Ids(late), AcceptTimeout, env.now);
            var after := s1.(trace := s1.trace + Closes(late, AcceptTimedOut));
            s.trace <= after.trace && (e in News(s, after) <==> LetOut(pm, env, e))
  {
    var ps := pm.game.participants;
    var late := Drop(ps, pm.accepted);
    var s1 := Abandon(s, pm, Ids(late), AcceptTimeout, env.now);
    var after := s1.(trace := s1.trace + Closes(late, AcceptTimedOut));
    DropIn(ps, pm.accepted);
    assert forall p :: p in ps ==> (p.id in Ids(late) <==> p.id !in pm.accepted);
    assert forall p :: p in ps ==> p.channel !in env.dead;
    hide Abandon, News, Drop, Alive, Ids, Closes;
    AbandonSays(s, pm, Ids(late), AcceptTimeout, env.now, e);
    NewsAre(s1, after, Closes(late, AcceptTimedOut));
    ClosesSay(late, AcceptTimedOut);
    NewsThen(s, s1, after);
  }

  ghost predicate AnyLetsOut(todo: seq<PendingMatch>, env: Surroundings, e: Event) {
    exists pm :: pm in todo && LetOut(pm, env, e)
  }

  lemma {:induction false} ResolveSays(s: PoolState, todo: seq<PendingMatch>, env: Surroundings, e: Event)
    requires (forall pm :: pm in todo ==> Unique(multiset(pm.game.participants))) && Notable(e)
    ensures s.trace <= Resolve(s, todo, env).trace
    ensures e in News(s, Resolve(s, todo, env)) <==> AnyLetsOut(todo, env, e)
    decreases |todo|
  {
    if todo == [] {
      NewsAre(s, s, []);
    } else {
      var s1 := ResolveOne(s, todo[0], env);
      var s2 := Resolve(s1, todo[1..], env);
      assert Resolve(s, todo, env) == s2;
      assert todo == [todo[0]] + todo[1..];
      assert AnyLetsOut(todo, env, e) <==> LetOut(todo[0], env, e) || AnyLetsOut(todo[1..], env, e);
      hide *;
      ResolveOneSays(s, todo[0], env, e);
      ResolveSays(s1, todo[1..], env, e);
      NewsThen(s, s1, s2);
    }
  }

  // ---- matches ----------------------------------------------------------------------------------------

  /** Exits come with a match handed over and the other way round, nobody is closed, and only the living are seated. */
  ghost predicate Seats(s: PoolState, news: seq<Event>, env: Surroundings) {
    && (forall e :: e in news && e.Exited? ==> e == Left(e.p, e.outcome, env.now) && SeatedIn(news, e.p, e.outcome))
    && (forall e, p :: e in news && e.Handled? && p in e.game.participants ==> Left(p, Kind(e.game), env.now) in news)
    && (forall e :: e in news ==> !e.Closed?)
    && (forall e, p :: e in news && e.Handled? && p in e.game.participants ==> p in Places(s) && p.channel !in env.dead)
  }

  lemma NothingSeats(s: PoolState, news: seq<Event>, env: Surroundings)
    requires forall e :: e in news ==> !Notable(e)
    ensures Seats(s, news, env)
  {
  }

  lemma SeatsThen(s: PoolState, s1: PoolState, s2: PoolState, env: Surroundings)
    requires s.trace <= s1.trace && s1.trace <= s2.trace
    requires Seats(s, News(s, s1), env) && Seats(s1, News(s1, s2), env)
    requires forall p :: p in Places(s1) ==> p in Places(s)
    ensures s.trace <= s2.trace && Seats(s, News(s, s2), env)
  {
    var a, b, c := News(s, s1), News(s1, s2), News(s, s2);
    NewsThen(s, s1, s2);
    hide News, Places;
    forall e | e in c && e.Exited? ensures e == Left(e.p, e.outcome, env.now) && SeatedIn(c, e.p, e.outcome) {
      if e in a {
        assert SeatedIn(a, e.p, e.outcome);
      } else {
        assert SeatedIn(b, e.p, e.outcome);
      }
    }
  }

  lemma StartSeats(s: PoolState, game: Match, env: Surroundings)
    requires Inv(s) && Startable(s, game) && Alive(s.waiting, env.dead)
    ensures s.trace <= Start(s, game, env).trace && Seats(s, News(s, Start(s, game, env)), env)
  {
    var after := Start(s, game, env);
    StartIs(s, game, env);
    StartableParts(s, game);
    if RequiresAcceptStep(game) {
      hide *;
      ProposeSeats(s, game, env);
    } else {
      StartableUnique(s, game);
      assert forall p :: p in game.participants ==> p in Places(s) && p.channel !in env.dead;
      hide *;
      SeatSeats(s, game, env);
    }
  }

  lemma ProposeSeats(s: PoolState, game: Match, env: Surroundings)
    ensures var after := Propose(s, game, env.now);
            s.trace <= after.trace && Seats(s, News(s, after), env)
  {
    var after := Propose(s, game, env.now);
    var more := [Proposed(game, env.now)] + Proposals(game.participants, game.id);
    ProposeIs(s, game, env.now);
    assert after.trace == s.trace + more;
    hide Propose, Proposals, News, Seats;
    NewsAre(s, after, more);
    OthersSayNothing(game.participants, game.id, env.now);
    NothingSeats(s, more, env);
  }

  lemma SeatSeats(s: PoolState, game: Match, env: Surroundings)
    requires forall p :: p in game.participants ==> p in Places(s) && p.channel !in env.dead
    ensures s.trace <= Seat(s, game, env).trace && Seats(s, News(s, Seat(s, game, env)), env)
  {
    var back, told := Keep(game.participants, env.back), Keep(game.participants, env.told);
    var exits := Exits(game.participants, Kind(game), env.now);
    var founds := Founds(told, game.id);
    SeatTells(s, game, env);
    hide *;
    NewsAre(s, Seat(s, game, env), exits + [Handled(game, back)] + founds);
    ExitsSay(game.participants, Kind(game), env.now);
    OthersSayNothing(told, game.id, env.now);
    OneSeated(s, game, env, exits, back, founds);
  }

  lemma SeatTells(s: PoolState, game: Match, env: Surroundings)
    ensures Seat(s, game, env).trace == s.trace + (Exits(game.participants, Kind(game), env.now)
                                                   + [Handled(game, Keep(game.participants, env.back))]
                                                   + Founds(Keep(game.participants, env.told), game.id))
  {
    hide Exits, Founds, Keep;
  }

  lemma OneSeated(s: PoolState, game: Match, env: Surroundings, exits: seq<Event>, back: seq<Participant>, founds: seq<Event>)
    requires forall p :: p in game.participants ==> p in Places(s) && p.channel !in env.dead
    requires forall e :: e in exits <==> e.Exited? && e.p in game.participants && e == Left(e.p, Kind(game), env.now)
    requires forall e :: e in founds ==> !Notable(e)
    ensures Seats(s, exits + [Handled(game, back)] + founds, env)
  {
    var handed := Handled(game, back);
    var news := exits + [handed] + founds;
    hide Places, Kind;
    assert handed in news;
    forall e | e in news && e.Exited? ensures e == Left(e.p, e.outcome, env.now) && SeatedIn(news, e.p, e.outcome) {
      assert e in exits && e.p in handed.game.participants && e.outcome == Kind(handed.game);
    }
    forall p | p in game.participants ensures Left(p, Kind(game), env.now) in news {
      assert Left(p, Kind(game), env.now) in exits;
    }
  }

  lemma {:induction false} StartAllSeats(s: PoolState, games: seq<Match>, env: Surroundings)
    requires Inv(s) && AllStartable(s, games) && AliveEverywhere(s, env)
    ensures s.trace <= StartAll(s, games, env).trace && Seats(s, News(s, StartAll(s, games, env)), env)
    decreases |games|
  {
    if games == [] {
      NewsAre(s, s, []);
      StartNothing(s, env);
      NothingSeats(s, [], env);
    } else {
      var s1 := Start(s, games[0], env);
      var s2 := StartAll(s1, games[1..], env);
      StartAllUnfolds(s, games, env);
      RestStartable(s, games, env);
      StillAlive(s, s1, games[0], env);
      assert Alive(s.waiting, env.dead);
      hide *;
      StartSeats(s, games[0], env);
      StartKeeps(s, games[0], env);
      StartAllSeats(s1, games[1..], env);
      StartEffect(s, games[0], env);
      EffectHolds(s, s1, env);
      SeatsThen(s, s1, s2, env);
    }
  }

  lemma EffectHolds(s: PoolState, after: PoolState, env: Surroundings)
    requires Effect(s, after, env)
    ensures forall p :: p in Places(after) ==> p in Places(s)
  {
  }

  lemma PairKeySeats(s: PoolState, key: PoolKey, env: Surroundings)
    requires Inv(s) && AliveEverywhere(s, env)
    ensures s.trace <= PairKey(s, key, env).trace && Seats(s, News(s, PairKey(s, key, env)), env)
    ensures Inv(PairKey(s, key, env)) && AliveEverywhere(PairKey(s, key, env), env)
    ensures forall p :: p in Places(PairKey(s, key, env)) ==> p in Places(s)
  {
    hide *;
    PairKeyKeeps(s, key, env);
    PairKeyEffect(s, key, env);
    EffectHolds(s, PairKey(s, key, env), env);
    var s1, games := PairKeyOpens(s, key, env);
    SameCrowd(s, s1, env);
    StartAllSeats(s1, games, env);
    Renumbered(s, s1, StartAll(s1, games, env), env);
  }

  lemma Renumbered(s: PoolState, s1: PoolState, after: PoolState, env: Surroundings)
    requires s1 == s.(nextMatchId := s1.nextMatchId)
    requires s1.trace <= after.trace && Seats(s1, News(s1, after), env)
    ensures s.trace <= after.trace && Seats(s, News(s, after), env)
  {
    assert Places(s1) == Places(s);
  }

  lemma PairAllSeats(s: PoolState, env: Surroundings)
    requires Inv(s) && AliveEverywhere(s, env)
    ensures s.trace <= PairAll(s, env).trace && Seats(s, News(s, PairAll(s, env)), env)
  {
    var k0, k1, k2 := POOL_KEYS[0], POOL_KEYS[1], POOL_KEYS[2];
    var a := PairKey(s, k0, env);
    var b := PairKey(a, k1, env);
    var c := PairKey(b, k2, env);
    PairAllIs(s, env);
    hide *;
    PairKeySeats(s, k0, env);
    PairKeySeats(a, k1, env);
    PairKeySeats(b, k2, env);
    SeatsThen(s, a, b, env);
    SeatsThen(s, b, c, env);
  }

  // ---- the whole tick -----------------------------------------------------------------------------------

  /** A tick says what the sweep, the pending matches and the matches handed over each make it say. */
  lemma TickSays(s: PoolState, env: Surroundings) returns (paired: seq<Event>)
    requires Inv(s)
    ensures s.trace <= Tick(s, env).trace && Seats(s, paired, env)
    ensures var s2 := Forget(Resolve(Sweep(s, env), Sweep(s, env).pending, env), env.now);
            Inv(s2) && paired == News(s2, PairAll(s2, env))
    ensures forall e :: Notable(e) ==>
              (e in News(s, Tick(s, env)) <==> SweptOut(s, env, e) || AnyLetsOut(s.pending, env, e) || e in paired)
  {
    var s1 := Sweep(s, env);
    var r := Resolve(s1, s1.pending, env);
    var s2 := TickOpens(s, env);
    var s3 := PairAll(s2, env);
    var s4 := Publish(s3, env);
    TickIs(s, env);
    PublishIs(s3, env);
    assert s2.trace == r.trace && AliveEverywhere(s2, env);
    UniqueBooks(s);
    SweepKeeps(s, env);
    hide *;
    PairAllSeats(s2, env);
    OpeningPlain(s, env);
    PlainHolds(s, s2);
    paired := News(s2, s3);
    SeatsEarlier(s, s2, paired, env);
    var said := Statuses(ByKey(s3.waiting), env.now);
    NewsAre(s3, s4, said);
    OthersSayNothing(ByKey(s3.waiting), 0, env.now);
    forall e | Notable(e) ensures s.trace <= s4.trace
                          ensures e in News(s, s4) <==> SweptOut(s, env, e) || AnyLetsOut(s.pending, env, e) || e in paired {
      SweepSays(s, env, e);
      ResolveSays(s1, s1.pending, env, e);
      NewsThen(s, s1, r);
      SameNewsThen(s, r, s2);
      NewsThen(s, s2, s3);
      NewsThen(s, s3, s4);
    }
    TraceGrows(s, s2, s3, s4);
  }

  lemma UniqueBooks(s: PoolState)
    requires Inv(s)
    ensures Unique(multiset(s.waiting)) && forall pm :: pm in s.pending ==> Unique(multiset(pm.game.participants))
  {
    SubUnique(multiset(s.waiting), Places(s));
    forall pm | pm in s.pending ensures Unique(multiset(pm.game.participants)) {
      GameUnique(s, pm);
    }
  }

  lemma PlainHolds(s: PoolState, after: PoolState)
    requires Plain(s, after, {})
    ensures s.trace <= after.trace && forall p :: p in Places(after) ==> p in Places(s)
  {
  }

  lemma SeatsEarlier(s: PoolState, s2: PoolState, news: seq<Event>, env: Surroundings)
    requires Seats(s2, news, env) && forall p :: p in Places(s2) ==> p in Places(s)
    ensures Seats(s, news, env)
  {
    hide Places;
  }

  lemma SameNewsThen(s: PoolState, r: PoolState, s2: PoolState)
    requires s2.trace == r.trace && s.trace <= r.trace
    ensures s.trace <= s2.trace && News(s, s2) == News(s, r)
  {
  }

  lemma TraceGrows(s: PoolState, s2: PoolState, s3: PoolState, s4: PoolState)
    requires s.trace <= s2.trace && s2.trace <= s3.trace && s3.trace <= s4.trace
    ensures s.trace <= s4.trace
  {
  }

  // ---- the other calls ------------------------------------------------------------------------------------

  predicate Leaving(e: Event) {
    e.Exited? || e.Closed?
  }

  lemma PlaceIs(s: PoolState, p: Participant)
    ensures p in Places(s) <==> p in s.waiting || exists pm :: pm in s.pending && p in pm.game.participants
  {
    InPendingIn(s.pending);
    if p in InPending(s.pending) {
      var pm := InPendingFrom(s.pending, p);
    }
  }

  /** Two places with one user or one id are the same. */
  lemma SamePlace(s: PoolState, p: Participant, q: Participant)
    requires Inv(s) && p in Places(s) && q in Places(s) && (p.id == q.id || p.userId == q.userId)
    ensures p == q
  {
    OnePlace(s, p, q);
  }

  lemma LeaveOneSays(s: PoolState, p: Participant, outcome: Outcome, now: int, e: Event)
    ensures var after := Leave(s, [p], outcome, now);
            s.trace <= after.trace && (e in News(s, after) <==> e == Left(p, outcome, now))
  {
    LeaveTells(s, [p], outcome, now);
    hide *;
    NewsAre(s, Leave(s, [p], outcome, now), Exits([p], outcome, now));
    ExitsSay([p], outcome, now);
    assert forall q :: q in [p] <==> q == p;
    assert Left(p, outcome, now).Exited? && Left(p, outcome, now).p == p by {
      LeftIs(p, outcome, now);
    }
  }

  lemma LeftIs(p: Participant, outcome: Outcome, now: int)
    ensures Left(p, outcome, now) == Exited(p, outcome, now - p.enqueuedAt)
  {
  }

  lemma CloseSays(s: PoolState, s1: PoolState, p: Participant, reason: CloseReason, e: Event)
    requires s.trace <= s1.trace
    ensures var after := Close(s1, p, reason);
            s.trace <= after.trace && (e in News(s, after) <==> e in News(s, s1) || e == Closed(p, reason))
  {
    NewsAre(s1, Close(s1, p, reason), [Closed(p, reason)]);
    hide News;
    NewsThen(s, s1, Close(s1, p, reason));
  }

  lemma WithdrawSays(s: PoolState, id: string, fromStore: Outcome, fromPending: Outcome, now: int, e: Event)
    requires Inv(s) && Leaving(e)
    ensures var after := Withdraw(s, id, fromStore, fromPending, now).0;
            && s.trace <= after.trace
            && (e in News(s, after) <==>
                  e.Exited? && e.p in Places(s) && e.p.id == id
                  && e == Left(e.p, if e.p in s.waiting then fromStore else fromPending, now))
  {
    var queued, held := FindById(s.waiting, id), PendingOfId(s.pending, id);
    assert Notable(e);
    hide *;
    WithdrawCases(s, id, fromStore, fromPending, now);
    if e.Exited? {
      PlaceIs(s, e.p);
    }
    if queued.Some? {
      LeaveOneSays(s, queued.value, fromStore, now, e);
      WaitingHasPlace(s, queued.value);
      if e.Exited? && e.p in Places(s) && e.p.id == id {
        SamePlace(s, e.p, queued.value);
      }
    } else if held.Some? {
      AbandonSays(s, held.value, {id}, fromPending, now, e);
      if e.Exited? && e.p in Places(s) && e.p.id == id {
        var q := FindById(held.value.game.participants, id).value;
        PendingHasPlace(s, held.value, q);
        SamePlace(s, e.p, q);
      }
    } else {
      NewsAre(s, s, []);
      NobodyWithId(s, id);
    }
  }

  lemma AddSays(s: PoolState, q: Participant, now: int, e: Event)
    requires Inv(s) && Leaving(e)
    ensures var after := Add(s, q, now).0;
            && s.trace <= after.trace
            && (e in News(s, after) <==>
                  && q.presence.Socket? && e.p in Places(s) && e.p.userId == q.userId
                  && (e == Left(e.p, Replaced, now) || e == Closed(e.p, ReplacedByNewConnection)))
  {
    var queued, held := FindByUser(s.waiting, q.userId), PendingOfUser(s.pending, q.userId);
    AddCases(s, q, now);
    AlreadyInFinds(s, q.userId);
    PlaceIs(s, e.p);
    assert Notable(e);
    if (queued.None? && held.None?) || q.presence.Poll? {
      NewsAre(s, s, []);
      NewsAre(s, Add(s, q, now).0, []);
      hide Add, Places, News, Inv;
    } else {
      hide Add, Places, News, Inv, Leave, Abandon, Close;
      if queued.Some? {
        var x := queued.value;
        var s1 := Leave(s, [x], Replaced, now);
        LeaveOneSays(s, x, Replaced, now, e);
        WaitingHasPlace(s, x);
        ReplacedSays(s, s1, x, q, now, e);
      } else {
        var x := FindByUser(held.value.game.participants, q.userId).value;
        var s1 := Abandon(s, held.value, {x.id}, Replaced, now);
        HeldLeaves(s, held.value, x, now, e);
        ReplacedSays(s, s1, x, q, now, e);
      }
    }
  }

  lemma HeldLeaves(s: PoolState, pm: PendingMatch, x: Participant, now: int, e: Event)
    requires Inv(s) && Leaving(e) && pm in s.pending && x in pm.game.participants
    ensures var s1 := Abandon(s, pm, {x.id}, Replaced, now);
            x in Places(s) && s.trace <= s1.trace && (e in News(s, s1) <==> e == Left(x, Replaced, now))
  {
    LeftIs(x, Replaced, now);
    assert Notable(e);
    hide Inv, Places, News, Abandon;
    AbandonSays(s, pm, {x.id}, Replaced, now, e);
    PendingHasPlace(s, pm, x);
    if e.Exited? && e.p in pm.game.participants && e.p.id == x.id {
      PendingHasPlace(s, pm, e.p);
      SamePlace(s, e.p, x);
    }
  }

  lemma ReplacedSays(s: PoolState, s1: PoolState, x: Participant, q: Participant, now: int, e: Event)
    requires Inv(s) && Leaving(e) && x in Places(s) && x.userId == q.userId
    requires s.trace <= s1.trace && (e in News(s, s1) <==> e == Left(x, Replaced, now))
    ensures var after := PoolReturns.Back(Close(s1, x, ReplacedByNewConnection), q);
            && s.trace <= after.trace
            && (e in News(s, after) <==>
                  e.p in Places(s) && e.p.userId == q.userId
                  && (e == Left(e.p, Replaced, now) || e == Closed(e.p, ReplacedByNewConnection)))
  {
    var s2 := Close(s1, x, ReplacedByNewConnection);
    assert PoolReturns.Back(s2, q).trace == s2.trace;
    LeftIs(x, Replaced, now);
    hide Close, News, Places, Inv;
    CloseSays(s, s1, x, ReplacedByNewConnection, e);
    SameNewsThen(s, s2, PoolReturns.Back(s2, q));
    if e.p in Places(s) && e.p.userId == q.userId {
      SamePlace(s, e.p, x);
    }
  }

  lemma AcceptSays(s: PoolState, matchId: nat, id: string, env: Surroundings, e: Event)
    requires Inv(s) && Leaving(e)
    ensures var after := Accept(s, matchId, id, env).0;
            && s.trace <= after.trace
            && (e in News(s, after) <==>
                  e.Exited? && e.p in Places(s) && Completes(s, matchId, id, env.now, e.p) && e == Left(e.p, MatchedHuman, env.now))
  {
    var live := LivePending(s, matchId, id, env.now);
    assert e.Exited? || e.Closed?;
    hide *;
    CompletesMeans(s, matchId, id, env.now, e.p);
    if live.None? {
      AcceptUnfolds(s, matchId, id, env);
      NewsAre(s, s, []);
    } else {
      LiveIsPending(s, matchId, id, env.now);
      AcceptLiveSays(s, live.value, id, env, e);
      AllHavePlaces(s, live.value);
    }
  }

  lemma AcceptLiveSays(s: PoolState, pm: PendingMatch, id: string, env: Surroundings, e: Event)
    requires Leaving(e) && LivePending(s, pm.game.id, id, env.now) == Some(pm)
    ensures var after := Accept(s, pm.game.id, id, env).0;
            && s.trace <= after.trace
            && (e in News(s, after) <==>
                  && FullyAccepted(pm.(accepted := pm.accepted + {id}))
                  && e.Exited? && e.p in pm.game.participants && e == Left(e.p, MatchedHuman, env.now))
  {
    assert e.Exited? || e.Closed?;
    hide *;
    AcceptUnfolds(s, pm.game.id, id, env);
    if FullyAccepted(pm.(accepted := pm.accepted + {id})) {
      DetachSays(s, pm, id, env, e);
    } else {
      NewsAre(s, Accept(s, pm.game.id, id, env).0, [AcceptRecorded(pm.game.id, id, env.now)]);
    }
  }

  lemma AllHavePlaces(s: PoolState, pm: PendingMatch)
    requires Inv(s) && pm in s.pending
    ensures forall p :: p in pm.game.participants ==> p in Places(s)
  {
    hide *;
    forall p | p in pm.game.participants ensures p in Places(s) {
      PendingHasPlace(s, pm, p);
    }
  }

  lemma DetachSays(s: PoolState, pm: PendingMatch, id: string, env: Surroundings, e: Event)
    requires Leaving(e)
    ensures var after := Handle(Detach(s, pm, id, env.now), pm.game, env);
            && s.trace <= after.trace
            && (e in News(s, after) <==> e.Exited? && e.p in pm.game.participants && e == Left(e.p, MatchedHuman, env.now))
  {
    var after := Handle(Detach(s, pm, id, env.now), pm.game, env);
    var exits := Exits(pm.game.participants, MatchedHuman, env.now);
    var told := Keep(pm.game.participants, env.told);
    var more := [AcceptRecorded(pm.game.id, id, env.now)] + exits
                + [Handled(pm.game, Keep(pm.game.participants, env.back))] + Founds(told, pm.game.id);
    assert after.trace == s.trace + more;
    hide Handle, Detach, Exits, Founds, Keep, News;
    NewsAre(s, after, more);
    ExitsSay(pm.game.participants, MatchedHuman, env.now);
    OthersSayNothing(told, pm.game.id, env.now);
  }

  lemma DeclineSays(s: PoolState, matchId: nat, id: string, now: int, e: Event)
    requires Inv(s) && Leaving(e)
    ensures var after := Decline(s, matchId, id, now).0;
            && s.trace <= after.trace
            && (e in News(s, after) <==>
                  e.p in Places(s) && e.p.id == id && MayDecline(s, matchId, id, now)
                  && (e == Left(e.p, Outcome.Declined, now) || e == Closed(e.p, DeclinedProposal)))
  {
    var live := LivePending(s, matchId, id, now);
    DeclineCases(s, matchId, id, now);
    LiveMeans(s, matchId, id, now);
    hide MayAnswer, Remembered;
    PlaceIs(s, e.p);
    if live.Some? {
      LiveIsPending(s, matchId, id, now);
      hide Decline, News, Places, Inv, Abandon, Close, LivePending, WasRequeuedFrom;
      DeclineLiveSays(s, live.value, id, now, e);
    } else if !WasRequeuedFrom(s, matchId, id, now) {
      hide Decline, Places, Inv;
      NewsAre(s, s, []);
    } else {
      hide News, Places, Inv, Withdraw, Close, LivePending;
      DeclineLateSays(s, matchId, id, now, e);
    }
  }

  lemma DeclineLiveSays(s: PoolState, pm: PendingMatch, id: string, now: int, e: Event)
    requires Inv(s) && Leaving(e) && pm in s.pending && FindById(pm.game.participants, id).Some?
    ensures var p := FindById(pm.game.participants, id).value;
            var after := Close(Abandon(s, pm, {id}, Outcome.Declined, now), p, DeclinedProposal);
            && s.trace <= after.trace
            && (e in News(s, after) <==>
                  e.p in Places(s) && e.p.id == id
                  && (e == Left(e.p, Outcome.Declined, now) || e == Closed(e.p, DeclinedProposal)))
  {
    var p := FindById(pm.game.participants, id).value;
    assert Notable(e);
    LeftIs(p, Outcome.Declined, now);
    hide News, Places, Inv, Abandon, Close;
    AbandonSays(s, pm, {id}, Outcome.Declined, now, e);
    CloseSays(s, Abandon(s, pm, {id}, Outcome.Declined, now), p, DeclinedProposal, e);
    PendingHasPlace(s, pm, p);
    if e.p in Places(s) && e.p.id == id {
      SamePlace(s, e.p, p);
    }
    if e.p in pm.game.participants {
      PendingHasPlace(s, pm, e.p);
    }
  }

  lemma DeclineLateSays(s: PoolState, matchId: nat, id: string, now: int, e: Event)
    requires Inv(s) && Leaving(e) && LivePending(s, matchId, id, now).None? && WasRequeuedFrom(s, matchId, id, now)
    ensures var after := Decline(s, matchId, id, now).0;
            && s.trace <= after.trace
            && (e in News(s, after) <==>
                  e.p in Places(s) && e.p.id == id
                  && (e == Left(e.p, Outcome.Declined, now) || e == Closed(e.p, DeclinedProposal)))
  {
    var record := s.requeued[matchId].(ids := s.requeued[matchId].ids - {id});
    var s1 := s.(requeued := s.requeued[matchId := record]);
    var queued, held := FindById(s.waiting, id), PendingOfId(s.pending, id);
    DeclineCases(s, matchId, id, now);
    ForgiveKeeps(s, matchId, record);
    assert Places(s1) == Places(s) && s1.trace == s.trace && s1.waiting == s.waiting;
    hide Decline, Places, Inv, Withdraw, Close, LivePending, WasRequeuedFrom;
    if queued.None? && held.None? {
      NobodyWithId(s, id);
      NewsAre(s, s1, []);
    } else {
      var p := if queued.Some? then queued.value else FindById(held.value.game.participants, id).value;
      if queued.Some? {
        WaitingHasPlace(s, p);
      } else {
        PendingHasPlace(s, held.value, p);
      }
      var s2 := Withdraw(s1, id, Outcome.Declined, Outcome.Declined, now).0;
      WithdrawSays(s1, id, Outcome.Declined, Outcome.Declined, now, e);
      CloseSays(s1, s2, p, DeclinedProposal, e);
      SameStart(s, s1, Close(s2, p, DeclinedProposal));
      if e.p in Places(s) && e.p.id == id {
        SamePlace(s, e.p, p);
      }
    }
  }

  lemma SameStart(s: PoolState, s1: PoolState, after: PoolState)
    requires s.trace == s1.trace
    ensures News(s, after) == News(s1, after)
  {
  }

  // ---- every call ---------------------------------------------------------------------------------------

  /**
    Each call lets out exactly those who had a place and must leave, each with its outcome and the time it
    waited, and closes exactly the connections it must.
   */
  lemma StepTells(s: PoolState, m: Moment, e: Event)
    requires Inv(s) && Leaving(e)
    ensures s.trace <= Step(s, m).trace
    ensures e in News(s, Step(s, m)) <==>
            && e.p in Places(s)
            && if e.Exited? then Leaves(s, m, e.p, e.outcome) && e == Left(e.p, e.outcome, m.env.now)
               else IsClosed(s, m, e.p, e.reason)
  {
    hide Inv, News, Places, Add, Withdraw, Accept, Decline, Tick, Completes, MayDecline, TimedOut, SeatedIn;
    match m.call {
      case AddCall(q) => AddSays(s, q, m.env.now, e);
      case RemoveCall(id) => WithdrawSays(s, id, Cancelled, Cancelled, m.env.now, e);
      case DequeueCall(id) => WithdrawSays(s, id, Dequeued, Outcome.Declined, m.env.now, e);
      case AcceptCall(matchId, id) => AcceptSays(s, matchId, id, m.env, e);
      case DeclineCall(matchId, id) => DeclineSays(s, matchId, id, m.env.now, e);
      case TickCall =>
        TickTells(s, m.env, e);
    }
  }

  lemma TickTells(s: PoolState, env: Surroundings, e: Event)
    requires Inv(s) && Leaving(e)
    ensures var news := News(s, Tick(s, env));
            && s.trace <= Tick(s, env).trace
            && (e.Closed? ==> (e in news <==> e.p in Places(s) && TimedOut(s.pending, env, e.p) && e.reason.AcceptTimedOut?))
            && (e.Exited? ==>
                  (e in news <==>
                     && e.p in Places(s) && e == Left(e.p, e.outcome, env.now)
                     && match e.outcome
                        case Expired => e.p.channel in env.dead
                        case AcceptTimeout => TimedOut(s.pending, env, e.p)
                        case MatchedHuman => SeatedIn(news, e.p, e.outcome)
                        case MatchedBot => SeatedIn(news, e.p, e.outcome)
                        case _ => false))
  {
    hide *;
    TickParts(s, env, e);
    if e.Exited? {
      var news := News(s, Tick(s, env));
      OutcomesTell(e, env.now, e in news, e.p in Places(s), e.p.channel in env.dead, TimedOut(s.pending, env, e.p),
                   SeatedIn(news, e.p, e.outcome));
    }
  }

  /** An exit shows by its outcome which of the three made it. */
  lemma OutcomesTell(e: Event, now: int, said: bool, placed: bool, dead: bool, late: bool, seated: bool)
    requires e.Exited? && (late ==> placed) && (seated ==> placed && IsMatch(e.outcome))
    requires said <==> || (placed && dead && e == Left(e.p, Expired, now))
                       || (late && e == Left(e.p, AcceptTimeout, now))
                       || (seated && e == Left(e.p, e.outcome, now))
    ensures said <==> && placed && e == Left(e.p, e.outcome, now)
                      && match e.outcome
                         case Expired => dead
                         case AcceptTimeout => late
                         case MatchedHuman => seated
                         case MatchedBot => seated
                         case _ => false
  {
  }

  lemma TickParts(s: PoolState, env: Surroundings, e: Event)
    requires Inv(s) && Leaving(e)
    ensures var news := News(s, Tick(s, env));
            && s.trace <= Tick(s, env).trace
            && (TimedOut(s.pending, env, e.p) ==> e.p in Places(s))
            && (e.Closed? ==> (e in news <==> TimedOut(s.pending, env, e.p) && e == Closed(e.p, AcceptTimedOut)))
            && (e.Exited? && SeatedIn(news, e.p, e.outcome) ==> e.p in Places(s) && IsMatch(e.outcome))
            && (e.Exited? ==>
                  (e in news <==>
                     || (e.p in Places(s) && e.p.channel in env.dead && e == Left(e.p, Expired, env.now))
                     || (TimedOut(s.pending, env, e.p) && e == Left(e.p, AcceptTimeout, env.now))
                     || (SeatedIn(news, e.p, e.outcome) && e == Left(e.p, e.outcome, env.now))))
  {
    var paired := TickSays(s, env);
    var news := News(s, Tick(s, env));
    PlaceIs(s, e.p);
    assert Notable(e);
    SweptOutIs(s, env, e);
    hide *;
    LetOutAs(s.pending, env, e);
    SeatedInBoth(s, env, paired, news, e.p, if e.Exited? then e.outcome else Cancelled);
  }

  lemma SweptOutIs(s: PoolState, env: Surroundings, e: Event)
    ensures SweptOut(s, env, e) <==> e.Exited? && e.p in s.waiting && e.p.channel in env.dead && e == Left(e.p, Expired, env.now)
  {
  }

  /** What the pending matches make a tick say of one participant. */
  lemma LetOutAs(book: seq<PendingMatch>, env: Surroundings, e: Event)
    requires Leaving(e)
    ensures var inBook := exists pm :: pm in book && e.p in pm.game.participants;
            && (AnyLetsOut(book, env, e) <==>
                  || (e.Exited? && inBook && e.p.channel in env.dead && e == Left(e.p, Expired, env.now))
                  || (e.Exited? && TimedOut(book, env, e.p) && e == Left(e.p, AcceptTimeout, env.now))
                  || (e.Closed? && TimedOut(book, env, e.p) && e == Closed(e.p, AcceptTimedOut)))
            && (TimedOut(book, env, e.p) ==> inBook)
  {
    hide Alive;
    if e.Exited? && e.p.channel in env.dead && e == Left(e.p, Expired, env.now) {
      if pm :| pm in book && e.p in pm.game.participants {
        assert LetOut(pm, env, e);
      }
    }
    if TimedOut(book, env, e.p) {
      var pm :| pm in book && Late(pm, env, e.p);
      if e == Left(e.p, AcceptTimeout, env.now) || e == Closed(e.p, AcceptTimedOut) {
        assert LetOut(pm, env, e);
      }
    }
  }

  lemma SeatedInBoth(s: PoolState, env: Surroundings, paired: seq<Event>, news: seq<Event>, p: Participant, outcome: Outcome)
    requires Seats(s, paired, env)
    requires forall e :: Notable(e) ==> (e in news <==> SweptOut(s, env, e) || AnyLetsOut(s.pending, env, e) || e in paired)
    ensures SeatedIn(news, p, outcome) <==> Left(p, outcome, env.now) in paired
    ensures SeatedIn(news, p, outcome) ==> p in Places(s) && p.channel !in env.dead && IsMatch(outcome)
    ensures forall e :: e in paired ==> !e.Closed?
    ensures forall e :: e in paired && e.Exited? ==> e == Left(e.p, e.outcome, env.now)
  {
    hide Places, SweptOut;
    if SeatedIn(news, p, outcome) {
      var h :| h in news && h.Handled? && p in h.game.participants && outcome == Kind(h.game);
      assert !AnyLetsOut(s.pending, env, h) && !SweptOut(s, env, h) by {
        HandedOverIsNoExit(s, env, h);
      }
      assert h in paired;
      LeftIs(p, outcome, env.now);
    }
    if Left(p, outcome, env.now) in paired {
      var e := Left(p, outcome, env.now);
      assert SeatedIn(paired, e.p, e.outcome);
      var h :| h in paired && h.Handled? && p in h.game.participants && outcome == Kind(h.game);
      assert h in news;
    }
  }

  lemma HandedOverIsNoExit(s: PoolState, env: Surroundings, h: Event)
    requires h.Handled?
    ensures !AnyLetsOut(s.pending, env, h) && !SweptOut(s, env, h)
  {
  }

  // ---- everyone else stays ----------------------------------------------------------------------------------

  lemma {:induction false} ExitedIn(news: seq<Event>, p: Participant)
    ensures p in ExitedFrom(news) <==> exists e :: e in news && e.Exited? && e.p == p
  {
    if news != [] {
      ExitedIn(news[1..], p);
      assert news == [news[0]] + news[1..];
    }
  }

  /** Places after a call and exits during it are the places before it, whom it let in, and whom the handler put back. */
  lemma StepBalances(s: PoolState, m: Moment)
    requires Inv(s) && (m.call.AddCall? ==> Arrival(s, m.call.p))
    ensures var after := Step(s, m);
            s.trace <= after.trace
            && Places(after) + ExitedFrom(News(s, after)) == Places(s) + Admitted(s, m) + HandedBack(News(s, after))
  {
    hide *;
    StepKeeps(s, m);
    StepGrows(s, m);
    Balances(s, Step(s, m), Admitted(s, m));
  }

  lemma Balances(s: PoolState, after: PoolState, arrived: multiset<Participant>)
    requires s.trace <= after.trace && Settles(Account(s), Account(after), arrived)
    ensures Places(after) + ExitedFrom(News(s, after)) == Places(s) + arrived + HandedBack(News(s, after))
  {
    var news := News(s, after);
    assert after.trace == s.trace + news;
    ExitedAppend(s.trace, news);
    hide News, ExitedFrom, HandedBack, Places;
    Cancel(Places(after), ExitedFrom(s.trace), ExitedFrom(news), HandedBack(s.trace), Places(s), arrived, HandedBack(news));
  }

  lemma StepGrows(s: PoolState, m: Moment)
    requires Inv(s)
    ensures s.trace <= Step(s, m).trace
  {
    StepTells(s, m, Closed(Participant("", "", Tcg, Ranked, None, 0, None, false, Poll, 0), AcceptTimedOut));
  }

  lemma Cancel(after: multiset<Participant>, out: multiset<Participant>, newOut: multiset<Participant>,
               back: multiset<Participant>, before: multiset<Participant>, arrived: multiset<Participant>, newBack: multiset<Participant>)
    requires after + (out + newOut) + back == before + out + arrived + (back + newBack)
    ensures after + newOut == before + arrived + newBack
  {
    forall p ensures (after + newOut)[p] == (before + arrived + newBack)[p] {
      assert (after + (out + newOut) + back)[p] == (before + out + arrived + (back + newBack))[p];
    }
  }

  /** Whoever need not leave stays, and whoever must is gone unless the handler put it back. */
  lemma StepMoves(s: PoolState, m: Moment, p: Participant)
    requires Inv(s) && (m.call.AddCall? ==> Arrival(s, m.call.p)) && p in Places(s)
    ensures (forall outcome :: !Leaves(s, m, p, outcome)) ==> p in Places(Step(s, m))
    ensures (exists outcome :: Leaves(s, m, p, outcome)) && p !in HandedBack(News(s, Step(s, m))) ==> p !in Places(Step(s, m))
  {
    var after := Step(s, m);
    var news := News(s, after);
    StepBalances(s, m);
    OnePlace(s, p, p);
    assert Places(s)[p] == 1;
    assert p !in Admitted(s, m);
    hide Inv, Step, News, Places, Leaves, Arrival, ExitedFrom, HandedBack, Admitted;
    assert (Places(after) + ExitedFrom(news))[p] == (Places(s) + Admitted(s, m) + HandedBack(news))[p];
    ExitedIn(news, p);
    if outcome :| Leaves(s, m, p, outcome) {
      LeftIs(p, outcome, m.env.now);
      StepTells(s, m, Left(p, outcome, m.env.now));
    } else if p in ExitedFrom(news) {
      var e :| e in news && e.Exited? && e.p == p;
      StepTells(s, m, e);
    }
  }

  // ---- answers -----------------------------------------------------------------------------------------------

  ghost predicate HasPlace(s: PoolState, id: string) {
    exists p :: p in Places(s) && p.id == id
  }

  /** Being queued, being dequeued and declining all come down to having a place. */
  lemma AnswersMean(s: PoolState, matchId: nat, id: string, now: int)
    requires Inv(s)
    ensures IsQueued(s, id) <==> HasPlace(s, id)
    ensures Dequeue(s, id, now).1 <==> HasPlace(s, id)
    ensures Decline(s, matchId, id, now).1 ==
            if MayDecline(s, matchId, id, now) && HasPlace(s, id) then DeclinedResponse else UnknownMatch
  {
    var queued, held, live := FindById(s.waiting, id), PendingOfId(s.pending, id), LivePending(s, matchId, id, now);
    WithdrawCases(s, id, Dequeued, Outcome.Declined, now);
    DeclineCases(s, matchId, id, now);
    LiveMeans(s, matchId, id, now);
    hide MayAnswer, Remembered;
    assert IsQueued(s, id) <==> queued.Some? || held.Some?;
    if live.Some? {
      LiveIsPending(s, matchId, id, now);
      PendingHasPlace(s, live.value, FindById(live.value.game.participants, id).value);
    }
    hide Inv, Places, Withdraw, Decline, IsQueued, LivePending, WasRequeuedFrom, Leave, Abandon, Close;
    if queued.Some? {
      WaitingHasPlace(s, queued.value);
    } else if held.Some? {
      PendingHasPlace(s, held.value, FindById(held.value.game.participants, id).value);
    } else {
      NobodyWithId(s, id);
    }
  }

  /**
    An ACCEPT is taken if and only if its match is pending, in its window and contains the sender. When everyone
    else has answered the match is handed over and its entry is gone; otherwise the answer is noted and nobody is
    told anything. An ACCEPT that is not taken changes nothing.
   */
  lemma AcceptMeans(s: PoolState, matchId: nat, id: string, env: Surroundings)
    requires Inv(s)
    ensures var (after, r) := Accept(s, matchId, id, env);
            && (r.AcceptedResponse? <==> MayAnswer(s, matchId, id, env.now))
            && (r.RequeuedResponse? <==> !MayAnswer(s, matchId, id, env.now) && Remembered(s, matchId, id, env.now))
            && !r.DeclinedResponse?
            && (!r.AcceptedResponse? ==> after == s)
            && forall pm :: pm in s.pending && pm.game.id == matchId && r.AcceptedResponse? ==>
                 if OthersAccepted(pm, id) then
                   && Handled(pm.game, Keep(pm.game.participants, env.back)) in News(s, after)
                   && forall q :: q in after.pending <==> q in s.pending && q != pm
                 else
                   && News(s, after) == [AcceptRecorded(matchId, id, env.now)]
                   && after.waiting == s.waiting && after.requeued == s.requeued
                   && forall q :: q in after.pending <==> (q in s.pending && q != pm) || q == pm.(accepted := pm.accepted + {id})
  {
    var (after, r) := Accept(s, matchId, id, env);
    AcceptAnswers(s, matchId, id, env);
    assert DistinctGames(s.pending);
    hide *;
    AcceptUnfolds(s, matchId, id, env);
    LiveMeans(s, matchId, id, env.now);
    forall pm | pm in s.pending && pm.game.id == matchId && MayAnswer(s, matchId, id, env.now)
      ensures if OthersAccepted(pm, id) then
                && Handled(pm.game, Keep(pm.game.participants, env.back)) in News(s, after)
                && forall q :: q in after.pending <==> q in s.pending && q != pm
              else
                && News(s, after) == [AcceptRecorded(matchId, id, env.now)]
                && after.waiting == s.waiting && after.requeued == s.requeued
                && forall q :: q in after.pending <==> (q in s.pending && q != pm) || q == pm.(accepted := pm.accepted + {id})
    {
      OthersMeans(pm, id);
      if OthersAccepted(pm, id) {
        DetachHands(s, pm, id, env);
        OnlyOneGone(s.pending, pm);
      } else {
        NewsAre(s, after, [AcceptRecorded(matchId, id, env.now)]);
        OnlyOneChanged(s, pm, id);
      }
    }
  }

  lemma OnlyOneGone(book: seq<PendingMatch>, pm: PendingMatch)
    requires DistinctGames(book) && pm in book
    ensures forall q :: q in WithoutMatch(book, pm.game.id) <==> q in book && q != pm
  {
    WithoutMatchIn(book, pm.game.id);
    hide WithoutMatch, DistinctGames;
    forall q | q in book && q.game.id == pm.game.id ensures q == pm {
      SameGame(book, q, pm);
    }
  }

  lemma OnlyOneChanged(s: PoolState, pm: PendingMatch, id: string)
    requires DistinctGames(s.pending) && pm in s.pending
    ensures forall q :: q in Record(s.pending, pm.game.id, id) <==>
                        (q in s.pending && q != pm) || q == pm.(accepted := pm.accepted + {id})
  {
    var after, next := Record(s.pending, pm.game.id, id), pm.(accepted := pm.accepted + {id});
    forall q | q in after ensures (q in s.pending && q != pm) || q == next {
      var i :| 0 <= i < |after| && after[i] == q;
      if s.pending[i].game.id == pm.game.id {
        SameGame(s.pending, s.pending[i], pm);
      }
    }
    forall q | q in s.pending && q != pm ensures q in after {
      var i :| 0 <= i < |s.pending| && s.pending[i] == q;
      if q.game.id == pm.game.id {
        SameGame(s.pending, q, pm);
      }
      assert after[i] == q;
    }
    var i :| 0 <= i < |s.pending| && s.pending[i] == pm;
    assert after[i] == next;
  }

  lemma DetachHands(s: PoolState, pm: PendingMatch, id: string, env: Surroundings)
    ensures var after := Handle(Detach(s, pm, id, env.now), pm.game, env);
            && Handled(pm.game, Keep(pm.game.participants, env.back)) in News(s, after)
            && after.pending == WithoutMatch(s.pending, pm.game.id)
  {
    var after := Handle(Detach(s, pm, id, env.now), pm.game, env);
    var back := Keep(pm.game.participants, env.back);
    var more := [AcceptRecorded(pm.game.id, id, env.now)] + Exits(pm.game.participants, MatchedHuman, env.now)
                + [Handled(pm.game, back)] + Founds(Keep(pm.game.participants, env.told), pm.game.id);
    assert after.trace == s.trace + more;
    hide Handle, Detach, Keep, News, Exits, Founds;
    NewsAre(s, after, more);
    assert Handled(pm.game, back) in more;
  }
}
