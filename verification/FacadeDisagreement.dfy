/**
  A handler that tells a poll client of its bot match and then fails puts the client back in the pool while
  its ticket says matched. Both room-creating handlers do so when the injected `spawnBot` throws.
 */
module FacadeDisagreement {
  import opened Options
  import opened QueueEntry
  import opened Participants
  import opened Pairing
  import opened PoolModel
  import opened PoolBooks
  import opened PoolInvariants
  import opened PoolTicks
  import opened PoolLoops
  import opened PoolEffects
  import opened PoolHandOvers
  import opened FacadeModel
  import opened FacadeInvariants
  import opened FacadeRuns

  const ENTRY := Entry("ticket", "user", Tcg, None, Some(BOT_FALLBACK_MIN_MS), 0)
  const LONE := NewParticipant(ENTRY, 0)
  const STORED := PoolState([LONE], [], map[], 0, [])
  /** The tick that follows an enqueue has told the loner that it is searching. */
  const WAITING := PoolState([LONE], [], map[], 0, [StatusSent(LONE, 0)])
  const POLLED := FacadeState(WAITING, [NewRecord(ENTRY, 0).(lastPollAt := BOT_FALLBACK_MIN_MS)], map["user" := "ticket"])

  /** A bot can play, and there is nothing for the handler to do. */
  function Calm(now: int): World {
    World(now, {}, true, {}, {}, (matchId: nat) => matchId)
  }

  /** A client enqueues, and polls when its bot delay has just not passed. */
  function Moments(): seq<FacadeMoment> {
    [FacadeMoment(EnqueueCall(ENTRY), Calm(0)), FacadeMoment(PollCall("ticket"), Calm(BOT_FALLBACK_MIN_MS))]
  }

  /** The bot is asked to join only after FOUND went out; when asking throws, everyone is put back. */
  function SpawnFails(): World {
    World(BOT_FALLBACK_MIN_MS + 1, {}, true, {"ticket"}, {"ticket"}, (matchId: nat) => matchId)
  }

  lemma LonerGetsBot(now: int)
    requires now == BOT_FALLBACK_MIN_MS + 1
    ensures Composite([Fifo, BotFallback(true)], [LONE], now, 0) == [BotMatch(LONE, 0)]
  {
    var policies := [Fifo, BotFallback(true)];
    assert SortByArrival([LONE]) == [LONE];
    assert Chosen(Fifo, [LONE], now, 0) == [];
    assert policies[1..] == [BotFallback(true)];
    DropAll([LONE], {});
    assert Drop([LONE], Ids(Everyone([]))) == [LONE];
    assert [LONE][1..] == [];
    assert Overdue(LONE, now);
    assert BotMatches([LONE], now, 0) == [BotMatch(LONE, 0)] + BotMatches([], now, 1);
  }

  // ---- the run up to the failing tick -------------------------------------------------------------

  lemma NothingForLoner(now: int)
    requires now <= BOT_FALLBACK_MIN_MS
    ensures Composite([Fifo, BotFallback(true)], [LONE], now, 0) == []
  {
    var policies := [Fifo, BotFallback(true)];
    assert SortByArrival([LONE]) == [LONE];
    assert Chosen(Fifo, [LONE], now, 0) == [];
    assert policies[1..] == [BotFallback(true)] && policies[1..][1..] == [];
    DropAll([LONE], {});
    assert Drop([LONE], Ids(Everyone([]))) == [LONE];
    assert [LONE][1..] == [];
    assert !Overdue(LONE, now);
    assert BotMatches([LONE], now, 0) == [];
  }

  lemma LonerListed(key: PoolKey)
    ensures Listed([LONE], key) == if key == POOL_KEYS[0] then [LONE] else []
    ensures ByKey([LONE]) == [LONE]
  {
    forall k: PoolKey ensures Listed([LONE], k) == if k == POOL_KEYS[0] then [LONE] else [] {
      assert [LONE][1..] == [] && Listed([], k) == [];
    }
    assert POOL_KEYS[1] != POOL_KEYS[0] && POOL_KEYS[2] != POOL_KEYS[0];
    hide Listed;
    assert ByKey([LONE]) == [LONE] + [] + [];
  }

  lemma KeysIdle(env: Surroundings)
    requires env.now <= BOT_FALLBACK_MIN_MS && env.policies == [Fifo, BotFallback(true)]
    ensures PairAll(STORED, env) == STORED
  {
    PairAllIs(STORED, env);
    PairKeyUnfolds(STORED, POOL_KEYS[0], env);
    NothingForLoner(env.now);
    assert STORED.(nextMatchId := 0) == STORED;
    StartNothing(STORED, env);
    LonerListed(POOL_KEYS[0]);
    LonerListed(POOL_KEYS[1]);
    LonerListed(POOL_KEYS[2]);
    hide PairAll, PairKey, Listed, Composite, StartAll;
    NobodyToPair(STORED, POOL_KEYS[1], env);
    NobodyToPair(STORED, POOL_KEYS[2], env);
  }

  lemma FirstTick(env: Surroundings)
    requires env.now == 0 && env.policies == [Fifo, BotFallback(true)] && env.dead == {}
    ensures Tick(STORED, env) == WAITING
  {
    TickIs(STORED, env);
    NobodySwept(STORED, env);
    KeysIdle(env);
    LonerListed(POOL_KEYS[0]);
    PublishIs(STORED, env);
    hide Tick, Sweep, Resolve, Forget, PairAll, Publish, ByKey;
    assert Statuses([LONE], 0) == [StatusSent(LONE, 0)];
  }

  lemma EnqueuedAlone()
    ensures Enqueue(EMPTY_FACADE, ENTRY, Calm(0)) == (POLLED.(records := [NewRecord(ENTRY, 0)]), Enqueued)
  {
    var w := Calm(0);
    var entered := FacadeState(STORED, [NewRecord(ENTRY, 0)], map["user" := "ticket"]);
    EnteredAlone();
    EnqueueIs(EMPTY_FACADE, ENTRY, w);
    TickedAlone(entered);
    hide Enqueue, Enter, FacadeTick;
  }

  lemma EnteredAlone()
    ensures Enter(EMPTY_FACADE, ENTRY, Calm(0)) == (FacadeState(STORED, [NewRecord(ENTRY, 0)], map["user" := "ticket"]), Enqueued)
  {
    var w := Calm(0);
    AddCases(EMPTY_POOL, LONE, 0);
    assert [] + [LONE] == [LONE];
    assert Add(EMPTY_POOL, LONE, 0) == (STORED, Stored(false));
    assert News(EMPTY_POOL, STORED) == [] && MarkAll([], [], w.roomOf) == [];
    assert Follow(EMPTY_FACADE, STORED, w) == FacadeState(STORED, [], map[]);
    assert [] + [NewRecord(ENTRY, 0)] == [NewRecord(ENTRY, 0)];
    EnterIs(EMPTY_FACADE, ENTRY, w);
    hide Add, Follow, Enter;
  }

  lemma TickedAlone(entered: FacadeState)
    requires entered == FacadeState(STORED, [NewRecord(ENTRY, 0)], map["user" := "ticket"])
    ensures FacadeTick(entered, Calm(0)) == entered.(pool := WAITING)
  {
    var w := Calm(0);
    var env := Outside(entered, w);
    var r := NewRecord(ENTRY, 0);
    assert Lapsed(entered.records, 0) == {} && env.dead == {};
    FirstTick(env);
    assert News(STORED, WAITING) == [StatusSent(LONE, 0)];
    assert [StatusSent(LONE, 0)][..0] == [] && LastRoom([StatusSent(LONE, 0)], 0, w.roomOf) == None;
    assert MarkAll([r], News(STORED, WAITING), w.roomOf) == [r];
    FacadeTickIs(entered, w);
    var after := entered.(pool := WAITING);
    assert Follow(entered, WAITING, w) == after;
    assert [LONE][0].id == "ticket" && IsQueued(WAITING, "ticket") && Stays(after, r, 0);
    assert [r][1..] == [];
    assert Reconciled(after, [r], 0) == Reconciled(after, [], 0) == after;
    hide FacadeTick, Tick, Outside, Follow;
  }

  /** The run is one the facade may go through, and ends with the loner waiting and freshly polled. */
  lemma LonerWaits()
    ensures LegalRun(EMPTY_FACADE, Moments()) && FacadeRun(EMPTY_FACADE, Moments()) == POLLED
  {
    var enqueued := POLLED.(records := [NewRecord(ENTRY, 0)]);
    var m0, m1 := Moments()[0], Moments()[1];
    assert Moments()[1..] == [m1] && [m1][1..] == [];
    EnqueuedAlone();
    StepIs(EMPTY_FACADE, m0);
    StepIs(enqueued, m1);
    PolledAlone();
    FreshInEmpty();
    assert LegalStep(EMPTY_FACADE, m0) && LegalStep(enqueued, m1);
    assert m0.world.told !! m0.world.back && m1.world.told !! m1.world.back;
    assert Moments() == [m0, m1];
    hide *;
    TwoSteps(EMPTY_FACADE, m0, m1);
    CarefulIsLegal(EMPTY_FACADE, [m0, m1]);
  }

  lemma PolledAlone()
    ensures PollTicket(POLLED.(records := [NewRecord(ENTRY, 0)]), "ticket", BOT_FALLBACK_MIN_MS).0 == POLLED
  {
    assert Refresh([NewRecord(ENTRY, 0)], "ticket", BOT_FALLBACK_MIN_MS) == POLLED.records;
  }

  lemma TwoSteps(f: FacadeState, m0: FacadeMoment, m1: FacadeMoment)
    requires LegalStep(f, m0) && LegalStep(FacadeStep(f, m0), m1)
    requires m0.world.told !! m0.world.back && m1.world.told !! m1.world.back
    ensures FacadeRun(f, [m0, m1]) == FacadeStep(FacadeStep(f, m0), m1) && CarefulRun(f, [m0, m1])
  {
    hide FacadeStep, LegalStep;
    assert [m0, m1][1..] == [m1] && [m1][1..] == [];
    var f1 := FacadeStep(f, m0);
    assert FacadeRun(f1, [m1]) == FacadeStep(f1, m1) && CarefulRun(f1, [m1]);
  }

  lemma FreshInEmpty()
    ensures FreshEntry(EMPTY_FACADE, ENTRY, 0)
  {
    EmptyPoolIsFine();
  }

  // ---- the failing tick ------------------------------------------------------------------------------

  lemma LonerIsHandedOver(env: Surroundings)
    requires env.now == BOT_FALLBACK_MIN_MS + 1 && env.policies == [Fifo, BotFallback(true)] && env.dead == {}
    ensures BotMatch(LONE, 0) in TickGames(WAITING, env)
  {
    var game := BotMatch(LONE, 0);
    TickGamesAre(WAITING, env);
    OpenedIs(WAITING, env);
    NobodySwept(WAITING, env);
    DealtIs(WAITING, env);
    GamesAre(WAITING, POOL_KEYS[0], env, 0);
    LonerGetsBot(env.now);
    LonerListed(POOL_KEYS[0]);
    hide TickGames, Opened, Dealt, Sweep, Resolve, Forget, GamesOf, Composite, Listed;
    assert GamesOf(WAITING, POOL_KEYS[0], env, 0) == [game];
    assert game in Dealt(WAITING, env);
    UnaskedIn(Dealt(WAITING, env), game);
  }

  /** From the empty facade: a client enqueues, polls, is told of its bot match and put back, and facade and pool disagree. */
  lemma ToldThenPutBack()
    ensures LegalRun(EMPTY_FACADE, Moments())
    ensures var f, w := FacadeRun(EMPTY_FACADE, Moments()), SpawnFails();
            FacadeInv(f) && !Agreement(FacadeTick(f, w), w.now)
  {
    var w := SpawnFails();
    var env := Outside(POLLED, w);
    var game := BotMatch(LONE, 0);
    assert Lapsed(POLLED.records, w.now) == {} && env.dead == {};
    assert env.policies == [Fifo, BotFallback(true)] && env.now == w.now && POLLED.pool == WAITING;
    assert LONE in game.participants && LONE.presence.Poll? && LONE.id in w.told && LONE.id in w.back;
    LonerIsHandedOver(env);
    assert !Discreet(TickGames(WAITING, env), w) by {
      hide TickGames;
    }
    hide *;
    LonerWaits();
    EmptyFacadeIsFine();
    FacadeRunKeeps(EMPTY_FACADE, Moments());
    FacadeTickAgrees(POLLED, w);
  }
}
