/** Whom a tick of the facade expires, whom it leaves waiting, and what an enqueued ticket brings into the pool. */
module FacadeTicks {
  import opened Options
  import opened QueueEntry
  import opened Participants
  import opened Pairing
  import opened PoolModel
  import opened PoolBooks
  import opened PoolInvariants
  import opened PoolTicks
  import opened PoolEffects
  import opened PoolReasons
  import opened PoolHandOvers
  import opened FacadeModel
  import opened FacadeInvariants
  import PoolRuns
  import FacadeRuns

  /** A poll client that was last heard of more than the ticket's lifetime ago, or a socket that is closed. */
  ghost predicate Silent(f: FacadeState, w: World, p: Participant) {
    if p.presence.Poll? then exists r :: r in f.records && r.ticketId == p.id && w.now - r.lastPollAt > QUEUE_TTL_MS
    else p.channel in w.closedSockets
  }

  lemma DeadMeans(f: FacadeState, w: World, channel: nat)
    ensures channel in Outside(f, w).dead <==>
              || (channel in w.closedSockets && forall r :: r in f.records ==> r.channel != channel)
              || (exists r :: r in f.records && r.channel == channel && w.now - r.lastPollAt > QUEUE_TTL_MS)
    ensures Outside(f, w).now == w.now
  {
  }

  /** A poll participant's record is the one with its ticket, and the one with its channel. */
  lemma OwnRecord(f: FacadeState, p: Participant) returns (r: Record)
    requires FacadeInv(f) && p in Places(f.pool) && p.presence.Poll?
    ensures r in f.records && Of(r, p) && r.Searching()
    ensures forall q :: q in f.records && (q.ticketId == p.id || q.channel == p.channel) ==> q == r
  {
    r := RecordOfPlace(f, p);
    assert NoTwins(f.records);
    hide *;
    forall q | q in f.records ensures q == r || Separate(q, r) {
      TwinIsSame(f.records, q, r);
    }
    OfMeans(r, p);
    SeparateMeans(f, r, p);
  }

  lemma OfMeans(r: Record, p: Participant)
    ensures Of(r, p) ==> r.ticketId == p.id && r.channel == p.channel && p.presence.Poll?
  {
  }

  lemma SeparateMeans(f: FacadeState, r: Record, p: Participant)
    requires r.ticketId == p.id && r.channel == p.channel
    ensures forall q :: q in f.records && Separate(q, r) ==> q.ticketId != p.id && q.channel != p.channel
  {
  }

  lemma NoRecord(f: FacadeState, p: Participant)
    requires FacadeInv(f) && p in Places(f.pool) && !p.presence.Poll?
    ensures forall r :: r in f.records ==> r.channel != p.channel
  {
    hide Inv, Inverse, Owned, Places;
  }

  lemma DeadIsSilent(f: FacadeState, w: World, p: Participant)
    requires FacadeInv(f) && p in Places(f.pool)
    ensures p.channel in Outside(f, w).dead <==> Silent(f, w, p)
  {
    DeadMeans(f, w, p.channel);
    hide FacadeInv, Outside, Places, Of;
    if p.presence.Poll? {
      var r := OwnRecord(f, p);
      OfMeans(r, p);
    } else {
      NoRecord(f, p);
    }
  }

  lemma TickedPool(f: FacadeState, w: World)
    requires FacadeInv(f)
    ensures FacadeTick(f, w).pool == Tick(f.pool, Outside(f, w)) && Inv(f.pool)
  {
    FacadeParts(f);
    hide *;
    var pool := TickMoves(f, w);
    FollowParts(f, pool, w);
    FollowInverse(f, pool, w);
    ReconcileKeeps(Follow(f, pool, w), w.now);
  }

  /**
    A tick of the facade expires exactly the poll participants of the store or of a pending match whose record
    was last polled more than the lifetime ago, and the socket participants whose socket is closed.
   */
  lemma TickExpires(f: FacadeState, w: World, p: Participant, waitedMs: int)
    requires FacadeInv(f)
    ensures Exited(p, Expired, waitedMs) in News(f.pool, FacadeTick(f, w).pool) <==>
              p in Places(f.pool) && Silent(f, w, p) && waitedMs == w.now - p.enqueuedAt
  {
    hide *;
    DeadMeans(f, w, p.channel);
    TickedPool(f, w);
    ExpiredMeans(f.pool, Outside(f, w), p, waitedMs);
    if p in Places(f.pool) {
      DeadIsSilent(f, w, p);
    }
  }

  lemma ExpiredMeans(s: PoolState, env: Surroundings, p: Participant, waitedMs: int)
    requires Inv(s)
    ensures Exited(p, Expired, waitedMs) in News(s, Tick(s, env)) <==>
              p in Places(s) && p.channel in env.dead && waitedMs == env.now - p.enqueuedAt
  {
    var e := Exited(p, Expired, waitedMs);
    assert Leaving(e) && Left(p, Expired, env.now) == Exited(p, Expired, env.now - p.enqueuedAt);
    hide *;
    TickTells(s, env, e);
  }

  /** Where a tick leaves facade and pool in agreement, whoever still searches was heard of within the lifetime. */
  lemma SearchersWereHeard(f: FacadeState, w: World, r: Record)
    requires FacadeInv(f) && Agreement(FacadeTick(f, w), w.now) && r in FacadeTick(f, w).records && r.Searching()
    ensures w.now - r.lastPollAt <= QUEUE_TTL_MS
  {
    var env := Outside(f, w);
    var p := SearcherHeld(f, w, r);
    TickedPool(f, w);
    hide *;
    var was := RecordBefore(f, w, r);
    var pool := TickMoves(f, w);
    EffectHolds(f.pool, pool, env);
    TickKeeps(f.pool, env);
    SettledAlive(pool, env, p);
    DeadIsSilent(f, w, p);
    NotSilent(f, w, p, was);
  }

  lemma SearcherHeld(f: FacadeState, w: World, r: Record) returns (p: Participant)
    requires Agreement(FacadeTick(f, w), w.now) && r in FacadeTick(f, w).records && r.Searching()
    ensures p in Places(FacadeTick(f, w).pool) && p.presence.Poll? && p.id == r.ticketId
  {
    var after := FacadeTick(f, w);
    hide FacadeTick, Places;
    assert r.ticketId in SearchingTickets(after);
    p :| p in Places(after.pool) && p.presence.Poll? && p.id == r.ticketId;
  }

  /** A record after the tick is one from before it, perhaps marked as matched. */
  lemma RecordBefore(f: FacadeState, w: World, r: Record) returns (was: Record)
    requires FacadeInv(f) && r in FacadeTick(f, w).records
    ensures was in f.records && was.ticketId == r.ticketId && was.lastPollAt == r.lastPollAt
  {
    hide *;
    FacadeParts(f);
    var pool := TickMoves(f, w);
    var followed := Follow(f, pool, w);
    FollowParts(f, pool, w);
    FollowInverse(f, pool, w);
    ReconcileKeeps(followed, w.now);
    assert r in MarkAll(f.records, News(f.pool, pool), w.roomOf);
    was := Unmarked(f.records, News(f.pool, pool), w.roomOf, r);
  }

  lemma Unmarked(records: seq<Record>, events: seq<Event>, roomOf: nat -> nat, r: Record) returns (was: Record)
    requires r in MarkAll(records, events, roomOf)
    ensures was in records && was.ticketId == r.ticketId && was.lastPollAt == r.lastPollAt
  {
    var i :| 0 <= i < |records| && MarkAll(records, events, roomOf)[i] == r;
    was := records[i];
  }

  lemma SettledAlive(s: PoolState, env: Surroundings, p: Participant)
    requires Settled(s, env) && p in Places(s)
    ensures p.channel !in env.dead
  {
    PlaceIs(s, p);
    hide Places;
  }

  lemma NotSilent(f: FacadeState, w: World, p: Participant, was: Record)
    requires !Silent(f, w, p) && p.presence.Poll? && was in f.records && was.ticketId == p.id
    ensures w.now - was.lastPollAt <= QUEUE_TTL_MS
  {
  }

  /**
    With a handler that takes every match, a tick of the facade leaves at most one participant waiting for a
    format and, while a bot can play, none whose delay has passed: people are paired before bots are asked.
   */
  lemma FacadeTickPairsOff(f: FacadeState, w: World, key: PoolKey)
    requires FacadeInv(f) && w.back == {}
    ensures PoolRuns.PairedOff(Listed(FacadeTick(f, w).pool.waiting, key), w.botAvailable, w.now)
  {
    var env := Outside(f, w);
    assert env.back == {} && env.policies == [Fifo, BotFallback(w.botAvailable)] && env.now == w.now;
    hide *;
    TickedPool(f, w);
    PoolRuns.TickPairsOff(f.pool, env, w.botAvailable, key);
  }

  /**
    Before its tick, an accepted ticket has brought one participant behind everyone waiting and one record, both
    with what the entry asked for and the time of the call, searching, and free of the accept step.
   */
  lemma EnterBrings(f: FacadeState, e: Entry, w: World)
    requires FacadeInv(f) && FacadeRuns.FreshEntry(f, e, w.now) && Enter(f, e, w).1.Enqueued?
    ensures var after := Enter(f, e, w).0;
            && |after.pool.waiting| == |f.pool.waiting| + 1 && after.pool.waiting[..|f.pool.waiting|] == f.pool.waiting
            && (var p := after.pool.waiting[|f.pool.waiting|];
                && p.id == e.ticketId && p.userId == e.userId && p.format == e.format && p.displayName == e.displayName
                && p.enqueuedAt == w.now && p.botFallbackAfterMs == e.botFallbackAfterMs
                && p.presence.Poll? && !p.supportsAcceptStep && p.channel == e.channel)
            && |after.records| == |f.records| + 1
            && (var r := after.records[|f.records|];
                && r.ticketId == e.ticketId && r.userId == e.userId && r.format == e.format && r.displayName == e.displayName
                && r.botFallbackAfterMs == e.botFallbackAfterMs && r.enteredAt == w.now && r.lastPollAt == w.now
                && r.channel == e.channel && r.Searching())
            && after.users == f.users[e.userId := e.ticketId]
  {
    var p := NewParticipant(e, w.now);
    assert Arrival(f.pool, p) && p.presence.Poll? && p.userId == e.userId;
    FacadeParts(f);
    EnterIs(f, e, w);
    AddStores(f.pool, p, w.now);
    hide Add, FacadeInv, Inv, News, LastRoom;
  }

  lemma AddStores(s: PoolState, p: Participant, now: int)
    requires p.presence.Poll?
    ensures Add(s, p, now).1.Stored? ==> Add(s, p, now).0 == s.(waiting := s.waiting + [p])
  {
    hide Leave, Abandon, Close;
  }
}
