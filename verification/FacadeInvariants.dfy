/**
  The facade's maps agree with each other always, and with the pool after each of its ticks, exactly
  when no poll participant of a match that tick hands over is both told of it and put back.
 */
module FacadeInvariants {
  import opened Options
  import opened QueueEntry
  import opened Participants
  import opened Pairing
  import opened PoolModel
  import opened PoolBooks
  import opened PoolTrace
  import opened PoolInvariants
  import opened PoolTicks
  import opened PoolLoops
  import opened PoolEffects
  import opened PoolHandOvers
  import opened FacadeModel

  // ---- the two maps ------------------------------------------------------------------------------

  predicate Separate(r: Record, q: Record) {
    r.ticketId != q.ticketId && r.userId != q.userId && r.channel != q.channel
  }

  ghost predicate NoTwins(records: seq<Record>) {
    forall i, j :: 0 <= i < j < |records| ==> Separate(records[i], records[j])
  }

  function Owners(records: seq<Record>): set<string> {
    set r | r in records :: r.userId
  }

  /** One record per user, per ticket and per channel, and `users` is the inverse of the records. */
  ghost predicate Inverse(f: FacadeState) {
    && NoTwins(f.records)
    && (forall r :: r in f.records ==> r.userId in f.users && f.users[r.userId] == r.ticketId)
    && f.users.Keys == Owners(f.records)
  }

  /** A ticket and a channel nobody has a record for. */
  ghost predicate FreshTicket(f: FacadeState, e: Entry) {
    forall r :: r in f.records ==> r.ticketId != e.ticketId && r.channel != e.channel
  }

  lemma TwinIsSame(records: seq<Record>, r: Record, q: Record)
    requires NoTwins(records) && r in records && q in records
    ensures r == q || Separate(r, q)
  {
    var i :| 0 <= i < |records| && records[i] == r;
    var j :| 0 <= j < |records| && records[j] == q;
    if i < j {
      assert Separate(records[i], records[j]);
    } else if j < i {
      assert Separate(records[j], records[i]);
    }
  }

  predicate SameOwner(r: Record, q: Record) {
    r.ticketId == q.ticketId && r.userId == q.userId && r.channel == q.channel
  }

  ghost predicate SameOwners(a: seq<Record>, b: seq<Record>) {
    |a| == |b| && forall i :: 0 <= i < |a| ==> SameOwner(a[i], b[i])
  }

  lemma SameOwnersSame(a: seq<Record>, b: seq<Record>)
    requires SameOwners(a, b)
    ensures Owners(a) == Owners(b)
    ensures forall q :: q in b ==> exists r :: r in a && SameOwner(r, q)
  {
    forall q | q in b ensures exists r :: r in a && SameOwner(r, q) {
      var i :| 0 <= i < |b| && b[i] == q;
      assert SameOwner(a[i], b[i]);
    }
    forall r | r in a ensures r.userId in Owners(b) {
      var i :| 0 <= i < |a| && a[i] == r;
      assert SameOwner(a[i], b[i]) && b[i] in b;
    }
  }

  lemma SameOwnersInverse(f: FacadeState, after: FacadeState)
    requires Inverse(f) && SameOwners(f.records, after.records) && after.users == f.users
    ensures Inverse(after)
  {
    SameOwnersSame(f.records, after.records);
    hide Owners;
    forall i, j | 0 <= i < j < |after.records| ensures Separate(after.records[i], after.records[j]) {
      assert Separate(f.records[i], f.records[j]) && SameOwner(f.records[i], after.records[i]) && SameOwner(f.records[j], after.records[j]);
    }
  }

  lemma FollowInverse(f: FacadeState, pool: PoolState, w: World)
    requires Inverse(f)
    ensures Inverse(Follow(f, pool, w))
  {
    var after := Follow(f, pool, w);
    hide Inverse, News, LastRoom;
    assert SameOwners(f.records, after.records);
    SameOwnersInverse(f, after);
  }

  lemma RefreshInverse(f: FacadeState, ticketId: string, now: int)
    requires Inverse(f)
    ensures Inverse(f.(records := Refresh(f.records, ticketId, now)))
  {
    var after := f.(records := Refresh(f.records, ticketId, now));
    hide Inverse;
    assert SameOwners(f.records, after.records);
    SameOwnersInverse(f, after);
  }

  lemma {:induction false} WithoutTicketNoTwins(records: seq<Record>, ticketId: string)
    requires NoTwins(records)
    ensures NoTwins(WithoutTicket(records, ticketId))
  {
    if records != [] {
      var rest := WithoutTicket(records[1..], ticketId);
      TailNoTwins(records);
      WithoutTicketNoTwins(records[1..], ticketId);
      hide WithoutTicket;
      forall i | 0 <= i < |rest| ensures Separate(records[0], rest[i]) {
        assert rest[i] in records[1..];
      }
      ConsNoTwins(records[0], rest);
    }
  }

  lemma TailNoTwins(records: seq<Record>)
    requires NoTwins(records) && records != []
    ensures NoTwins(records[1..]) && forall q :: q in records[1..] ==> Separate(records[0], q)
  {
    var rest := records[1..];
    assert forall i :: 0 <= i < |rest| ==> rest[i] == records[i + 1];
  }

  lemma ConsNoTwins(r: Record, rest: seq<Record>)
    requires NoTwins(rest) && forall i :: 0 <= i < |rest| ==> Separate(r, rest[i])
    ensures NoTwins([r] + rest)
  {
  }

  lemma RemoveInverse(f: FacadeState, r: Record)
    requires Inverse(f) && r in f.records
    ensures Inverse(RemoveRecord(f, r))
    ensures forall q :: q in RemoveRecord(f, r).records <==> q in f.records && q != r
    ensures r.userId !in RemoveRecord(f, r).users
  {
    WithoutTicketNoTwins(f.records, r.ticketId);
    var after := RemoveRecord(f, r);
    hide NoTwins, Owners, WithoutTicket;
    RemainingRecords(f.records, r);
    RemainingOwners(f.records, r);
  }

  lemma RemainingRecords(records: seq<Record>, r: Record)
    requires NoTwins(records) && r in records
    ensures forall q :: q in WithoutTicket(records, r.ticketId) <==> q in records && q != r
    ensures forall q :: q in WithoutTicket(records, r.ticketId) ==> Separate(q, r)
  {
    hide NoTwins;
    forall q | q in records ensures q == r || Separate(q, r) {
      TwinIsSame(records, q, r);
    }
  }

  lemma RemainingOwners(records: seq<Record>, r: Record)
    requires NoTwins(records) && r in records
    ensures Owners(WithoutTicket(records, r.ticketId)) == Owners(records) - {r.userId}
  {
    RemainingRecords(records, r);
    hide NoTwins, WithoutTicket;
    forall u | u in Owners(records) - {r.userId} ensures u in Owners(WithoutTicket(records, r.ticketId)) {
      var q :| q in records && q.userId == u;
      assert q in WithoutTicket(records, r.ticketId);
    }
  }

  lemma EnterIs(f: FacadeState, e: Entry, w: World)
    ensures var (pool, r) := Add(f.pool, NewParticipant(e, w.now), w.now);
            var f1 := Follow(f, pool, w);
            Enter(f, e, w) ==
            if e.userId in f.users || r.DuplicateEntry? then (f, DuplicateUser)
            else (f1.(records := f1.records + [NewRecord(e, w.now)], users := f1.users[e.userId := e.ticketId]), Enqueued)
  {
    hide Add, MarkAll, News;
  }

  lemma EnterInverse(f: FacadeState, e: Entry, w: World)
    requires Inverse(f) && FreshTicket(f, e)
    ensures Inverse(Enter(f, e, w).0)
  {
    var pool := Add(f.pool, NewParticipant(e, w.now), w.now).0;
    var f1 := Follow(f, pool, w);
    EnterIs(f, e, w);
    FollowInverse(f, pool, w);
    assert SameOwners(f.records, f1.records) && f1.users == f.users by {
      hide News, LastRoom, Inverse;
    }
    SameOwnersSame(f.records, f1.records);
    assert e.userId !in f.users ==> FreshTicket(f1, e);
    hide Inverse, Enter, Follow, Add;
    if e.userId !in f.users {
      AppendInverse(f1, NewRecord(e, w.now));
    }
  }

  lemma AppendInverse(f: FacadeState, r: Record)
    requires Inverse(f) && r.userId !in f.users
    requires forall q :: q in f.records ==> q.ticketId != r.ticketId && q.channel != r.channel
    ensures Inverse(f.(records := f.records + [r], users := f.users[r.userId := r.ticketId]))
  {
    var after := f.(records := f.records + [r], users := f.users[r.userId := r.ticketId]);
    assert forall q :: q in f.records ==> Separate(q, r);
    assert after.users.Keys == f.users.Keys + {r.userId};
    assert Owners(after.records) == Owners(f.records) + {r.userId};
  }

  /** Reconciling keeps exactly the records that still stand for something. */
  lemma {:induction false} ReconciledKeeps(f: FacadeState, todo: seq<Record>, now: int)
    requires Inverse(f) && NoTwins(todo) && forall r :: r in todo ==> r in f.records
    ensures var after := Reconciled(f, todo, now);
            && Inverse(after) && after.pool == f.pool
            && forall r :: r in after.records <==> r in f.records && (r in todo ==> Stays(f, r, now))
    decreases |todo|
  {
    if todo != [] {
      var r, rest := todo[0], todo[1..];
      assert todo == [r] + rest && r in todo;
      var f1 := if Stays(f, r, now) then f else RemoveRecord(f, r);
      TailNoTwins(todo);
      hide Inverse, NoTwins, IsQueued, WithoutTicket;
      assert forall q :: Stays(f1, q, now) == Stays(f, q, now);
      RemoveInverse(f, r);
      hide RemoveRecord, Stays;
      ReconciledKeeps(f1, rest, now);
    }
  }

  lemma ReconcileKeeps(f: FacadeState, now: int)
    requires Inverse(f)
    ensures var after := Reconcile(f, now);
            && Inverse(after) && after.pool == f.pool
            && forall r :: r in after.records <==> r in f.records && Stays(f, r, now)
  {
    ReconciledKeeps(f, f.records, now);
  }

  // ---- the facade and the pool ----------------------------------------------------------------------

  /** The record and the participant of one poll ticket. */
  predicate Of(r: Record, p: Participant) {
    r.ticketId == p.id && r.userId == p.userId && r.channel == p.channel && p.presence.Poll?
  }

  /** Every poll participant the pool holds is searching on its own record. */
  ghost predicate Owned(f: FacadeState) {
    forall p :: p in Places(f.pool) && p.presence.Poll? ==> exists r :: r in f.records && Of(r, p) && r.Searching()
  }

  /** A record shares its ticket or its channel with nobody but its own participant. */
  ghost predicate Private(f: FacadeState) {
    forall p, r :: p in Places(f.pool) && r in f.records && (p.id == r.ticketId || p.channel == r.channel) ==> Of(r, p)
  }

  ghost predicate FacadeInv(f: FacadeState) {
    Inv(f.pool) && Inverse(f) && Owned(f) && Private(f)
  }

  function SearchingTickets(f: FacadeState): set<string> {
    set r | r in f.records && r.Searching() :: r.ticketId
  }

  ghost function PollIds(s: PoolState): set<string> {
    set p | p in Places(s) && p.presence.Poll? :: p.id
  }

  /** The searching tickets are those the pool holds; every other record is within its grace window. */
  ghost predicate Agreement(f: FacadeState, now: int) {
    && SearchingTickets(f) == PollIds(f.pool)
    && (forall r :: r in f.records && !r.Searching() ==> now - r.lastPollAt <= MATCHED_GRACE_MS)
  }

  /** No poll participant told of a match was put back. */
  ghost predicate Kept(s: PoolState, after: PoolState, w: World) {
    forall e :: e in News(s, after) && e.FoundSent? && e.p.presence.Poll? ==> e.p.id !in w.back
  }

  lemma {:induction false} LastRoomIs(events: seq<Event>, channel: nat, roomOf: nat -> nat)
    ensures LastRoom(events, channel, roomOf).Some? <==> exists e :: e in events && e.FoundSent? && e.p.channel == channel
  {
    if events != [] {
      var last := events[|events| - 1];
      assert events == events[..|events| - 1] + [last];
      LastRoomIs(events[..|events| - 1], channel, roomOf);
      assert last in events;
    }
  }

  /** The room is that of the last FOUND sent on the channel. */
  lemma {:induction false} LastRoomIsLatest(events: seq<Event>, channel: nat, roomOf: nat -> nat, i: nat)
    requires i < |events| && events[i].FoundSent? && events[i].p.channel == channel
    requires forall j :: i < j < |events| && events[j].FoundSent? ==> events[j].p.channel != channel
    ensures LastRoom(events, channel, roomOf) == Some(roomOf(events[i].matchId))
  {
    if i < |events| - 1 {
      LastRoomIsLatest(events[..|events| - 1], channel, roomOf, i);
    }
  }

  lemma NotTold(s: PoolState, after: PoolState, p: Participant, w: World, env: Surroundings)
    requires Unique(Places(s)) && Effect(s, after, env) && env.back == w.back && Kept(s, after, w)
    requires p in Places(s) && p in Places(after) && p.presence.Poll?
    ensures LastRoom(News(s, after), p.channel, w.roomOf).None?
  {
    LastRoomIs(News(s, after), p.channel, w.roomOf);
    hide LastRoom, News, Places, Unique;
    forall e | e in News(s, after) && e.FoundSent? ensures e.p.channel == p.channel ==> e.p == p {
      if e.p.channel == p.channel {
        OnePlaceOnly(Places(s), e.p, p);
      }
    }
  }

  lemma OnePlaceOnly(places: multiset<Participant>, p: Participant, q: Participant)
    requires Unique(places) && p in places && q in places && (p.channel == q.channel || p.id == q.id)
    ensures p == q
  {
  }

  lemma FollowKeeps(f: FacadeState, pool: PoolState, w: World, env: Surroundings)
    requires FacadeInv(f) && Inv(pool) && Effect(f.pool, pool, env) && env.back == w.back && Kept(f.pool, pool, w)
    ensures FacadeInv(Follow(f, pool, w))
  {
    var after := Follow(f, pool, w);
    hide *;
    FacadeParts(f);
    FacadeParts(after);
    InvBooks(f.pool);
    EffectPlaces(f.pool, pool, env);
    FollowInverse(f, pool, w);
    FollowParts(f, pool, w);
    forall p | p in Places(pool) && p.presence.Poll? ensures LastRoom(News(f.pool, pool), p.channel, w.roomOf).None? {
      NotTold(f.pool, pool, p, w, env);
    }
    FollowOwned(f, pool, w);
    FollowPrivate(f, pool, w);
  }

  lemma FollowParts(f: FacadeState, pool: PoolState, w: World)
    ensures Follow(f, pool, w).pool == pool && Follow(f, pool, w).users == f.users
    ensures Follow(f, pool, w).records == MarkAll(f.records, News(f.pool, pool), w.roomOf)
  {
    hide News, MarkAll;
  }

  lemma FollowOwned(f: FacadeState, pool: PoolState, w: World)
    requires Owned(f) && forall p :: p in Places(pool) ==> p in Places(f.pool)
    requires forall p :: p in Places(pool) && p.presence.Poll? ==> LastRoom(News(f.pool, pool), p.channel, w.roomOf).None?
    ensures Owned(Follow(f, pool, w))
  {
    var after := Follow(f, pool, w);
    FollowParts(f, pool, w);
    hide News, LastRoom, Places, Follow;
    forall p | p in Places(pool) && p.presence.Poll? ensures exists r :: r in after.records && Of(r, p) && r.Searching() {
      var r :| r in f.records && Of(r, p) && r.Searching();
      var i :| 0 <= i < |f.records| && f.records[i] == r;
      assert after.records[i] == r;
    }
  }

  lemma FollowPrivate(f: FacadeState, pool: PoolState, w: World)
    requires Private(f) && forall p :: p in Places(pool) ==> p in Places(f.pool)
    ensures Private(Follow(f, pool, w))
  {
    var after := Follow(f, pool, w);
    FollowParts(f, pool, w);
    hide News, LastRoom, Places, Follow;
    forall p, r | p in Places(pool) && r in after.records && (p.id == r.ticketId || p.channel == r.channel) ensures Of(r, p) {
      var i :| 0 <= i < |after.records| && after.records[i] == r;
      assert SameOwner(f.records[i], r) && f.records[i] in f.records;
    }
  }

  lemma EffectPlaces(s: PoolState, after: PoolState, env: Surroundings)
    requires Effect(s, after, env)
    ensures forall p :: p in Places(after) ==> p in Places(s)
  {
  }

  lemma QueuedIsHeld(f: FacadeState, r: Record)
    requires FacadeInv(f) && r in f.records
    ensures IsQueued(f.pool, r.ticketId) <==> exists p :: p in Places(f.pool) && Of(r, p)
  {
    hide Inv, Inverse, Owned, Places;
    QueuedHasPlace(f.pool, r.ticketId);
  }

  lemma QueuedHasPlace(s: PoolState, id: string)
    ensures IsQueued(s, id) <==> exists p :: p in Places(s) && p.id == id
  {
    var queued, held := FindById(s.waiting, id), PendingOfId(s.pending, id);
    if queued.Some? {
      WaitingHasPlace(s, queued.value);
    } else if held.Some? {
      PendingHasPlace(s, held.value, FindById(held.value.game.participants, id).value);
    } else {
      NobodyWithId(s, id);
    }
  }

  lemma RecordOfPlace(f: FacadeState, p: Participant) returns (r: Record)
    requires FacadeInv(f) && p in Places(f.pool) && p.presence.Poll?
    ensures r in f.records && Of(r, p) && r.Searching()
  {
    hide Inv, Inverse, Private, Places;
    r :| r in f.records && Of(r, p) && r.Searching();
  }

  lemma FacadeParts(f: FacadeState)
    ensures FacadeInv(f) <==> Inv(f.pool) && Inverse(f) && Owned(f) && Private(f)
  {
    hide Inv, Inverse, Owned, Private;
  }

  /** Reconciling after a tick leaves a facade in agreement with its pool. */
  lemma {:induction false} ReconcileAgrees(f: FacadeState, now: int)
    requires FacadeInv(f)
    ensures FacadeInv(Reconcile(f, now)) && Agreement(Reconcile(f, now), now)
  {
    var after := Reconcile(f, now);
    FacadeParts(f);
    FacadeParts(after);
    hide Inv, Inverse, Reconcile, Places, FacadeInv, IsQueued;
    ReconcileKeeps(f, now);
    forall p | p in Places(f.pool) && p.presence.Poll?
      ensures exists r :: r in after.records && Of(r, p) && r.Searching()
    {
      var r := RecordOfPlace(f, p);
      QueuedIsHeld(f, r);
    }
    forall r | r in after.records && r.Searching() ensures r.ticketId in PollIds(f.pool) {
      QueuedIsHeld(f, r);
    }
    SameTickets(after);
  }

  lemma SameTickets(f: FacadeState)
    requires Owned(f) && forall r :: r in f.records && r.Searching() ==> r.ticketId in PollIds(f.pool)
    ensures SearchingTickets(f) == PollIds(f.pool)
  {
    hide Places;
    forall id | id in PollIds(f.pool) ensures id in SearchingTickets(f) {
      var p :| p in Places(f.pool) && p.presence.Poll? && p.id == id;
      var r :| r in f.records && Of(r, p) && r.Searching();
    }
  }

  lemma TickMoves(f: FacadeState, w: World) returns (pool: PoolState)
    requires FacadeInv(f)
    ensures pool == Tick(f.pool, Outside(f, w)) && Inv(pool) && Effect(f.pool, pool, Outside(f, w))
    ensures FacadeTick(f, w) == Reconcile(Follow(f, pool, w), w.now)
  {
    FacadeParts(f);
    hide *;
    pool := Tick(f.pool, Outside(f, w));
    TickKeeps(f.pool, Outside(f, w));
    TickEffect(f.pool, Outside(f, w));
    FacadeTickIs(f, w);
  }

  lemma FacadeTickIs(f: FacadeState, w: World)
    ensures FacadeTick(f, w) == Reconcile(Follow(f, Tick(f.pool, Outside(f, w)), w), w.now)
    ensures Outside(f, w).back == w.back
  {
    hide Tick, Reconcile, Follow;
  }

  /** Among the players of these matches, no poll participant is both told of its match and put back. */
  ghost predicate Discreet(games: seq<Match>, w: World) {
    forall game, p :: game in games && p in game.participants && p.presence.Poll? ==> p.id !in w.told || p.id !in w.back
  }

  /** When a call's FOUNDs are those of `games`, what the handler does with their players decides. */
  lemma KeptExactly(s: PoolState, after: PoolState, games: seq<Match>, env: Surroundings, w: World)
    requires env.told == w.told
    requires forall e: Event :: e.FoundSent? ==> (e in News(s, after) <==> TellsOf(games, env, e))
    ensures Kept(s, after, w) <==> Discreet(games, w)
  {
    hide News;
    if Kept(s, after, w) {
      forall game, p | game in games && p in game.participants && p.presence.Poll? ensures p.id !in w.told || p.id !in w.back {
        if p.id in w.told {
          var e := FoundSent(p, game.id);
          assert TellsOf(games, env, e);
          assert e in News(s, after);
        }
      }
    }
  }

  lemma TickKeptExactly(f: FacadeState, w: World)
    requires FacadeInv(f)
    ensures Kept(f.pool, Tick(f.pool, Outside(f, w)), w) <==> Discreet(TickGames(f.pool, Outside(f, w)), w)
  {
    var env := Outside(f, w);
    assert env.told == w.told;
    FacadeParts(f);
    hide *;
    forall e: Event | e.FoundSent? ensures e in News(f.pool, Tick(f.pool, env)) <==> TellsOf(TickGames(f.pool, env), env, e) {
      TickFinds(f.pool, env, e);
    }
    KeptExactly(f.pool, Tick(f.pool, env), TickGames(f.pool, env), env, w);
  }

  /**
    After a tick of the facade its records agree with the pool if and only if, among the matches the tick
    hands over, no poll participant is both told and put back. All of this is known before the tick.
   */
  lemma FacadeTickAgrees(f: FacadeState, w: World)
    requires FacadeInv(f)
    ensures Agreement(FacadeTick(f, w), w.now) <==> Discreet(TickGames(f.pool, Outside(f, w)), w)
    ensures Discreet(TickGames(f.pool, Outside(f, w)), w) ==> FacadeInv(FacadeTick(f, w))
  {
    hide *;
    TickKeptExactly(f, w);
    AgreesWhenKept(f, w);
  }

  /** A handler that never both tells and puts back the same participant keeps facade and pool in agreement. */
  lemma CarefulHandlerAgrees(f: FacadeState, w: World)
    requires FacadeInv(f) && w.told !! w.back
    ensures FacadeInv(FacadeTick(f, w)) && Agreement(FacadeTick(f, w), w.now)
  {
    assert Discreet(TickGames(f.pool, Outside(f, w)), w) by {
      hide TickGames, Outside;
    }
    hide *;
    FacadeTickAgrees(f, w);
  }

  lemma AgreesWhenKept(f: FacadeState, w: World)
    requires FacadeInv(f)
    ensures Agreement(FacadeTick(f, w), w.now) <==> Kept(f.pool, Tick(f.pool, Outside(f, w)), w)
    ensures Kept(f.pool, Tick(f.pool, Outside(f, w)), w) ==> FacadeInv(FacadeTick(f, w))
  {
    hide *;
    var pool := TickMoves(f, w);
    FacadeTickIs(f, w);
    if Kept(f.pool, pool, w) {
      FollowKeeps(f, pool, w, Outside(f, w));
      ReconcileAgrees(Follow(f, pool, w), w.now);
    } else {
      var e := ToldAndPutBack(f.pool, pool, w);
      DisagreesAbout(f, pool, w, e);
    }
  }

  lemma ToldAndPutBack(s: PoolState, after: PoolState, w: World) returns (e: Event)
    requires !Kept(s, after, w)
    ensures e in News(s, after) && e.FoundSent? && e.p.presence.Poll? && e.p.id in w.back
  {
    e :| e in News(s, after) && e.FoundSent? && e.p.presence.Poll? && e.p.id in w.back;
  }

  /** A poll participant told of its match and put back is held by the pool, but no longer searching. */
  lemma DisagreesAbout(f: FacadeState, pool: PoolState, w: World, e: Event)
    requires FacadeInv(f) && Inv(pool) && Effect(f.pool, pool, Outside(f, w))
    requires e in News(f.pool, pool) && e.FoundSent? && e.p.presence.Poll? && e.p.id in w.back
    ensures !Agreement(Reconcile(Follow(f, pool, w), w.now), w.now)
  {
    var f1 := Follow(f, pool, w);
    var after := Reconcile(f1, w.now);
    assert e.p in Places(f.pool) && e.p in Places(pool);
    hide *;
    FacadeParts(f);
    FollowParts(f, pool, w);
    NobodySearches(f, pool, w, e);
    FollowInverse(f, pool, w);
    ReconcileKeeps(f1, w.now);
    HeldButNotSearching(after, w.now, e.p);
  }

  lemma NobodySearches(f: FacadeState, pool: PoolState, w: World, e: Event)
    requires FacadeInv(f) && e in News(f.pool, pool) && e.FoundSent? && e.p in Places(f.pool) && e.p.presence.Poll?
    ensures forall m :: m in Follow(f, pool, w).records && m.ticketId == e.p.id ==> !m.Searching()
  {
    var after := Follow(f, pool, w);
    FollowParts(f, pool, w);
    FacadeParts(f);
    LastRoomIs(News(f.pool, pool), e.p.channel, w.roomOf);
    hide News, LastRoom, Places, Follow, Inverse, FacadeInv, Inv;
    forall m | m in after.records && m.ticketId == e.p.id ensures !m.Searching() {
      var i :| 0 <= i < |after.records| && after.records[i] == m;
      assert f.records[i] in f.records && Of(f.records[i], e.p);
    }
  }

  lemma HeldButNotSearching(f: FacadeState, now: int, p: Participant)
    requires p in Places(f.pool) && p.presence.Poll?
    requires forall m :: m in f.records && m.ticketId == p.id ==> !m.Searching()
    ensures !Agreement(f, now)
  {
    hide Places;
    assert p.id in PollIds(f.pool);
    assert p.id !in SearchingTickets(f);
  }
}
