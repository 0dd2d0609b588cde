/** Whole runs of the facade: poll clients and socket clients, any calls in any order. */
module FacadeRuns {
  import opened Options
  import opened QueueEntry
  import opened Participants
  import opened Pairing
  import opened PoolModel
  import opened PoolBooks
  import opened PoolTrace
  import opened PoolInvariants
  import opened PoolTicks
  import opened PoolLoops
  import opened PoolEffects
  import opened PoolHandOvers
  import opened FacadeModel
  import opened FacadeInvariants
  import PoolReturns

  datatype FacadeCall =
    | EnqueueCall(e: Entry)
    | PollCall(ticketId: string)
    | CancelCall(ticketId: string)
    | AbortCall(roomId: nat)
    | TickCall
    | SocketStep(call: SocketCall)

  datatype FacadeMoment = FacadeMoment(call: FacadeCall, world: World)

  function FacadeStep(f: FacadeState, m: FacadeMoment): FacadeState {
    match m.call
    case EnqueueCall(e) => Enqueue(f, e, m.world).0
    case PollCall(ticketId) => PollTicket(f, ticketId, m.world.now).0
    case CancelCall(ticketId) => Cancel(f, ticketId, m.world).0
    case AbortCall(roomId) => AbortRoom(f, roomId, m.world)
    case TickCall => FacadeTick(f, m.world)
    case SocketStep(call) => SocketOp(f, call, m.world)
  }

  function FacadeRun(f: FacadeState, moments: seq<FacadeMoment>): FacadeState
    decreases |moments|
  {
    if moments == [] then f else FacadeRun(FacadeStep(f, moments[0]), moments[1..])
  }

  /** Ticket ids are random and every ticket gets a channel of its own. */
  ghost predicate FreshEntry(f: FacadeState, e: Entry, now: int) {
    && FreshTicket(f, e)
    && Arrival(f.pool, NewParticipant(e, now))
    && (forall q :: q in Places(f.pool) ==> q.id != e.ticketId)
  }

  /** A socket's id is no ticket, and its connection no poll channel. */
  ghost predicate SocketArrival(f: FacadeState, p: Participant) {
    && p.presence.Socket?
    && Arrival(f.pool, p)
    && (forall r :: r in f.records ==> r.ticketId != p.id && r.channel != p.channel)
  }

  ghost predicate LegalStep(f: FacadeState, m: FacadeMoment) {
    && (m.call.EnqueueCall? ==> FreshEntry(f, m.call.e, m.world.now))
    && (m.call.SocketStep? && m.call.call.EnterSocket? ==> SocketArrival(f, m.call.call.p))
  }

  // ---- every call keeps the facade ----------------------------------------------------------------

  /** When nobody was told of a match, no record changes. */
  lemma QuietFollow(f: FacadeState, pool: PoolState, w: World, extra: set<Participant>)
    requires Plain(f.pool, pool, extra)
    ensures Follow(f, pool, w) == f.(pool := pool)
  {
    var after := Follow(f, pool, w);
    forall i | 0 <= i < |f.records| ensures after.records[i] == f.records[i] {
      LastRoomIs(News(f.pool, pool), f.records[i].channel, w.roomOf);
    }
    assert after.records == f.records;
  }

  lemma RemoveOwned(f: FacadeState, r: Record)
    requires Inv(f.pool) && Inverse(f) && Owned(f) && Private(f) && r in f.records
    requires forall p :: p in Places(f.pool) ==> p.id != r.ticketId
    ensures FacadeInv(RemoveRecord(f, r))
  {
    var after := RemoveRecord(f, r);
    assert after.pool == f.pool;
    hide Inv, Inverse, Places, RemoveRecord;
    RemoveInverse(f, r);
    forall p | p in Places(f.pool) && p.presence.Poll? ensures exists q :: q in after.records && Of(q, p) && q.Searching() {
      var q :| q in f.records && Of(q, p) && q.Searching();
      assert q in after.records;
    }
  }

  lemma Shrunk(f: FacadeState, pool: PoolState)
    requires FacadeInv(f) && Inv(pool) && Plain(f.pool, pool, {})
    ensures FacadeInv(f.(pool := pool))
  {
    hide Inv, NoTwins, Places, News;
  }

  lemma Withdrawn(f: FacadeState, r: Record, w: World) returns (pool: PoolState)
    requires FacadeInv(f) && r in f.records
    ensures pool == Remove(f.pool, r.ticketId, w.now) && Inv(pool)
    ensures Follow(f, pool, w) == f.(pool := pool) && Plain(f.pool, pool, {})
    ensures FacadeInv(RemoveRecord(f.(pool := pool), r))
  {
    FacadeParts(f);
    pool := Remove(f.pool, r.ticketId, w.now);
    assert pool == Withdraw(f.pool, r.ticketId, Cancelled, Cancelled, w.now).0;
    hide *;
    WithdrawKeeps(f.pool, r.ticketId, Cancelled, Cancelled, w.now);
    WithdrawPlain(f.pool, r.ticketId, Cancelled, Cancelled, w.now);
    QuietFollow(f, pool, w, {});
    Shrunk(f, pool);
    FacadeParts(f.(pool := pool));
    RemoveOwned(f.(pool := pool), r);
  }

  lemma CancelKeeps(f: FacadeState, ticketId: string, w: World)
    requires FacadeInv(f)
    ensures FacadeInv(Cancel(f, ticketId, w).0)
  {
    var r := FindRecord(f.records, ticketId);
    if r.Some? {
      var pool := Withdrawn(f, r.value, w);
    }
  }

  /** Cancelling frees the ticket, its user and its place in the pool, and nobody else's; an unknown ticket is refused. */
  lemma CancelFrees(f: FacadeState, ticketId: string, w: World)
    requires FacadeInv(f)
    ensures var (after, cancelled) := Cancel(f, ticketId, w);
            && (cancelled <==> exists r :: r in f.records && r.ticketId == ticketId)
            && (forall r :: r in after.records <==> r in f.records && r.ticketId != ticketId)
            && (forall r :: r in f.records ==> (r.userId in after.users <==> r.ticketId != ticketId))
            && (cancelled ==> !IsQueued(after.pool, ticketId))
  {
    var r := FindRecord(f.records, ticketId);
    FacadeParts(f);
    OwnUsers(f);
    if r.Some? {
      var pool := Withdrawn(f, r.value, w);
      assert pool == Withdraw(f.pool, ticketId, Cancelled, Cancelled, w.now).0;
      assert Cancel(f, ticketId, w) == (RemoveRecord(f.(pool := pool), r.value), true);
      hide *;
      RemovedFrom(f, pool, r.value);
      WithdrawKeeps(f.pool, ticketId, Cancelled, Cancelled, w.now);
      QueuedHasPlace(pool, ticketId);
    }
  }

  lemma OwnUsers(f: FacadeState)
    requires Inverse(f)
    ensures forall r :: r in f.records ==> r.userId in f.users
    ensures forall r, q :: r in f.records && q in f.records && (r.ticketId == q.ticketId || r.userId == q.userId) ==> r == q
  {
    forall r, q | r in f.records && q in f.records && (r.ticketId == q.ticketId || r.userId == q.userId) ensures r == q {
      TwinIsSame(f.records, r, q);
    }
  }

  /** A ticket is refused exactly when its user has a record or a place in the pool, and then nothing changes. */
  lemma EnqueueAnswers(f: FacadeState, e: Entry, w: World)
    requires FacadeInv(f) && FreshEntry(f, e, w.now)
    ensures Enqueue(f, e, w).1.DuplicateUser? <==> e.userId in f.users || AlreadyIn(f.pool, e.userId)
    ensures Enqueue(f, e, w).1.DuplicateUser? ==> Enqueue(f, e, w).0 == f
  {
    var p := NewParticipant(e, w.now);
    assert Arrival(f.pool, p) && p.presence.Poll? && p.userId == e.userId;
    EnterIs(f, e, w);
    EnqueueIs(f, e, w);
    FacadeParts(f);
    hide *;
    AddKeeps(f.pool, p, w.now);
  }

  lemma PollKeeps(f: FacadeState, ticketId: string, now: int)
    requires FacadeInv(f)
    ensures FacadeInv(PollTicket(f, ticketId, now).0)
  {
    var after := f.(records := Refresh(f.records, ticketId, now));
    PollIs(f, ticketId, now);
    hide *;
    FacadeParts(f);
    FacadeParts(after);
    RefreshInverse(f, ticketId, now);
    PolledOwned(f, ticketId, now);
    PolledPrivate(f, ticketId, now);
  }

  lemma PollIs(f: FacadeState, ticketId: string, now: int)
    ensures PollTicket(f, ticketId, now).0 ==
            if FindRecord(f.records, ticketId).None? then f else f.(records := Refresh(f.records, ticketId, now))
  {
    hide Refresh;
  }

  lemma PolledOwned(f: FacadeState, ticketId: string, now: int)
    requires Owned(f)
    ensures Owned(f.(records := Refresh(f.records, ticketId, now)))
  {
    var after := f.(records := Refresh(f.records, ticketId, now));
    hide Places, Refresh;
    forall p | p in Places(f.pool) && p.presence.Poll? ensures exists r :: r in after.records && Of(r, p) && r.Searching() {
      var r :| r in f.records && Of(r, p) && r.Searching();
      var i :| 0 <= i < |f.records| && f.records[i] == r;
      assert after.records[i] in after.records && Of(after.records[i], p);
    }
  }

  lemma PolledPrivate(f: FacadeState, ticketId: string, now: int)
    requires Private(f)
    ensures Private(f.(records := Refresh(f.records, ticketId, now)))
  {
    var after := f.(records := Refresh(f.records, ticketId, now));
    hide Places, Refresh;
    forall p, r | p in Places(f.pool) && r in after.records && (p.id == r.ticketId || p.channel == r.channel) ensures Of(r, p) {
      var i :| 0 <= i < |after.records| && after.records[i] == r;
      assert f.records[i] in f.records && SameOwner(f.records[i], r);
    }
  }

  lemma NothingPlain(s: PoolState)
    ensures Plain(s, s, {})
  {
    assert News(s, s) == [];
  }

  lemma {:induction false} AbortKeeps(f: FacadeState, todo: seq<Record>, roomId: nat, w: World)
    requires FacadeInv(f) && NoTwins(todo) && forall r :: r in todo ==> r in f.records
    ensures var after := Abort(f, todo, roomId, w);
            && FacadeInv(after) && Plain(f.pool, after.pool, {})
            && (forall r :: r in after.records <==> r in f.records && (r in todo ==> r.roomId != Some(roomId)))
            && (forall u :: u in after.users ==> u in f.users)
            && (forall r :: r in todo && r.roomId == Some(roomId) ==> r.userId !in after.users)
    decreases |todo|
  {
    if todo == [] {
      NothingPlain(f.pool);
    } else {
      var r, rest := todo[0], todo[1..];
      assert todo == [r] + rest && r in todo;
      hide *;
      TailNoTwins(todo);
      AbortUnfolds(f, todo, roomId, w);
      FacadeParts(f);
      if r.roomId != Some(roomId) {
        AbortKeeps(f, rest, roomId, w);
      } else {
        var pool := Withdrawn(f, r, w);
        var f1 := RemoveRecord(f.(pool := pool), r);
        RemovedFrom(f, pool, r);
        NotInTail(todo);
        AbortKeeps(f1, rest, roomId, w);
        var after := Abort(f1, rest, roomId, w);
        PlainThen(f.pool, pool, after.pool, {});
        FreedWith(f, f1, after, r, rest, roomId);
      }
    }
  }

  /** Once the first ticket is freed and then those of the rest, all are. */
  lemma FreedWith(f: FacadeState, f1: FacadeState, after: FacadeState, r: Record, rest: seq<Record>, roomId: nat)
    requires r in f.records && r.roomId == Some(roomId) && r !in rest
    requires forall q :: q in f1.records <==> q in f.records && q != r
    requires forall u :: u in f1.users <==> u in f.users && u != r.userId
    requires forall q :: q in after.records <==> q in f1.records && (q in rest ==> q.roomId != Some(roomId))
    requires forall u :: u in after.users ==> u in f1.users
    requires forall q :: q in rest && q.roomId == Some(roomId) ==> q.userId !in after.users
    ensures forall q :: q in after.records <==> q in f.records && (q in [r] + rest ==> q.roomId != Some(roomId))
    ensures forall u :: u in after.users ==> u in f.users
    ensures forall q :: q in [r] + rest && q.roomId == Some(roomId) ==> q.userId !in after.users
  {
  }

  lemma AbortUnfolds(f: FacadeState, todo: seq<Record>, roomId: nat, w: World)
    requires todo != []
    ensures Abort(f, todo, roomId, w) ==
            if todo[0].roomId != Some(roomId) then Abort(f, todo[1..], roomId, w)
            else Abort(RemoveRecord(Follow(f, Remove(f.pool, todo[0].ticketId, w.now), w), todo[0]), todo[1..], roomId, w)
  {
  }

  lemma RemovedFrom(f: FacadeState, pool: PoolState, r: Record)
    requires Inverse(f) && r in f.records
    ensures var f1 := RemoveRecord(f.(pool := pool), r);
            && f1.pool == pool
            && (forall q :: q in f1.records <==> q in f.records && q != r)
            && (forall u :: u in f1.users <==> u in f.users && u != r.userId)
  {
    assert Inverse(f.(pool := pool));
    hide Inverse;
    RemoveInverse(f.(pool := pool), r);
  }

  lemma NotInTail(todo: seq<Record>)
    requires NoTwins(todo) && todo != []
    ensures todo[0] !in todo[1..]
  {
    TailNoTwins(todo);
  }

  /** Aborting a room frees every ticket matched into it, and its user at the same time, and no other. */
  lemma AbortFrees(f: FacadeState, roomId: nat, w: World)
    requires FacadeInv(f)
    ensures var after := AbortRoom(f, roomId, w);
            && FacadeInv(after)
            && (forall r :: r in after.records <==> r in f.records && r.roomId != Some(roomId))
            && (forall r :: r in f.records ==> (r.userId in after.users <==> r.roomId != Some(roomId)))
  {
    assert NoTwins(f.records);
    hide Inv, NoTwins, Owned, Private, Plain;
    AbortKeeps(f, f.records, roomId, w);
  }

  lemma EnterKeeps(f: FacadeState, e: Entry, w: World)
    requires FacadeInv(f) && FreshEntry(f, e, w.now)
    ensures FacadeInv(Enter(f, e, w).0) && Enter(f, e, w).0.pool.trace == f.pool.trace
  {
    var p := NewParticipant(e, w.now);
    var (pool, added) := Add(f.pool, p, w.now);
    var entered := NewRecord(e, w.now);
    assert Arrival(f.pool, p) && FreshTicket(f, e) && (forall q :: q in Places(f.pool) ==> q.id != p.id && q.channel != p.channel);
    AddCases(f.pool, p, w.now);
    assert pool.trace == f.pool.trace;
    EnterIs(f, e, w);
    assert p.presence.Poll? && Of(entered, p) && entered.Searching();
    hide *;
    FacadeParts(f);
    AddKeeps(f.pool, p, w.now);
    AddPlain(f.pool, p, w.now);
    QuietFollow(f, pool, w, {p});
    EnterInverse(f, e, w);
    if e.userId !in f.users && added.Stored? {
      WithEntry(f, pool, p, entered, Enter(f, e, w).0);
    }
  }

  lemma WithEntry(f: FacadeState, pool: PoolState, p: Participant, entered: Record, after: FacadeState)
    requires Owned(f) && Private(f) && Plain(f.pool, pool, {p}) && Inv(pool) && Inverse(after)
    requires Of(entered, p) && entered.Searching() && after.pool == pool && after.records == f.records + [entered]
    requires forall q :: q in Places(f.pool) ==> q.id != p.id && q.channel != p.channel
    requires forall r :: r in f.records ==> r.ticketId != p.id && r.channel != p.channel
    ensures FacadeInv(after)
  {
    assert forall q :: q in Places(pool) ==> q in Places(f.pool) || q == p;
    hide Inv, Inverse, Places, Plain, Owned, Private;
    OwnedWith(f, p, entered, after);
    PrivateWith(f, p, entered, after);
  }

  lemma OwnedWith(f: FacadeState, p: Participant, entered: Record, after: FacadeState)
    requires Owned(f) && Of(entered, p) && entered.Searching() && after.records == f.records + [entered]
    requires forall q :: q in Places(after.pool) ==> q in Places(f.pool) || q == p
    ensures Owned(after)
  {
    hide Places, Of;
    assert entered in after.records;
    forall q | q in Places(after.pool) && q.presence.Poll? ensures exists r :: r in after.records && Of(r, q) && r.Searching() {
      if q != p {
        var r :| r in f.records && Of(r, q) && r.Searching();
        assert r in after.records;
      }
    }
  }

  lemma PrivateWith(f: FacadeState, p: Participant, entered: Record, after: FacadeState)
    requires Private(f) && Of(entered, p) && after.records == f.records + [entered]
    requires forall q :: q in Places(after.pool) ==> q in Places(f.pool) || q == p
    requires forall q :: q in Places(f.pool) ==> q.id != p.id && q.channel != p.channel
    requires forall r :: r in f.records ==> r.ticketId != p.id && r.channel != p.channel
    ensures Private(after)
  {
    hide Places;
  }

  lemma SocketKeeps(f: FacadeState, call: SocketCall, w: World)
    requires FacadeInv(f) && (call.EnterSocket? ==> SocketArrival(f, call.p))
    requires Discreet(SocketGames(f.pool, call, Outside(f, w)), w)
    ensures FacadeInv(SocketOp(f, call, w))
  {
    hide *;
    SocketKept(f, call, w);
    SocketKeepsWhenKept(f, call, w);
  }

  /** The matches a socket client's call hands over. */
  function SocketGames(s: PoolState, call: SocketCall, env: Surroundings): seq<Match> {
    match call
    case AcceptMatch(matchId, id) => AcceptGames(s, matchId, id, env.now)
    case PoolTick => TickGames(s, env)
    case _ => []
  }

  lemma SocketKept(f: FacadeState, call: SocketCall, w: World)
    requires FacadeInv(f) && (call.EnterSocket? ==> SocketArrival(f, call.p))
    ensures Kept(f.pool, OnPool(f.pool, call, Outside(f, w)), w) <==> Discreet(SocketGames(f.pool, call, Outside(f, w)), w)
  {
    var env := Outside(f, w);
    FacadeParts(f);
    OnPoolIs(f.pool, call, env);
    assert env.told == w.told && env.now == w.now;
    assert call.EnterSocket? ==> Arrival(f.pool, call.p);
    hide *;
    match call {
      case EnterSocket(p) =>
        AddPlain(f.pool, p, env.now);
        PlainKept(f.pool, OnPool(f.pool, call, env), {p}, w);
      case LeaveSocket(id) =>
        WithdrawPlain(f.pool, id, Dequeued, Declined, env.now);
        PlainKept(f.pool, OnPool(f.pool, call, env), {}, w);
      case AcceptMatch(matchId, id) =>
        AcceptKeptExactly(f.pool, matchId, id, env, w);
      case DeclineMatch(matchId, id) =>
        DeclinePlain(f.pool, matchId, id, env.now);
        PlainKept(f.pool, OnPool(f.pool, call, env), {}, w);
      case PoolTick =>
        TickKeptExactly(f, w);
    }
  }

  lemma OnPoolIs(s: PoolState, call: SocketCall, env: Surroundings)
    ensures (OnPool(s, call, env), SocketGames(s, call, env)) ==
            match call
            case EnterSocket(p) => (Add(s, p, env.now).0, [])
            case LeaveSocket(id) => (Withdraw(s, id, Dequeued, Outcome.Declined, env.now).0, [])
            case AcceptMatch(matchId, id) => (Accept(s, matchId, id, env).0, AcceptGames(s, matchId, id, env.now))
            case DeclineMatch(matchId, id) => (Decline(s, matchId, id, env.now).0, [])
            case PoolTick => (Tick(s, env), TickGames(s, env))
  {
    hide Add, Withdraw, Accept, Decline, Tick, AcceptGames, TickGames;
  }

  lemma AcceptKeptExactly(s: PoolState, matchId: nat, id: string, env: Surroundings, w: World)
    requires env.told == w.told
    ensures Kept(s, Accept(s, matchId, id, env).0, w) <==> Discreet(AcceptGames(s, matchId, id, env.now), w)
  {
    hide *;
    forall e: Event | e.FoundSent?
      ensures e in News(s, Accept(s, matchId, id, env).0) <==> TellsOf(AcceptGames(s, matchId, id, env.now), env, e)
    {
      AcceptFinds(s, matchId, id, env, e);
    }
    KeptExactly(s, Accept(s, matchId, id, env).0, AcceptGames(s, matchId, id, env.now), env, w);
  }

  lemma PlainKept(s: PoolState, after: PoolState, extra: set<Participant>, w: World)
    requires Plain(s, after, extra)
    ensures Kept(s, after, w) && Discreet([], w)
  {
  }

  lemma SocketKeepsWhenKept(f: FacadeState, call: SocketCall, w: World)
    requires FacadeInv(f) && (call.EnterSocket? ==> SocketArrival(f, call.p))
    requires Kept(f.pool, OnPool(f.pool, call, Outside(f, w)), w)
    ensures FacadeInv(SocketOp(f, call, w))
  {
    var env := Outside(f, w);
    var pool := OnPool(f.pool, call, env);
    assert SocketOp(f, call, w) == Follow(f, pool, w) && env.back == w.back;
    FacadeParts(f);
    if call.EnterSocket? {
      var p := call.p;
      assert SocketArrival(f, p) && Arrival(f.pool, p) && pool == Add(f.pool, p, env.now).0;
      SocketEnters(f, p, env.now, w);
    } else {
      SocketMoves(f.pool, call, env);
      hide *;
      FollowKeeps(f, pool, w, env);
    }
  }

  lemma SocketMoves(s: PoolState, call: SocketCall, env: Surroundings)
    requires Inv(s) && !call.EnterSocket?
    ensures Inv(OnPool(s, call, env)) && Effect(s, OnPool(s, call, env), env)
  {
    hide Inv, Effect, Plain, Accept, Decline, Tick, Withdraw;
    match call {
      case LeaveSocket(id) =>
        WithdrawKeeps(s, id, Dequeued, Declined, env.now);
        WithdrawPlain(s, id, Dequeued, Declined, env.now);
        PlainEffect(s, OnPool(s, call, env), env);
      case AcceptMatch(matchId, id) =>
        AcceptKeeps(s, matchId, id, env);
        AcceptEffect(s, matchId, id, env);
      case DeclineMatch(matchId, id) =>
        DeclineKeeps(s, matchId, id, env.now);
        DeclinePlain(s, matchId, id, env.now);
        PlainEffect(s, OnPool(s, call, env), env);
      case PoolTick =>
        TickKeeps(s, env);
        TickEffect(s, env);
    }
  }

  lemma SocketEnters(f: FacadeState, p: Participant, now: int, w: World)
    requires FacadeInv(f) && SocketArrival(f, p)
    ensures FacadeInv(Follow(f, Add(f.pool, p, now).0, w))
  {
    var pool := Add(f.pool, p, now).0;
    assert Arrival(f.pool, p) && p.presence.Socket?;
    assert forall r :: r in f.records ==> r.ticketId != p.id && r.channel != p.channel;
    hide *;
    FacadeParts(f);
    FacadeParts(f.(pool := pool));
    AddKeeps(f.pool, p, now);
    AddPlain(f.pool, p, now);
    QuietFollow(f, pool, w, {p});
    WithSocket(f, pool, p);
  }

  lemma WithSocket(f: FacadeState, pool: PoolState, p: Participant)
    requires Owned(f) && Private(f) && Inverse(f) && Plain(f.pool, pool, {p}) && p.presence.Socket?
    requires forall r :: r in f.records ==> r.ticketId != p.id && r.channel != p.channel
    ensures Owned(f.(pool := pool)) && Private(f.(pool := pool)) && Inverse(f.(pool := pool))
  {
    assert forall q :: q in Places(pool) ==> q in Places(f.pool) || q == p;
    hide NoTwins, Owners, Places, Plain;
  }

  // ---- runs -----------------------------------------------------------------------------------------

  ghost predicate FreshTickets(f: FacadeState, moments: seq<FacadeMoment>)
    decreases |moments|
  {
    moments == [] ||
    ((moments[0].call.EnqueueCall? ==> FreshTicket(f, moments[0].call.e)) && FreshTickets(FacadeStep(f, moments[0]), moments[1..]))
  }

  /** The matches a call hands over, read off the facade before it. */
  function FacadeGames(f: FacadeState, call: FacadeCall, w: World): seq<Match> {
    match call
    case EnqueueCall(e) =>
      var (f1, r) := Enter(f, e, w);
      if r.DuplicateUser? then [] else TickGames(f1.pool, Outside(f1, w))
    case TickCall => TickGames(f.pool, Outside(f, w))
    case SocketStep(call) => SocketGames(f.pool, call, Outside(f, w))
    case _ => []
  }

  /** Arrivals are fresh, and no call hands over a match of which a poll participant is told and also put back. */
  ghost predicate LegalRun(f: FacadeState, moments: seq<FacadeMoment>)
    decreases |moments|
  {
    moments == [] ||
    (var m := moments[0];
     LegalStep(f, m) && Discreet(FacadeGames(f, m.call, m.world), m.world) && LegalRun(FacadeStep(f, m), moments[1..]))
  }

  /** Arrivals are fresh, and the handler never both tells a participant and puts it back. */
  ghost predicate CarefulRun(f: FacadeState, moments: seq<FacadeMoment>)
    decreases |moments|
  {
    moments == [] ||
    (var m := moments[0];
     LegalStep(f, m) && m.world.told !! m.world.back && CarefulRun(FacadeStep(f, m), moments[1..]))
  }

  lemma {:induction false} CarefulIsLegal(f: FacadeState, moments: seq<FacadeMoment>)
    requires CarefulRun(f, moments)
    ensures LegalRun(f, moments)
    decreases |moments|
  {
    if moments != [] {
      hide LegalStep, FacadeGames, FacadeStep;
      CarefulIsLegal(FacadeStep(f, moments[0]), moments[1..]);
    }
  }

  lemma {:induction false} AbortInverse(f: FacadeState, todo: seq<Record>, roomId: nat, w: World)
    requires Inverse(f) && NoTwins(todo)
    requires forall r :: r in todo ==> r.userId in f.users && f.users[r.userId] == r.ticketId
    ensures Inverse(Abort(f, todo, roomId, w))
    decreases |todo|
  {
    if todo != [] {
      var r, rest := todo[0], todo[1..];
      assert todo == [r] + rest && r in todo;
      TailNoTwins(todo);
      AbortUnfolds(f, todo, roomId, w);
      var f1 := Follow(f, Remove(f.pool, r.ticketId, w.now), w);
      assert f1.users == f.users && (RemoveRecord(f1, r).users == f1.users - {r.userId});
      assert forall q :: q in rest ==> q in todo && q.userId != r.userId;
      hide *;
      FollowInverse(f, Remove(f.pool, r.ticketId, w.now), w);
      if r.roomId != Some(roomId) {
        AbortInverse(f, rest, roomId, w);
      } else {
        RemoveByOwner(f1, r);
        AbortInverse(RemoveRecord(f1, r), rest, roomId, w);
      }
    }
  }

  /** Removing by ticket and user works from any copy of the record. */
  lemma RemoveByOwner(f: FacadeState, r: Record)
    requires Inverse(f) && r.userId in f.users && f.users[r.userId] == r.ticketId
    ensures Inverse(RemoveRecord(f, r))
  {
    assert r.userId in Owners(f.records);
    var q :| q in f.records && q.userId == r.userId;
    assert RemoveRecord(f, r) == RemoveRecord(f, q);
    hide Inverse, RemoveRecord;
    RemoveInverse(f, q);
  }

  lemma StepInverse(f: FacadeState, m: FacadeMoment)
    requires Inverse(f) && (m.call.EnqueueCall? ==> FreshTicket(f, m.call.e))
    ensures Inverse(FacadeStep(f, m))
  {
    var w := m.world;
    StepIs(f, m);
    hide *;
    match m.call {
      case EnqueueCall(e) =>
        var f1 := Enter(f, e, w).0;
        EnqueueIs(f, e, w);
        EnterInverse(f, e, w);
        TickInverse(f1, w);
      case PollCall(ticketId) =>
        PollIs(f, ticketId, w.now);
        RefreshInverse(f, ticketId, w.now);
      case CancelCall(ticketId) =>
        CancelInverse(f, ticketId, w);
      case AbortCall(roomId) =>
        AllAbort(f, roomId, w);
        AbortInverse(f, f.records, roomId, w);
      case TickCall =>
        TickInverse(f, w);
      case SocketStep(call) =>
        SocketPool(f, call, w);
        FollowInverse(f, OnPool(f.pool, call, Outside(f, w)), w);
    }
  }

  lemma TickInverse(f: FacadeState, w: World)
    requires Inverse(f)
    ensures Inverse(FacadeTick(f, w))
  {
    hide *;
    FacadeTickIs(f, w);
    FollowInverse(f, Tick(f.pool, Outside(f, w)), w);
    ReconcileKeeps(Follow(f, Tick(f.pool, Outside(f, w)), w), w.now);
  }

  lemma CancelInverse(f: FacadeState, ticketId: string, w: World)
    requires Inverse(f)
    ensures Inverse(Cancel(f, ticketId, w).0)
  {
    var r := FindRecord(f.records, ticketId);
    if r.Some? {
      var f1 := Follow(f, Remove(f.pool, ticketId, w.now), w);
      assert r.value.userId in f.users && f.users[r.value.userId] == r.value.ticketId;
      assert Cancel(f, ticketId, w).0 == RemoveRecord(f1, r.value) && f1.users == f.users;
      hide *;
      FollowInverse(f, Remove(f.pool, ticketId, w.now), w);
      RemoveByOwner(f1, r.value);
    }
  }

  lemma AllAbort(f: FacadeState, roomId: nat, w: World)
    requires Inverse(f)
    ensures AbortRoom(f, roomId, w) == Abort(f, f.records, roomId, w) && NoTwins(f.records)
    ensures forall r :: r in f.records ==> r.userId in f.users && f.users[r.userId] == r.ticketId
  {
    hide Abort, NoTwins, Owners;
  }

  lemma StepIs(f: FacadeState, m: FacadeMoment)
    ensures m.call.EnqueueCall? ==> FacadeStep(f, m) == Enqueue(f, m.call.e, m.world).0
    ensures m.call.PollCall? ==> FacadeStep(f, m) == PollTicket(f, m.call.ticketId, m.world.now).0
    ensures m.call.CancelCall? ==> FacadeStep(f, m) == Cancel(f, m.call.ticketId, m.world).0
    ensures m.call.AbortCall? ==> FacadeStep(f, m) == AbortRoom(f, m.call.roomId, m.world)
    ensures m.call.TickCall? ==> FacadeStep(f, m) == FacadeTick(f, m.world)
    ensures m.call.SocketStep? ==> FacadeStep(f, m) == SocketOp(f, m.call.call, m.world)
  {
    hide Enqueue, PollTicket, Cancel, AbortRoom, FacadeTick, SocketOp;
  }

  lemma LegalArrivals(f: FacadeState, m: FacadeMoment)
    requires LegalStep(f, m)
    ensures m.call.EnqueueCall? ==> FreshEntry(f, m.call.e, m.world.now)
    ensures m.call.SocketStep? && m.call.call.EnterSocket? ==> SocketArrival(f, m.call.call.p)
  {
    hide FreshEntry, SocketArrival;
  }

  lemma EnqueueIs(f: FacadeState, e: Entry, w: World)
    ensures var (f1, r) := Enter(f, e, w);
            Enqueue(f, e, w) == (if r.DuplicateUser? then f1 else FacadeTick(f1, w), r)
  {
    hide Enter, FacadeTick;
  }

  /** The records and the users are mutual inverses after every run, whatever the handler does. */
  lemma {:induction false} InverseAlways(f: FacadeState, moments: seq<FacadeMoment>)
    requires Inverse(f) && FreshTickets(f, moments)
    ensures Inverse(FacadeRun(f, moments))
    decreases |moments|
  {
    if moments != [] {
      hide Inverse, FacadeStep, FreshTicket;
      StepInverse(f, moments[0]);
      InverseAlways(FacadeStep(f, moments[0]), moments[1..]);
    }
  }

  lemma StepKeepsFacade(f: FacadeState, m: FacadeMoment)
    requires FacadeInv(f) && LegalStep(f, m) && Discreet(FacadeGames(f, m.call, m.world), m.world)
    ensures FacadeInv(FacadeStep(f, m))
  {
    var w := m.world;
    GamesOfCall(f, m.call, w);
    hide *;
    StepIs(f, m);
    LegalArrivals(f, m);
    match m.call {
      case EnqueueCall(e) =>
        EnqueueAgrees(f, e, w);
      case PollCall(ticketId) =>
        PollKeeps(f, ticketId, w.now);
      case CancelCall(ticketId) =>
        CancelKeeps(f, ticketId, w);
      case AbortCall(roomId) =>
        AbortFrees(f, roomId, w);
      case TickCall =>
        FacadeTickAgrees(f, w);
      case SocketStep(call) =>
        SocketPool(f, call, w);
        SocketKeeps(f, call, w);
    }
  }

  lemma GamesOfCall(f: FacadeState, call: FacadeCall, w: World)
    ensures call.TickCall? ==> FacadeGames(f, call, w) == TickGames(f.pool, Outside(f, w))
    ensures call.SocketStep? ==> FacadeGames(f, call, w) == SocketGames(f.pool, call.call, Outside(f, w))
    ensures call.EnqueueCall? ==>
              var (f1, r) := Enter(f, call.e, w);
              FacadeGames(f, call, w) == if r.DuplicateUser? then [] else TickGames(f1.pool, Outside(f1, w))
  {
    hide Enter, TickGames, SocketGames, Outside;
  }

  lemma SocketPool(f: FacadeState, call: SocketCall, w: World)
    ensures SocketOp(f, call, w) == Follow(f, OnPool(f.pool, call, Outside(f, w)), w)
    ensures SocketOp(f, call, w).pool == OnPool(f.pool, call, Outside(f, w))
  {
    hide OnPool, MarkAll, News;
  }

  /** Enqueueing ticks, so an accepted ticket too leaves facade and pool in agreement under the same condition. */
  lemma EnqueueAgrees(f: FacadeState, e: Entry, w: World)
    requires FacadeInv(f) && FreshEntry(f, e, w.now)
    ensures var (after, r) := Enqueue(f, e, w);
            var discreet := Discreet(FacadeGames(f, EnqueueCall(e), w), w);
            && (r.Enqueued? ==> (Agreement(after, w.now) <==> discreet))
            && (discreet ==> FacadeInv(after))
  {
    var f1 := Enter(f, e, w).0;
    EnqueueIs(f, e, w);
    EnterKeeps(f, e, w);
    EnterRefuses(f, e, w);
    GamesOfCall(f, EnqueueCall(e), w);
    hide *;
    FacadeTickAgrees(f1, w);
  }

  lemma EnterRefuses(f: FacadeState, e: Entry, w: World)
    ensures Enter(f, e, w).1.DuplicateUser? ==> Enter(f, e, w).0 == f
  {
    hide Add, Follow;
  }

  lemma {:induction false} FacadeRunKeeps(f: FacadeState, moments: seq<FacadeMoment>)
    requires FacadeInv(f) && LegalRun(f, moments)
    ensures FacadeInv(FacadeRun(f, moments))
    decreases |moments|
  {
    if moments != [] {
      hide FacadeInv, FacadeStep, LegalStep, Discreet, FacadeGames;
      StepKeepsFacade(f, moments[0]);
      FacadeRunKeeps(FacadeStep(f, moments[0]), moments[1..]);
    }
  }

  lemma EmptyFacadeIsFine()
    ensures FacadeInv(EMPTY_FACADE)
  {
    EmptyPoolIsFine();
  }

  /**
    After any legal run, a tick of the facade leaves exactly the poll participants the pool holds
    searching, and every matched ticket within its grace window, if and only if among the matches that tick
    hands over no poll participant is both told and put back.
   */
  lemma {:induction false} AgreementAfterEveryTick(moments: seq<FacadeMoment>, w: World)
    requires LegalRun(EMPTY_FACADE, moments)
    ensures var f := FacadeRun(EMPTY_FACADE, moments);
            Agreement(FacadeTick(f, w), w.now) <==> Discreet(TickGames(f.pool, Outside(f, w)), w)
  {
    hide *;
    EmptyFacadeIsFine();
    FacadeRunKeeps(EMPTY_FACADE, moments);
    FacadeTickAgrees(FacadeRun(EMPTY_FACADE, moments), w);
  }

  /** With a handler that never both tells a participant and puts it back, every tick of every run leaves agreement. */
  lemma CarefulHandlersAgree(moments: seq<FacadeMoment>, w: World)
    requires CarefulRun(EMPTY_FACADE, moments) && w.told !! w.back
    ensures Agreement(FacadeTick(FacadeRun(EMPTY_FACADE, moments), w), w.now)
  {
    hide *;
    EmptyFacadeIsFine();
    CarefulIsLegal(EMPTY_FACADE, moments);
    FacadeRunKeeps(EMPTY_FACADE, moments);
    CarefulHandlerAgrees(FacadeRun(EMPTY_FACADE, moments), w);
  }

  // ---- the grace window ---------------------------------------------------------------------------

  /**
    What ends a matched ticket is silence, not time since the match: a client that polls at least every
    MATCHED_GRACE_MS keeps its ticket, and so cannot queue again, however long ago it was matched.
   */
  lemma PollingKeepsTheTicket(f: FacadeState, r: Record, polledAt: int, now: int, e: Entry, w: World)
    requires FacadeInv(f) && r in f.records && !r.Searching() && e.userId == r.userId
    ensures var after := Reconcile(PollTicket(f, r.ticketId, polledAt).0, now);
            if now - polledAt <= MATCHED_GRACE_MS
            then r.(lastPollAt := polledAt) in after.records && Enter(after, e, w) == (after, DuplicateUser)
            else r.userId !in after.users
  {
    var f1 := PollTicket(f, r.ticketId, polledAt).0;
    var after := Reconcile(f1, now);
    var polled := r.(lastPollAt := polledAt);
    PollFinds(f, r, polledAt);
    PollKeeps(f, r.ticketId, polledAt);
    FacadeParts(f1);
    EnterIs(after, e, w);
    ReconcileKeeps(f1, now);
    assert Stays(f1, polled, now) <==> now - polledAt <= MATCHED_GRACE_MS;
    hide Inv, PollTicket, Reconcile, Owned, Private, Enter, FacadeInv, Stays;
    assert Inverse(after) && Inverse(f1);
    if now - polledAt > MATCHED_GRACE_MS && r.userId in after.users {
      assert r.userId in Owners(after.records);
      var q :| q in after.records && q.userId == r.userId;
      TwinIsSame(f1.records, q, polled);
    }
  }

  /** A poll answers with the time since the ticket was issued, or with the room it was matched into; an unknown ticket gets neither. */
  lemma PollAnswers(f: FacadeState, ticketId: string, now: int)
    requires FacadeInv(f)
    ensures var answer := PollTicket(f, ticketId, now).1;
            && (answer.UnknownTicket? <==> forall r :: r in f.records ==> r.ticketId != ticketId)
            && forall r :: r in f.records && r.ticketId == ticketId ==>
                 answer == if r.roomId.None? then SearchingFor(now - r.enteredAt) else MatchedIn(r.roomId.value)
  {
    var found := FindRecord(f.records, ticketId);
    assert NoTwins(f.records);
    hide FacadeInv, NoTwins, FindRecord, Refresh;
    forall r | r in f.records && r.ticketId == ticketId ensures found == Some(r) {
      TwinIsSame(f.records, found.value, r);
    }
  }

  lemma PollFinds(f: FacadeState, r: Record, polledAt: int)
    requires FacadeInv(f) && r in f.records
    ensures r.(lastPollAt := polledAt) in PollTicket(f, r.ticketId, polledAt).0.records
    ensures FindRecord(f.records, r.ticketId) == Some(r)
  {
    FacadeParts(f);
    var found := FindRecord(f.records, r.ticketId);
    TwinIsSame(f.records, found.value, r);
    hide Inv, FacadeInv, Owned, Private, NoTwins;
    var i :| 0 <= i < |f.records| && f.records[i] == r;
    assert Refresh(f.records, r.ticketId, polledAt)[i] == r.(lastPollAt := polledAt);
  }
}
