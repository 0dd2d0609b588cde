/**
  The HTTP facade as the program runs it: records and their users updated in place beside a pool. Each
  method is proved to do what `FacadeModel` says and to keep the two maps mutual inverses.
 */
module MatchmakingQueues {
  import opened Options
  import opened QueueEntry
  import opened Participants
  import opened Pairing
  import opened PoolModel
  import opened PoolBooks
  import opened PoolInvariants
  import opened PoolEffects
  import opened MatchmakingPools
  import opened FacadeModel
  import opened FacadeInvariants
  import FacadeRuns

  class MatchmakingQueue {
    const pool: MatchmakingPool
    var records: seq<Record>
    var usersInQueue: map<string, string>

    ghost function State(): FacadeState
      reads this, pool, pool.pending
    {
      FacadeState(pool.State(), records, usersInQueue)
    }

    ghost predicate Valid()
      reads this, pool, pool.store, pool.pending
    {
      pool.Valid() && Inverse(State())
    }

    constructor ()
      ensures Valid() && State() == EMPTY_FACADE
      ensures fresh(pool) && fresh(pool.store) && fresh(pool.pending)
    {
      pool := new MatchmakingPool();
      records, usersInQueue := [], map[];
      new;
      EmptyInverse();
      hide *;
      Parts();
    }

    lemma Parts()
      ensures Valid() <==> pool.Valid() && Inverse(State())
      ensures State() == FacadeState(pool.State(), records, usersInQueue)
      ensures pool.Valid() ==> Inv(pool.State())
    {
      hide Inverse;
      pool.ValidIs();
    }

    /** Registers a poll client, unless its user is already in the queue, and pairs at once. */
    method Enqueue(e: Entry, w: World) returns (r: EnqueueResult)
      requires Valid() && FacadeRuns.FreshEntry(State(), e, w.now)
      modifies this, pool, pool.store, pool.pending
      ensures Valid() && (State(), r) == FacadeModel.Enqueue(old(State()), e, w)
    {
      FacadeRuns.EnqueueIs(State(), e, w);
      hide *;
      r := Enter(e, w);
      if r.DuplicateUser? {
        return;
      }
      Tick(w);
    }

    method Enter(e: Entry, w: World) returns (r: EnqueueResult)
      requires Valid() && FacadeRuns.FreshEntry(State(), e, w.now)
      modifies this, pool, pool.store, pool.pending
      ensures Valid() && (State(), r) == FacadeModel.Enter(old(State()), e, w)
    {
      ghost var f := State();
      Parts();
      EnterIs(f, e, w);
      FreshParts(f, e, w.now);
      hide *;
      if e.userId in usersInQueue {
        return DuplicateUser;
      }
      EnterInverse(f, e, w);
      AddPlain(f.pool, NewParticipant(e, w.now), w.now);
      var added := pool.Add(NewParticipant(e, w.now), w.now);
      FacadeRuns.QuietFollow(f, pool.State(), w, {NewParticipant(e, w.now)});
      if added.DuplicateEntry? {
        Parts();
        SamePool(f, e, w);
        return DuplicateUser;
      }
      records := records + [NewRecord(e, w.now)];
      usersInQueue := usersInQueue[e.userId := e.ticketId];
      Parts();
      r := Enqueued;
    }

    /** Reports a ticket's state; the poll is also its heartbeat. */
    method Poll(ticketId: string, now: int) returns (r: PollResult)
      requires Valid()
      modifies this`records
      ensures Valid() && (State(), r) == PollTicket(old(State()), ticketId, now)
    {
      ghost var f := State();
      hide *;
      Parts();
      RefreshInverse(f, ticketId, now);
      PollIs(f, ticketId, now);
      var found := FindRecord(records, ticketId);
      if found.None? {
        return UnknownTicket;
      }
      records := Refresh(records, ticketId, now);
      Parts();
      r := if found.value.roomId.None? then SearchingFor(now - found.value.enteredAt) else MatchedIn(found.value.roomId.value);
    }

    method Cancel(ticketId: string, w: World) returns (cancelled: bool)
      requires Valid()
      modifies this, pool, pool.store, pool.pending
      ensures Valid() && (State(), cancelled) == FacadeModel.Cancel(old(State()), ticketId, w)
    {
      CancelIs(State(), ticketId, w);
      var found := FindRecord(records, ticketId);
      Parts();
      hide *;
      if found.None? {
        return false;
      }
      Release(found.value, w);
      cancelled := true;
    }

    /** Out of the pool, wherever it is, and out of both maps. */
    method Release(r: Record, w: World)
      requires Valid() && r in records
      modifies this, pool, pool.store, pool.pending
      ensures Valid()
      ensures State() == RemoveRecord(Follow(old(State()), PoolModel.Remove(old(pool.State()), r.ticketId, w.now), w), r)
      ensures forall q :: q in records <==> q in old(records) && q != r
    {
      ghost var f := State();
      ghost var after := PoolModel.Remove(f.pool, r.ticketId, w.now);
      hide *;
      Parts();
      WithdrawPlainly(f.pool, r.ticketId, w.now);
      FacadeRuns.QuietFollow(f, after, w, {});
      FacadeRuns.RemovedFrom(f, after, r);
      FollowInverse(f, after, w);
      RemoveInverse(Follow(f, after, w), r);
      pool.Remove(r.ticketId, w.now);
      Parts();
      DropRecord(r);
      Parts();
    }

    method DropRecord(r: Record)
      modifies this`records, this`usersInQueue
      ensures State() == RemoveRecord(old(State()), r)
    {
      hide WithoutTicket;
      records := WithoutTicket(records, r.ticketId);
      usersInQueue := usersInQueue - {r.userId};
    }

    /** Releases every ticket matched into an aborted room, both players at once. */
    method AbortRoom(roomId: nat, w: World) returns (removed: nat)
      requires Valid()
      modifies this, pool, pool.store, pool.pending
      ensures Valid() && State() == FacadeModel.AbortRoom(old(State()), roomId, w)
      ensures removed == InRoom(old(records), roomId)
    {
      ghost var f := State();
      var todo := records;
      AbortIs(f, roomId, w);
      Parts();
      assert todo[0..] == todo;
      ghost var counted := InRoom(todo, roomId);
      removed := 0;
      for i := 0 to |todo|
        invariant Valid() && NoTwins(todo[i..]) && forall r :: r in todo[i..] ==> r in records
        invariant Abort(State(), todo[i..], roomId, w) == FacadeModel.AbortRoom(f, roomId, w)
        invariant removed + InRoom(todo[i..], roomId) == counted
      {
        hide *;
        assert todo[i..][0] == todo[i] && todo[i..][1..] == todo[i + 1..];
        FacadeRuns.AbortUnfolds(State(), todo[i..], roomId, w);
        InRoomUnfolds(todo[i..], roomId);
        TailRecords(todo[i..]);
        Parts();
        if todo[i].roomId == Some(roomId) {
          Release(todo[i], w);
          removed := removed + 1;
        }
      }
      assert todo[|todo|..] == [];
    }

    /** The pool's tick, then the facade's own reckoning with what the tick did. */
    method Tick(w: World)
      requires Valid()
      modifies this, pool, pool.store, pool.pending
      ensures Valid() && State() == FacadeTick(old(State()), w)
    {
      ghost var f := State();
      var env := Surroundings(w.now, (w.closedSockets - PollChannels(records)) + Lapsed(records, w.now),
                              [Fifo, BotFallback(w.botAvailable)], w.told, w.back);
      OutsideIs(f, w);
      hide *;
      Parts();
      FacadeTickIs(f, w);
      TickEffect(f.pool, env);
      FollowInverse(f, PoolModel.Tick(f.pool, env), w);
      var seen := |pool.trace|;
      pool.StateIs();
      pool.Tick(env);
      pool.StateIs();
      NewsAre(f.pool, pool.State(), env);
      Deliver(pool.trace[seen..], w.roomOf);
      FollowIs(f, pool.State(), w);
      Parts();
      Reconcile(w.now);
    }

    /** Channels change the records they are bound to, in the order they were told. */
    method Deliver(events: seq<Event>, roomOf: nat -> nat)
      modifies this`records
      ensures records == MarkAll(old(records), events, roomOf)
    {
      ghost var was := records;
      assert events[..0] == [];
      MarkNothing(was, roomOf);
      for i := 0 to |events|
        invariant records == MarkAll(was, events[..i], roomOf)
      {
        hide *;
        MarkOne(was, events, i, roomOf);
        if events[i].FoundSent? {
          records := MarkChannel(records, events[i].p.channel, roomOf(events[i].matchId));
        }
      }
      assert events[..|events|] == events;
    }

    method Reconcile(now: int)
      requires Valid()
      modifies this`records, this`usersInQueue
      ensures Valid() && State() == FacadeModel.Reconcile(old(State()), now)
    {
      ghost var f := State();
      var todo := records;
      ReconcileIs(f, now);
      Parts();
      assert todo[0..] == todo;
      for i := 0 to |todo|
        invariant Valid() && NoTwins(todo[i..]) && forall r :: r in todo[i..] ==> r in records
        invariant Reconciled(State(), todo[i..], now) == FacadeModel.Reconcile(f, now)
      {
        hide *;
        assert todo[i..][0] == todo[i] && todo[i..][1..] == todo[i + 1..];
        ReconciledUnfolds(State(), todo[i..], now);
        TailRecords(todo[i..]);
        Parts();
        RemoveInverse(State(), todo[i]);
        pool.ValidLinks();
        var queued := pool.IsQueued(todo[i].ticketId);
        StaysIs(State(), todo[i], now);
        if !(if todo[i].roomId.None? then queued else now - todo[i].lastPollAt <= MATCHED_GRACE_MS) {
          DropRecord(todo[i]);
        }
        Parts();
      }
      assert todo[|todo|..] == [];
    }
  }

  // ---- facts the methods lean on -----------------------------------------------------------------

  lemma EmptyInverse()
    ensures Inverse(EMPTY_FACADE) && EMPTY_FACADE == FacadeState(EMPTY_POOL, [], map[])
  {
  }

  lemma FreshParts(f: FacadeState, e: Entry, now: int)
    requires FacadeRuns.FreshEntry(f, e, now)
    ensures FreshTicket(f, e) && Arrival(f.pool, NewParticipant(e, now)) && NewParticipant(e, now).presence.Poll?
  {
  }

  lemma SamePool(f: FacadeState, e: Entry, w: World)
    ensures PoolModel.Add(f.pool, NewParticipant(e, w.now), w.now).1.DuplicateEntry? ==>
              PoolModel.Add(f.pool, NewParticipant(e, w.now), w.now).0 == f.pool
  {
    hide Abandon, Leave, FindByUser, PendingOfUser;
  }

  lemma PollIs(f: FacadeState, ticketId: string, now: int)
    ensures var r := FindRecord(f.records, ticketId);
            PollTicket(f, ticketId, now) ==
            if r.None? then (f, UnknownTicket)
            else (f.(records := Refresh(f.records, ticketId, now)),
                  if r.value.roomId.None? then SearchingFor(now - r.value.enteredAt) else MatchedIn(r.value.roomId.value))
  {
    hide Refresh;
  }

  lemma CancelIs(f: FacadeState, ticketId: string, w: World)
    ensures var r := FindRecord(f.records, ticketId);
            FacadeModel.Cancel(f, ticketId, w) ==
            if r.None? then (f, false)
            else (RemoveRecord(Follow(f, PoolModel.Remove(f.pool, ticketId, w.now), w), r.value), true)
  {
    hide Follow, PoolModel.Remove, RemoveRecord;
  }

  lemma WithdrawPlainly(s: PoolState, id: string, now: int)
    requires Inv(s)
    ensures Plain(s, PoolModel.Remove(s, id, now), {})
  {
    WithdrawPlain(s, id, Cancelled, Cancelled, now);
  }

  /** How many tickets a room was opened for. */
  function InRoom(records: seq<Record>, roomId: nat): nat {
    if records == [] then 0 else (if records[0].roomId == Some(roomId) then 1 else 0) + InRoom(records[1..], roomId)
  }

  lemma InRoomUnfolds(records: seq<Record>, roomId: nat)
    requires records != []
    ensures InRoom(records, roomId) == (if records[0].roomId == Some(roomId) then 1 else 0) + InRoom(records[1..], roomId)
  {
  }

  lemma AbortIs(f: FacadeState, roomId: nat, w: World)
    ensures FacadeModel.AbortRoom(f, roomId, w) == Abort(f, f.records, roomId, w)
  {
  }

  lemma TailRecords(todo: seq<Record>)
    requires NoTwins(todo) && todo != []
    ensures todo[0] in todo && NoTwins(todo[1..])
    ensures forall r :: r in todo[1..] ==> r in todo && r != todo[0]
  {
    TailNoTwins(todo);
  }

  lemma OutsideIs(f: FacadeState, w: World)
    ensures Outside(f, w) == Surroundings(w.now, (w.closedSockets - PollChannels(f.records)) + Lapsed(f.records, w.now),
                                          [Fifo, BotFallback(w.botAvailable)], w.told, w.back)
  {
  }

  lemma NewsAre(s: PoolState, after: PoolState, env: Surroundings)
    requires Effect(s, after, env)
    ensures |s.trace| <= |after.trace| && News(s, after) == after.trace[|s.trace|..]
  {
  }

  lemma FollowIs(f: FacadeState, pool: PoolState, w: World)
    ensures Follow(f, pool, w) == FacadeState(pool, MarkAll(f.records, News(f.pool, pool), w.roomOf), f.users)
  {
    hide MarkAll, News;
  }

  lemma MarkNothing(records: seq<Record>, roomOf: nat -> nat)
    ensures MarkAll(records, [], roomOf) == records
  {
  }

  function MarkChannel(records: seq<Record>, channel: nat, room: nat): (marked: seq<Record>)
    ensures |marked| == |records|
    ensures forall i :: 0 <= i < |records| ==>
              marked[i] == if records[i].channel == channel then records[i].(roomId := Some(room)) else records[i]
  {
    seq(|records|, i requires 0 <= i < |records| =>
      if records[i].channel == channel then records[i].(roomId := Some(room)) else records[i])
  }

  lemma MarkOne(was: seq<Record>, events: seq<Event>, i: nat, roomOf: nat -> nat)
    requires i < |events|
    ensures MarkAll(was, events[..i + 1], roomOf) ==
            if events[i].FoundSent? then MarkChannel(MarkAll(was, events[..i], roomOf), events[i].p.channel, roomOf(events[i].matchId))
            else MarkAll(was, events[..i], roomOf)
  {
    var next := events[..i + 1];
    assert next[..|next| - 1] == events[..i] && next[|next| - 1] == events[i];
  }

  lemma ReconcileIs(f: FacadeState, now: int)
    ensures FacadeModel.Reconcile(f, now) == Reconciled(f, f.records, now)
  {
  }

  lemma ReconciledUnfolds(f: FacadeState, todo: seq<Record>, now: int)
    requires todo != []
    ensures Reconciled(f, todo, now) ==
            Reconciled(if Stays(f, todo[0], now) then f else RemoveRecord(f, todo[0]), todo[1..], now)
  {
    hide Stays, RemoveRecord;
  }

  lemma StaysIs(f: FacadeState, r: Record, now: int)
    ensures Stays(f, r, now) <==> if r.roomId.None? then IsQueued(f.pool, r.ticketId) else now - r.lastPollAt <= MATCHED_GRACE_MS
  {
    hide IsQueued;
  }
}
