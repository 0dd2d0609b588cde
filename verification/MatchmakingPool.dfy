/**
  The matchmaking pool as the program runs it: a store, a book of pending matches and a memory of
  abandoned ones, updated in place. Each method is proved to do what `PoolModel` says, including the
  mutual recursion of `Add` and `Abandon`: the nested `Add` finds its user nowhere, so it never
  refuses, never replaces and never abandons a second match.
 */
module MatchmakingPools {
  import opened Options
  import opened QueueEntry
  import opened Participants
  import opened Pairing
  import opened PoolStore
  import opened PoolModel
  import opened PoolBooks
  import opened PoolTrace
  import opened PoolInvariants
  import opened PoolTicks
  import opened PoolReturns
  import opened PendingMatchBook
  import opened PoolLoops

  class MatchmakingPool {
    const store: InMemoryPoolStore
    const pending: PendingMatches
    var requeuedByMatchId: map<nat, Requeue>
    var nextMatchId: nat
    var trace: seq<Event>
    /** The store's content, oldest arrival first. */
    ghost var waiting: seq<Participant>

    ghost function State(): PoolState
      reads this, pending
    {
      PoolState(waiting, pending.byMatchId, requeuedByMatchId, nextMatchId, trace)
    }

    /** The three indexes of the store hold exactly the participants waiting. */
    ghost predicate Linked()
      reads this, store
    {
      Represents(store.Value(), waiting) && Unique(multiset(waiting))
    }

    ghost predicate Valid()
      reads this, store, pending
    {
      Represents(store.Value(), waiting) && Inv(State())
    }

    lemma ValidLinks()
      requires Valid()
      ensures Linked()
    {
      assert multiset(waiting) <= Places(State());
      SubUnique(multiset(waiting), Places(State()));
    }

    constructor ()
      ensures Valid() && State() == EMPTY_POOL && fresh(store) && fresh(pending)
    {
      store := new InMemoryPoolStore();
      pending := new PendingMatches();
      requeuedByMatchId, nextMatchId, trace, waiting := map[], 0, [], [];
      new;
      EmptyPoolIsFine();
      RepresentsEmpty();
    }

    // ---- moving participants ---------------------------------------------------------------

    method Take(p: Participant)
      requires Linked() && p in waiting
      modifies this`waiting, store
      ensures Linked() && waiting == Drop(old(waiting), {p.id})
    {
      RepresentsTake(store.Value(), waiting, p);
      KeepUnique(waiting, {p.id});
      var removed := store.Remove(p.id);
      waiting := Drop(waiting, {p.id});
    }

    method RemoveAndLog(p: Participant, outcome: Outcome, now: int)
      requires Linked() && p in waiting
      modifies this`waiting, this`trace, store
      ensures Linked() && State() == Leave(old(State()), [p], outcome, now)
    {
      hide Represents, Unique, Drop, Ids;
      JustOne(waiting, p);
      LeaveOne(State(), p, outcome, now);
      Take(p);
      LogExit(p, outcome, now);
    }

    method LogExit(p: Participant, outcome: Outcome, now: int)
      modifies this`trace
      ensures trace == old(trace) + [Exited(p, outcome, now - p.enqueuedAt)]
    {
      trace := trace + [Exited(p, outcome, now - p.enqueuedAt)];
    }

    // ---- add and abandon ------------------------------------------------------------------------

    method Add(p: Participant, now: int) returns (r: AddResult)
      requires Valid() && Arrival(State(), p)
      modifies this, store, pending
      ensures Valid() && (State(), r) == PoolModel.Add(old(State()), p, now)
      decreases |pending.byMatchId|, 2
    {
      ghost var s := State();
      AddKeeps(s, p, now);
      AddCases(s, p, now);
      RepresentsFind(store.Value(), waiting, p.id, p.userId);
      hide *;
      var queued := store.FindByUserId(p.userId);
      var held: Option<(PendingMatch, Participant)> := None;
      if queued.None? {
        held := pending.FindByUserId(p.userId);
      }
      var replaced := queued.Some? || held.Some?;
      if replaced {
        if p.presence.Poll? {
          return DuplicateEntry;
        }
        if held.Some? {
          ReplaceHeld(held.value.0, held.value.1, now);
        } else {
          ReplaceQueued(queued.value, now);
        }
      }
      assert Back(State(), p) == PoolModel.Add(s, p, now).0;
      Store(p);
      r := Stored(replaced);
    }

    method ReplaceQueued(existing: Participant, now: int)
      requires Valid() && existing in waiting
      modifies this, store
      ensures Represents(store.Value(), waiting)
      ensures State() == Close(Leave(old(State()), [existing], Replaced, now), existing, ReplacedByNewConnection)
    {
      ValidLinks();
      hide *;
      RemoveAndLog(existing, Replaced, now);
      CloseChannel(existing, ReplacedByNewConnection);
    }

    method ReplaceHeld(held: PendingMatch, existing: Participant, now: int)
      requires Valid() && held in pending.byMatchId && existing in held.game.participants
      modifies this, store, pending
      ensures Represents(store.Value(), waiting)
      ensures State() ==
              Close(PoolModel.Abandon(old(State()), held, {existing.id}, Replaced, now), existing, ReplacedByNewConnection)
      decreases |pending.byMatchId|, 1
    {
      OneLeaver(State(), held, existing);
      hide *;
      Abandon(held, [existing], Replaced, now);
      ValidIs();
      CloseChannel(existing, ReplacedByNewConnection);
    }

    method Store(p: Participant)
      requires Represents(store.Value(), waiting) && Inv(Back(State(), p))
      modifies this`waiting, store
      ensures Valid() && State() == Back(old(State()), p)
    {
      StoredIsUnique(State(), p);
      RepresentsPut(store.Value(), waiting, p);
      store.Add(p);
      waiting := waiting + [p];
    }

    /** Takes an entry off the book: those `leaving` exit, the rest are stored again through `Add`. */
    method Abandon(pm: PendingMatch, leaving: seq<Participant>, outcome: Outcome, now: int)
      requires Valid() && pm in pending.byMatchId && Leavers(pm, leaving)
      modifies this, store, pending
      ensures Valid() && State() == PoolModel.Abandon(old(State()), pm, Ids(leaving), outcome, now)
      decreases |pending.byMatchId|, 0
    {
      ghost var s, ids := State(), Ids(leaving);
      AbandonOpensKeeps(s, pm, ids, outcome, now);
      AbandonCloses(s, pm, ids, outcome, now);
      FewerPending(pending.byMatchId, pm);
      AbandonOpensIs(s, pm, leaving, outcome, now);
      hide Inv, Represents, CanReturn, PoolModel.Abandon, Statuses, Exits, WithoutMatch, Drop, Keep, Ids, AbandonOpens, Returned;
      var requeued := AbandonFirst(pm, leaving, outcome, now);
      ReAddAll(requeued, now);
    }

    method ReAddAll(requeued: seq<Participant>, now: int)
      requires Valid() && CanReturn(State(), requeued)
      modifies this, store, pending
      ensures Valid() && State() == Returned(old(State()), requeued, now)
      decreases |pending.byMatchId|, 4
    {
      ghost var s1 := State();
      assert requeued[0..] == requeued && requeued[..0] == [];
      ReturnedNone(s1, now);
      hide *;
      for i := 0 to |requeued|
        invariant Valid() && CanReturn(State(), requeued[i..])
        invariant State() == Returned(s1, requeued[..i], now)
        invariant |pending.byMatchId| == |s1.pending|
      {
        ReAdd(requeued[i], requeued[i..], now);
        assert requeued[i..][1..] == requeued[i + 1..];
        ReturnedSoFar(s1, requeued, i, now);
      }
      assert requeued[..|requeued|] == requeued;
    }

    /** Takes the match out of the book, lets the leavers out, and remembers who will come back. */
    method AbandonFirst(pm: PendingMatch, leaving: seq<Participant>, outcome: Outcome, now: int)
      returns (requeued: seq<Participant>)
      requires Leavers(pm, leaving)
      modifies this`requeuedByMatchId, this`trace, pending
      ensures State() == AbandonOpens(old(State()), pm, Ids(leaving), outcome, now)
      ensures requeued == Drop(pm.game.participants, Ids(leaving))
    {
      ghost var s := State();
      hide WithoutMatch, Drop, Ids, Keep, Exits;
      pending.Delete(pm.game.id);
      ExitsNone(s.trace, outcome, now);
      assert leaving[..0] == [];
      for i := 0 to |leaving|
        invariant trace == s.trace + Exits(leaving[..i], outcome, now)
        invariant requeuedByMatchId == s.requeued && pending.byMatchId == WithoutMatch(s.pending, pm.game.id)
      {
        LogExit(leaving[i], outcome, now);
        ExitsSoFar(s.trace, leaving, i, outcome, now);
      }
      assert leaving[..|leaving|] == leaving;
      requeued := Others(pm, leaving);
      if |requeued| > 0 {
        requeuedByMatchId := requeuedByMatchId[pm.game.id := Requeue(Ids(requeued), pm.deadline)];
      }
      assert Keep(pm.game.participants, Ids(leaving)) == leaving;
      AbandonOpensIs(s, pm, leaving, outcome, now);
    }

    /** One participant of the abandoned match goes back in and is told so. */
    method ReAdd(p: Participant, ghost rest: seq<Participant>, now: int)
      requires Valid() && rest != [] && rest[0] == p && CanReturn(State(), rest)
      modifies this, store, pending
      ensures Valid() && State() == Told(Back(old(State()), p), p, now) && CanReturn(State(), rest[1..])
      ensures |pending.byMatchId| == old(|pending.byMatchId|)
      decreases |pending.byMatchId|, 3
    {
      hide Inv, Represents, Unique, CanReturn, PoolModel.Add, Arrival;
      ReturnOne(State(), rest, now);
      var r := Add(p, now);
      TellOne(State(), p, rest[1..], now);
      trace := trace + [StatusSent(p, now - p.enqueuedAt)];
    }

    // ---- leaving on request -------------------------------------------------------------------

    method RemoveByIdAndLog(id: string, outcome: Outcome, now: int) returns (removed: bool)
      requires Linked()
      modifies this`waiting, this`trace, store
      ensures Linked() && removed == FindById(old(waiting), id).Some?
      ensures State() == if removed then Leave(old(State()), [FindById(old(waiting), id).value], outcome, now) else old(State())
    {
      LinkedFinds(id, "");
      hide *;
      var p := store.Get(id);
      if p.None? {
        return false;
      }
      RemoveAndLog(p.value, outcome, now);
      removed := true;
    }

    lemma LinkedFinds(id: string, userId: string)
      requires Linked()
      ensures FindById(waiting, id) == if id in store.byId then Some(store.byId[id]) else None
    {
      RepresentsFind(store.Value(), waiting, id, userId);
    }

    method LeavePending(id: string, outcome: Outcome, now: int) returns (left: bool)
      requires Valid()
      modifies this, store, pending
      ensures Valid() && left == PendingOfId(old(pending.byMatchId), id).Some?
      ensures State() == if left then PoolModel.Abandon(old(State()), PendingOfId(old(pending.byMatchId), id).value, {id}, outcome, now)
                         else old(State())
    {
      var found := pending.FindByParticipantId(id);
      if found.None? {
        return false;
      }
      OneLeaver(State(), found.value.0, found.value.1);
      hide *;
      Abandon(found.value.0, [found.value.1], outcome, now);
      left := true;
    }

    /** Out of the store or, failing that, out of a pending match. */
    method Withdraw(id: string, fromStore: Outcome, fromPending: Outcome, now: int) returns (left: bool)
      requires Valid()
      modifies this, store, pending
      ensures Valid() && (State(), left) == PoolModel.Withdraw(old(State()), id, fromStore, fromPending, now)
    {
      ghost var s := State();
      ValidLinks();
      WithdrawKeeps(s, id, fromStore, fromPending, now);
      WithdrawCases(s, id, fromStore, fromPending, now);
      hide Represents, Inv, Unique, PoolModel.Withdraw, Leave, PoolModel.Abandon, FindById, PendingOfId;
      left := RemoveByIdAndLog(id, fromStore, now);
      if !left {
        left := LeavePending(id, fromPending, now);
      }
    }

    method Remove(id: string, now: int)
      requires Valid()
      modifies this, store, pending
      ensures Valid() && State() == PoolModel.Remove(old(State()), id, now)
    {
      var left := Withdraw(id, Cancelled, Cancelled, now);
    }

    method DequeueBySocketId(id: string, now: int) returns (left: bool)
      requires Valid()
      modifies this, store, pending
      ensures Valid() && (State(), left) == PoolModel.Dequeue(old(State()), id, now)
    {
      left := Withdraw(id, Dequeued, Declined, now);
    }

    method IsQueued(id: string) returns (queued: bool)
      requires Linked()
      ensures queued == PoolModel.IsQueued(State(), id)
    {
      LinkedFinds(id, "");
      hide Linked;
      var inStore := store.Get(id);
      var inPending := pending.FindByParticipantId(id);
      queued := inStore.Some? || inPending.Some?;
    }

    // ---- the match handler ----------------------------------------------------------------------

    /** The handler notifies some of the match's participants and may put some back through `Add`. */
    method Handle(game: Match, env: Surroundings)
      requires Valid() && HandOver(State(), game)
      modifies this, store, pending
      ensures Valid() && State() == PoolModel.Handle(old(State()), game, env)
    {
      ghost var s := State();
      HandleOpensKeeps(s, game, env);
      HandleIs(s, game, env);
      hide Represents, Inv, CanReturn, HandOver, Keep, Founds, PoolModel.Handle;
      var back := Keep(game.participants, env.back);
      trace := trace + [Handled(game, back)] + Founds(Keep(game.participants, env.told), game.id);
      assert State() == HandleOpens(s, game, env);
      PutBack(back, env.now);
    }

    method PutBack(back: seq<Participant>, now: int)
      requires Valid() && CanReturn(State(), back)
      modifies this, store, pending
      ensures Valid() && State() == Rejoined(old(State()), back)
    {
      ghost var s := State();
      assert back[0..] == back && back[..0] == [];
      RejoinedNone(s);
      hide *;
      for i := 0 to |back|
        invariant Valid() && CanReturn(State(), back[i..])
        invariant State() == Rejoined(s, back[..i])
      {
        assert back[i..][1..] == back[i + 1..];
        PutBackOne(back[i], back[i..], now);
        RejoinedSoFar(s, back, i);
      }
      assert back[..|back|] == back;
    }

    method PutBackOne(p: Participant, ghost rest: seq<Participant>, now: int)
      requires Valid() && rest != [] && rest[0] == p && CanReturn(State(), rest)
      modifies this, store, pending
      ensures Valid() && State() == Back(old(State()), p) && CanReturn(State(), rest[1..])
    {
      ReturnOne(State(), rest, now);
      hide Inv, Represents, CanReturn, PoolModel.Add, Arrival;
      var r := Add(p, now);
    }

    // ---- answers ----------------------------------------------------------------------------------

    method FindLivePending(matchId: nat, id: string, now: int) returns (r: Option<PendingMatch>)
      ensures r == LivePending(State(), matchId, id, now)
    {
      r := pending.Get(matchId);
      if r.Some? && (r.value.deadline <= now || FindById(r.value.game.participants, id).None?) {
        r := None;
      }
    }

    method Accept(matchId: nat, id: string, env: Surroundings) returns (r: Response)
      requires Valid()
      modifies this, store, pending
      ensures Valid() && (State(), r) == PoolModel.Accept(old(State()), matchId, id, env)
    {
      AcceptUnfolds(State(), matchId, id, env);
      AcceptAnswers(State(), matchId, id, env);
      var record := if matchId in requeuedByMatchId then map[matchId := requeuedByMatchId[matchId]] else map[];
      RequeuedIs(State(), record, matchId, id, env.now);
      hide *;
      var live := FindLivePending(matchId, id, env.now);
      if live.None? {
        return if WasRequeuedFrom(EMPTY_POOL.(requeued := record), matchId, id, env.now) then RequeuedResponse else UnknownMatch;
      }
      LiveIsPending(State(), matchId, id, env.now);
      AcceptLive(live.value, id, env);
      r := AcceptedResponse;
    }

    method AcceptLive(pm: PendingMatch, id: string, env: Surroundings)
      requires Valid() && LivePending(State(), pm.game.id, id, env.now) == Some(pm)
      modifies this, store, pending
      ensures Valid() && State() == PoolModel.Accept(old(State()), pm.game.id, id, env).0
    {
      ghost var s := State();
      hide *;
      StateIs();
      ValidIs();
      AcceptUnfolds(s, pm.game.id, id, env);
      AcceptKeeps(s, pm.game.id, id, env);
      LiveIsPending(s, pm.game.id, id, env.now);
      RecordAnswer(pm.game.id, id, env.now);
      if FullyAccepted(pm.(accepted := pm.accepted + {id})) {
        Dispatch(s, pm, id, env);
      }
      StateIs();
      ValidIs();
    }

    method RecordAnswer(matchId: nat, id: string, now: int)
      modifies this`trace, pending
      ensures State() == old(State()).(pending := Record(old(pending.byMatchId), matchId, id),
                                       trace := old(trace) + [AcceptRecorded(matchId, id, now)])
    {
      hide Record;
      pending.RecordAccept(matchId, id);
      trace := trace + [AcceptRecorded(matchId, id, now)];
    }

    lemma StateIs()
      ensures State() == PoolState(waiting, pending.byMatchId, requeuedByMatchId, nextMatchId, trace)
    {
    }

    lemma ValidIs()
      ensures Valid() <==> Represents(store.Value(), waiting) && Inv(State())
    {
      hide Represents, Inv;
    }

    method Dispatch(ghost s: PoolState, pm: PendingMatch, ghost id: string, env: Surroundings)
      requires Represents(store.Value(), waiting) && Inv(s) && pm in s.pending && env.now < pm.deadline
      requires FullyAccepted(pm.(accepted := pm.accepted + {id}))
      requires State() == s.(pending := Record(s.pending, pm.game.id, id), trace := s.trace + [AcceptRecorded(pm.game.id, id, env.now)])
      modifies this, store, pending
      ensures Valid() && State() == PoolModel.Handle(Detach(s, pm, id, env.now), pm.game, env)
    {
      StateIs();
      DetachIs(s, pm, id, env.now);
      hide *;
      DetachHandsOver(s, pm, id, env);
      RecordedThenGone(s.pending, pm.game.id, id);
      pending.Delete(pm.game.id);
      LogExits(pm.game.participants, MatchedHuman, env.now);
      StateIs();
      assert State() == Detach(s, pm, id, env.now);
      ValidIs();
      Handle(pm.game, env);
    }

    method LogExits(ps: seq<Participant>, outcome: Outcome, now: int)
      modifies this`trace
      ensures trace == old(trace) + Exits(ps, outcome, now)
    {
      ghost var was := trace;
      hide Exits;
      ExitsNone(was, outcome, now);
      assert ps[..0] == [];
      for i := 0 to |ps|
        invariant trace == was + Exits(ps[..i], outcome, now)
      {
        LogExit(ps[i], outcome, now);
        ExitsSoFar(was, ps, i, outcome, now);
      }
      assert ps[..|ps|] == ps;
    }

    method Decline(matchId: nat, id: string, now: int) returns (r: Response)
      requires Valid()
      modifies this, store, pending
      ensures Valid() && (State(), r) == PoolModel.Decline(old(State()), matchId, id, now)
    {
      hide *;
      var live := FindLivePending(matchId, id, now);
      if live.None? {
        r := DeclineAfterRequeue(matchId, id, now);
        return;
      }
      LiveIsPending(State(), matchId, id, now);
      DeclineLive(live.value, id, now);
      DeclineCases(old(State()), matchId, id, now);
      r := DeclinedResponse;
    }

    method DeclineLive(pm: PendingMatch, id: string, now: int)
      requires Valid() && LivePending(State(), pm.game.id, id, now) == Some(pm)
      modifies this, store, pending
      ensures Valid() && State() == PoolModel.Decline(old(State()), pm.game.id, id, now).0
    {
      ghost var s := State();
      hide *;
      StateIs();
      ValidIs();
      DeclineKeeps(s, pm.game.id, id, now);
      DeclineCases(s, pm.game.id, id, now);
      LiveIsPending(s, pm.game.id, id, now);
      var decliner := FindById(pm.game.participants, id).value;
      OneLeaverOf(s, pm, decliner);
      Abandon(pm, [decliner], Declined, now);
      ValidIs();
      CloseChannel(decliner, DeclinedProposal);
      ValidIs();
    }

    method CloseChannel(p: Participant, reason: CloseReason)
      modifies this`trace
      ensures State() == Close(old(State()), p, reason)
    {
      trace := trace + [Closed(p, reason)];
    }

    /**
      The match is gone from the book. When its memory still names the sender, the name is struck from it and
      the sender is taken out of whatever place it now has; otherwise the match is unknown.
     */
    method DeclineAfterRequeue(matchId: nat, id: string, now: int) returns (r: Response)
      requires Valid() && LivePending(State(), matchId, id, now).None?
      modifies this, store, pending
      ensures Valid() && (State(), r) == PoolModel.Decline(old(State()), matchId, id, now)
    {
      ghost var s := State();
      hide *;
      StateIs();
      ValidIs();
      DeclineKeeps(s, matchId, id, now);
      DeclineCases(s, matchId, id, now);
      RequeuedMeans(s, matchId, id, now);
      if matchId !in requeuedByMatchId || requeuedByMatchId[matchId].until <= now || id !in requeuedByMatchId[matchId].ids {
        return UnknownMatch;
      }
      ForgiveKeeps(s, matchId, s.requeued[matchId].(ids := s.requeued[matchId].ids - {id}));
      Forgive(matchId, id);
      ValidIs();
      LinkedFindsValid(id);
      var queued := store.Get(id);
      var held := pending.FindByParticipantId(id);
      if queued.None? && held.None? {
        return UnknownMatch;
      }
      var p := if queued.Some? then queued.value else held.value.1;
      TakeOutOfQueue(id, p, now);
      r := DeclinedResponse;
    }

    method TakeOutOfQueue(id: string, p: Participant, now: int)
      requires Valid()
      requires Inv(Close(PoolModel.Withdraw(State(), id, Declined, Declined, now).0, p, DeclinedProposal))
      modifies this, store, pending
      ensures Valid()
      ensures State() == Close(PoolModel.Withdraw(old(State()), id, Declined, Declined, now).0, p, DeclinedProposal)
    {
      hide *;
      var left := Withdraw(id, Declined, Declined, now);
      ValidIs();
      CloseChannel(p, DeclinedProposal);
      ValidIs();
    }

    method Forgive(matchId: nat, id: string)
      requires matchId in requeuedByMatchId
      modifies this`requeuedByMatchId
      ensures var record := old(requeuedByMatchId)[matchId];
              State() == old(State()).(requeued := old(requeuedByMatchId)[matchId := record.(ids := record.ids - {id})])
    {
      var record := requeuedByMatchId[matchId];
      requeuedByMatchId := requeuedByMatchId[matchId := record.(ids := record.ids - {id})];
    }

    lemma LinkedFindsValid(id: string)
      requires Valid()
      ensures FindById(waiting, id) == if id in store.byId then Some(store.byId[id]) else None
    {
      ValidLinks();
      LinkedFinds(id, "");
    }

    // ---- the tick ------------------------------------------------------------------------------------

    /** Everyone in the store, walking the pool keys in order. */
    method EveryParticipant() returns (ps: seq<Participant>)
      requires Linked()
      ensures ps == ByKey(waiting)
    {
      RepresentsListing(store.Value(), waiting, POOL_KEYS[0]);
      RepresentsListing(store.Value(), waiting, POOL_KEYS[1]);
      RepresentsListing(store.Value(), waiting, POOL_KEYS[2]);
      hide Linked, Listed;
      var a := store.All(POOL_KEYS[0]);
      var b := store.All(POOL_KEYS[1]);
      var c := store.All(POOL_KEYS[2]);
      ps := a + b + c;
    }

    method SweepDead(env: Surroundings)
      requires Linked()
      modifies this`waiting, this`trace, store
      ensures Linked() && State() == Sweep(old(State()), env)
    {
      ghost var s := State();
      ghost var ids := DeadIds(waiting, env.dead);
      LinkedUnique();
      var everyone := EveryParticipant();
      LeaveNobody(s, Expired, env.now);
      assert everyone[..0] == [] && Keep([], ids) == [];
      for i := 0 to |everyone|
        invariant Linked() && everyone == ByKey(s.waiting)
        invariant State() == Leave(s, Keep(everyone[..i], ids), Expired, env.now)
      {
        hide *;
        SweepNext(s, everyone, i, env);
        if everyone[i].channel in env.dead {
          RemoveAndLog(everyone[i], Expired, env.now);
        }
      }
      assert everyone[..|everyone|] == everyone;
    }

    method ResolvePending(env: Surroundings)
      requires Valid() && Alive(waiting, env.dead)
      modifies this, store, pending
      ensures Valid() && State() == Resolve(old(State()), old(pending.byMatchId), env)
    {
      ghost var s := State();
      var todo := pending.byMatchId;
      ValidIs();
      InvDistinct(s);
      assert todo[0..] == todo;
      for i := 0 to |todo|
        invariant Valid() && Alive(waiting, env.dead)
        invariant ToResolve(State(), todo[i..])
        invariant Resolve(State(), todo[i..], env) == Resolve(s, todo, env)
      {
        hide *;
        assert todo[i..][0] == todo[i] && todo[i..][1..] == todo[i + 1..];
        ValidIs();
        ResolveNext(State(), todo[i..], env);
        ResolveOne(todo[i], env);
      }
      assert todo[|todo|..] == [];
      ResolveNothing(State(), env);
    }

    method ResolveOne(pm: PendingMatch, env: Surroundings)
      requires Valid() && pm in pending.byMatchId
      modifies this, store, pending
      ensures Valid() && State() == PoolModel.ResolveOne(old(State()), pm, env)
    {
      ValidIs();
      ResolveOneCases(State(), pm, env);
      MatchUnique(State(), pm);
      hide *;
      var dead := DeadIn(pm, env.dead);
      DeadLeave(pm, dead, env.dead);
      if |dead| > 0 {
        Abandon(pm, dead, Expired, env.now);
      } else if pm.deadline <= env.now {
        TimeOut(pm, env);
      }
    }

    /** Past the deadline, everyone who has not accepted leaves and is closed. */
    method TimeOut(pm: PendingMatch, env: Surroundings)
      requires Valid() && pm in pending.byMatchId
      modifies this, store, pending
      ensures var late := Drop(pm.game.participants, pm.accepted);
              var s1 := PoolModel.Abandon(old(State()), pm, Ids(late), AcceptTimeout, env.now);
              Valid() && State() == s1.(trace := s1.trace + Closes(late, AcceptTimedOut))
    {
      ValidIs();
      MatchUnique(State(), pm);
      TimeOutKeeps(State(), pm, env);
      LateLeave(pm);
      hide *;
      var late := LateIn(pm);
      Abandon(pm, late, AcceptTimeout, env.now);
      ValidIs();
      CloseAll(late, AcceptTimedOut);
      ValidIs();
    }

    method CloseAll(ps: seq<Participant>, reason: CloseReason)
      modifies this`trace
      ensures State() == old(State()).(trace := old(trace) + Closes(ps, reason))
    {
      ghost var was := trace;
      assert was + Closes(ps[..0], reason) == was;
      for i := 0 to |ps|
        invariant trace == was + Closes(ps[..i], reason)
      {
        trace := trace + [Closed(ps[i], reason)];
        assert Closes(ps[..i + 1], reason) == Closes(ps[..i], reason) + [Closed(ps[i], reason)];
      }
      assert ps[..|ps|] == ps;
    }

    method ForgetClosedRequeues(now: int)
      modifies this`requeuedByMatchId
      ensures State() == Forget(old(State()), now)
    {
      ghost var was := requeuedByMatchId;
      var left := requeuedByMatchId.Keys;
      while left != {}
        invariant left <= requeuedByMatchId.Keys <= was.Keys
        invariant forall id :: id in requeuedByMatchId ==> requeuedByMatchId[id] == was[id]
        invariant forall id :: id in was && id !in left ==> (id in requeuedByMatchId <==> now < was[id].until)
        decreases left
      {
        var id :| id in left;
        left := left - {id};
        if requeuedByMatchId[id].until <= now {
          requeuedByMatchId := requeuedByMatchId - {id};
        }
      }
    }

    method PairAndDispatch(env: Surroundings)
      requires Valid()
      modifies this, store, pending
      ensures Valid() && State() == PairAll(old(State()), env)
    {
      var keys := POOL_KEYS;
      PairAllIs(State(), env);
      assert |keys| == 3;
      hide *;
      PairKey(keys[0], env);
      PairKey(keys[1], env);
      PairKey(keys[2], env);
    }

    method PairKey(key: PoolKey, env: Surroundings)
      requires Valid()
      modifies this, store, pending
      ensures Valid() && State() == PoolModel.PairKey(old(State()), key, env)
    {
      ghost var s := State();
      ghost var chosen := Composite(env.policies, Listed(waiting, key), env.now, nextMatchId);
      hide *;
      StateIs();
      ValidIs();
      RepresentsListing(store.Value(), waiting, key);
      PairKeyUnfolds(s, key, env);
      NobodyToPair(s, key, env);
      ChosenStartable(s, key, env);
      NumberKeeps(s, |chosen|);
      var candidates := store.All(key);
      if |candidates| == 0 {
        return;
      }
      var games := CompositePair(env.policies, candidates, env.now, nextMatchId);
      assert games == chosen;
      TakeNumbers(|games|);
      ValidIs();
      StartGames(games, env);
    }

    method TakeNumbers(n: nat)
      modifies this`nextMatchId
      ensures State() == old(State()).(nextMatchId := old(nextMatchId) + n)
    {
      nextMatchId := nextMatchId + n;
    }

    method StartGames(games: seq<Match>, env: Surroundings)
      requires Valid() && AllStartable(State(), games)
      modifies this, store, pending
      ensures Valid() && State() == StartAll(old(State()), games, env)
    {
      ghost var s := State();
      assert games[0..] == games;
      hide *;
      for i := 0 to |games|
        invariant Valid() && AllStartable(State(), games[i..])
        invariant StartAll(State(), games[i..], env) == StartAll(s, games, env)
      {
        assert games[i..][0] == games[i] && games[i..][1..] == games[i + 1..];
        ValidIs();
        RestStartable(State(), games[i..], env);
        StartAllUnfolds(State(), games[i..], env);
        Start(games[i], env);
      }
      assert games[|games|..] == [];
      StartNothing(State(), env);
    }

    method Start(game: Match, env: Surroundings)
      requires Valid() && Startable(State(), game)
      modifies this, store, pending
      ensures Valid() && State() == PoolModel.Start(old(State()), game, env)
    {
      ghost var s := State();
      ValidIs();
      ValidLinks();
      StartIs(s, game, env);
      StartKeeps(s, game, env);
      StartableParts(s, game);
      hide *;
      if RequiresAcceptStep(game) {
        Propose(game, env.now);
        LinkedRepresents();
        ValidIs();
      } else {
        Seat(game, env);
      }
    }

    method Propose(game: Match, now: int)
      requires Linked() && multiset(game.participants) <= multiset(waiting)
      requires forall pm :: pm in pending.byMatchId ==> pm.game.id != game.id
      modifies this`waiting, this`trace, store, pending
      ensures Linked() && State() == PoolModel.Propose(old(State()), game, now)
    {
      ghost var s := State();
      hide *;
      StateIs();
      TakeAll(game.participants);
      StateIs();
      LinkedIs();
      AddPending(game, now);
      StateIs();
      SendProposals(game);
      ProposeIs(s, game, now);
      StateIs();
      LinkedIs();
    }

    method AddPending(game: Match, now: int)
      requires forall pm :: pm in pending.byMatchId ==> pm.game.id != game.id
      modifies this`trace, pending
      ensures State() == old(State()).(pending := old(pending.byMatchId) + [Hold(game, now + MATCH_ACCEPT_TIMEOUT_MS)],
                                       trace := old(trace) + [Proposed(game, now)])
    {
      hide Hold;
      HoldKeepsGame(game, now + MATCH_ACCEPT_TIMEOUT_MS);
      pending.Add(game, now + MATCH_ACCEPT_TIMEOUT_MS);
      trace := trace + [Proposed(game, now)];
    }

    /** Only those who opted in are asked. */
    method SendProposals(game: Match)
      modifies this`trace
      ensures State() == old(State()).(trace := old(trace) + Proposals(game.participants, game.id))
    {
      ghost var was := trace;
      hide Proposals, OptedIn;
      assert game.participants[..0] == [];
      ProposalsNone(was, game.id);
      for i := 0 to |game.participants|
        invariant trace == was + Proposals(game.participants[..i], game.id)
      {
        var p := game.participants[i];
        ProposalsNext(was, game, i);
        if p.supportsAcceptStep {
          trace := trace + [ProposalSent(p, game.id)];
        }
      }
      assert game.participants[..|game.participants|] == game.participants;
    }

    lemma LinkedIs()
      ensures Linked() <==> Represents(store.Value(), waiting) && Unique(multiset(waiting))
    {
      hide Represents, Unique;
    }

    method TakeAll(ps: seq<Participant>)
      requires Linked() && multiset(ps) <= multiset(waiting)
      modifies this`waiting, store
      ensures Linked() && State() == old(State()).(waiting := Drop(old(waiting), Ids(ps)))
    {
      ghost var was := waiting;
      hide *;
      StateIs();
      LinkedUnique();
      assert ps[..0] == [];
      DropNobody(was);
      for i := 0 to |ps|
        invariant Linked() && waiting == Drop(was, Ids(ps[..i]))
      {
        TakeNext(was, ps, i);
        Take(ps[i]);
        StateIs();
      }
      assert ps[..|ps|] == ps;
      StateIs();
    }

    /** Takes the match's participants out of the pool, logs their exit and hands the match over. */
    method Seat(game: Match, env: Surroundings)
      requires Valid() && Startable(State(), game) && !RequiresAcceptStep(game)
      modifies this, store, pending
      ensures Valid() && State() == PoolModel.Seat(old(State()), game, env)
    {
      var outcome := if game.opponentKind.Bot? then MatchedBot else MatchedHuman;
      ghost var s := State();
      ValidIs();
      ValidLinks();
      SeatIs(s, game, env);
      SeatHandsOver(s, game, outcome, env.now);
      StartableParts(s, game);
      hide *;
      RemoveAll(game.participants, outcome, env.now);
      LinkedRepresents();
      ValidIs();
      Handle(game, env);
    }

    method RemoveAll(ps: seq<Participant>, outcome: Outcome, now: int)
      requires Linked() && multiset(ps) <= multiset(waiting)
      modifies this`waiting, this`trace, store
      ensures Linked() && State() == Leave(old(State()), ps, outcome, now)
    {
      ghost var s := State();
      LinkedUnique();
      assert ps[..0] == [];
      LeaveNobody(s, outcome, now);
      for i := 0 to |ps|
        invariant Linked() && State() == Leave(s, ps[..i], outcome, now)
      {
        hide *;
        LeaveNext(s, ps, i, outcome, now);
        RemoveAndLog(ps[i], outcome, now);
      }
      assert ps[..|ps|] == ps;
    }

    method PublishStatus(env: Surroundings)
      requires Linked()
      modifies this`trace
      ensures State() == Publish(old(State()), env)
    {
      hide *;
      var everyone := EveryParticipant();
      StateIs();
      TellAll(everyone, env.now);
      PublishIs(old(State()), env);
    }

    method TellAll(ps: seq<Participant>, now: int)
      modifies this`trace
      ensures State() == old(State()).(trace := old(trace) + Statuses(ps, now))
    {
      ghost var was := trace;
      hide Statuses;
      assert ps[..0] == [];
      StatusesNone(was, now);
      for i := 0 to |ps|
        invariant trace == was + Statuses(ps[..i], now)
      {
        StatusesNext(was, ps, i, now);
        trace := trace + [StatusSent(ps[i], now - ps[i].enqueuedAt)];
      }
      assert ps[..|ps|] == ps;
    }

    /** The five phases of a tick, which are also the order the specification composes them in. */
    method Tick(env: Surroundings)
      requires Valid()
      modifies this, store, pending
      ensures Valid() && State() == PoolModel.Tick(old(State()), env)
    {
      ghost var s := State();
      TickIs(s, env);
      hide *;
      ClearOut(env);
      PairAndDispatch(env);
      ValidIs();
      ValidLinks();
      PublishKeeps(State(), env);
      PublishStatus(env);
      ValidIs();
    }

    method ClearOut(env: Surroundings)
      requires Valid()
      modifies this, store, pending
      ensures var s1 := Sweep(old(State()), env);
              Valid() && State() == Forget(Resolve(s1, s1.pending, env), env.now)
    {
      ghost var s := State();
      hide *;
      ValidIs();
      ValidLinks();
      SweepKeeps(s, env);
      SweepDead(env);
      LinkedRepresents();
      ValidIs();
      StateIs();
      ResolvePending(env);
      ValidIs();
      ForgetKeeps(State(), env.now);
      ForgetClosedRequeues(env.now);
      ValidIs();
    }

    /** Players in the store for one format; `Mode` has `Ranked` alone, so one listing is the sum. */
    method DepthByFormat(format: Format) returns (n: nat)
      requires Linked()
      ensures n == PoolModel.Depth(State(), format)
    {
      RepresentsListing(store.Value(), waiting, PoolKey(format, Ranked));
      RepresentsAgrees(store.Value(), waiting);
      DepthIsListing(store.Value(), PoolKey(format, Ranked));
      n := store.Depth(PoolKey(format, Ranked));
    }

    /** In every pool the program can reach the three indexes agree, and a key's depth is its listing's length. */
    lemma IndexesAgree(key: PoolKey)
      requires Valid()
      ensures store.Value().Agree()
      ensures |store.Value().IdsAt(key)| == |Listed(waiting, key)|
    {
      ValidLinks();
      RepresentsAgrees(store.Value(), waiting);
      RepresentsListing(store.Value(), waiting, key);
      DepthIsListing(store.Value(), key);
    }

    lemma LinkedRepresents()
      requires Linked()
      ensures Represents(store.Value(), waiting)
    {
    }

    lemma LinkedUnique()
      requires Linked()
      ensures Unique(multiset(waiting))
    {
    }
  }
}
