/** What the pool remembers of abandoned matches, and for how long. */
module PoolMemories {
  import opened Options
  import opened QueueEntry
  import opened Participants
  import opened Pairing
  import opened PoolModel
  import opened PoolBooks
  import opened PoolTrace
  import opened PoolInvariants
  import opened PoolTicks
  import opened PoolLoops
  import opened PoolEffects
  import opened PoolRuns
  import opened PoolReasons

  /** Whoever went back from an abandoned match is remembered until the match's deadline, and nobody else. */
  lemma AbandonRemembers(s: PoolState, pm: PendingMatch, leaving: set<string>, outcome: Outcome, now: int, p: Participant, later: int)
    requires Inv(s) && pm in s.pending && p in pm.game.participants
    ensures WasRequeuedFrom(Abandon(s, pm, leaving, outcome, now), pm.game.id, p.id, later)
            <==> p.id !in leaving && later < pm.deadline
  {
    var stay := Drop(pm.game.participants, leaving);
    DropIn(pm.game.participants, leaving);
    assert pm.game.id !in s.requeued;
    hide Inv, Drop;
    assert p in stay <==> p.id !in leaving;
    assert p.id in Ids(stay) <==> p.id !in leaving;
  }

  /** Memories whose window is open are still there, unchanged. */
  ghost predicate Remembers(s: PoolState, after: PoolState, now: int) {
    forall id :: id in s.requeued && now < s.requeued[id].until ==> id in after.requeued && after.requeued[id] == s.requeued[id]
  }

  lemma AbandonKeepsMemories(s: PoolState, pm: PendingMatch, leaving: set<string>, outcome: Outcome, now: int)
    requires Inv(s) && pm in s.pending
    ensures Remembers(s, Abandon(s, pm, leaving, outcome, now), now)
  {
    assert pm.game.id !in s.requeued;
  }

  lemma WithdrawKeepsMemories(s: PoolState, id: string, fromStore: Outcome, fromPending: Outcome, now: int)
    requires Inv(s)
    ensures Remembers(s, Withdraw(s, id, fromStore, fromPending, now).0, now)
  {
    var queued, held := FindById(s.waiting, id), PendingOfId(s.pending, id);
    WithdrawCases(s, id, fromStore, fromPending, now);
    hide Inv, Abandon;
    if queued.None? && held.Some? {
      AbandonKeepsMemories(s, held.value, {id}, fromPending, now);
    }
  }

  lemma AddKeepsMemories(s: PoolState, q: Participant, now: int)
    requires Inv(s)
    ensures Remembers(s, Add(s, q, now).0, now)
  {
    var queued, held := FindByUser(s.waiting, q.userId), PendingOfUser(s.pending, q.userId);
    AddCases(s, q, now);
    hide Inv, Abandon, Add;
    if queued.None? && held.Some? {
      var x := FindByUser(held.value.game.participants, q.userId).value;
      AbandonKeepsMemories(s, held.value, {x.id}, Replaced, now);
    }
  }

  lemma DeclineKeepsMemories(s: PoolState, matchId: nat, id: string, now: int)
    requires Inv(s)
    ensures forall other :: other in s.requeued && now < s.requeued[other].until ==>
              var after := Decline(s, matchId, id, now).0;
              && other in after.requeued && after.requeued[other].until == s.requeued[other].until
              && s.requeued[other].ids - (if other == matchId then {id} else {}) <= after.requeued[other].ids
  {
    var live := LivePending(s, matchId, id, now);
    DeclineCases(s, matchId, id, now);
    hide Abandon, Withdraw, Decline, Inv, LivePending, FindById, PendingOfId;
    if live.Some? {
      LiveIsPending(s, matchId, id, now);
      AbandonKeepsMemories(s, live.value, {id}, Outcome.Declined, now);
    } else if WasRequeuedFrom(s, matchId, id, now) {
      StruckMemories(s, matchId, id, now);
    }
  }

  /** The late DECLINE strikes one name and then takes its sender out. */
  lemma StruckMemories(s: PoolState, matchId: nat, id: string, now: int)
    requires Inv(s) && matchId in s.requeued
    ensures var record := s.requeued[matchId].(ids := s.requeued[matchId].ids - {id});
            var s1 := s.(requeued := s.requeued[matchId := record]);
            Remembers(s1, Withdraw(s1, id, Outcome.Declined, Outcome.Declined, now).0, now)
  {
    var record := s.requeued[matchId].(ids := s.requeued[matchId].ids - {id});
    hide *;
    ForgiveKeeps(s, matchId, record);
    WithdrawKeepsMemories(s.(requeued := s.requeued[matchId := record]), id, Outcome.Declined, Outcome.Declined, now);
  }

  lemma {:induction false} ResolveKeepsMemories(s: PoolState, todo: seq<PendingMatch>, env: Surroundings)
    requires Inv(s) && Alive(s.waiting, env.dead) && ToResolve(s, todo)
    ensures Remembers(s, Resolve(s, todo, env), env.now)
    decreases |todo|
  {
    if todo != [] {
      var s1 := ResolveOne(s, todo[0], env);
      hide *;
      ResolveNext(s, todo, env);
      ResolveOneKeepsMemories(s, todo[0], env);
      ResolveOneKeeps(s, todo[0], env);
      ResolveKeepsMemories(s1, todo[1..], env);
      RemembersThen(s, s1, Resolve(s1, todo[1..], env), env.now);
    } else {
      ResolveNothing(s, env);
    }
  }

  lemma ResolveNothing(s: PoolState, env: Surroundings)
    ensures Resolve(s, [], env) == s && Remembers(s, s, env.now)
  {
  }

  lemma RemembersThen(s: PoolState, s1: PoolState, after: PoolState, now: int)
    requires Remembers(s, s1, now) && Remembers(s1, after, now)
    ensures Remembers(s, after, now)
  {
  }

  lemma ResolveOneKeepsMemories(s: PoolState, pm: PendingMatch, env: Surroundings)
    requires Inv(s) && pm in s.pending
    ensures Remembers(s, ResolveOne(s, pm, env), env.now)
  {
    ResolveOneCases(s, pm, env);
    hide Inv, ResolveOne, Abandon, DeadIds, Drop;
    AbandonKeepsMemories(s, pm, DeadIds(pm.game.participants, env.dead), Expired, env.now);
    AbandonKeepsMemories(s, pm, Ids(Drop(pm.game.participants, pm.accepted)), AcceptTimeout, env.now);
  }

  lemma TickKeepsMemories(s: PoolState, env: Surroundings)
    requires Inv(s)
    ensures Remembers(s, Tick(s, env), env.now)
  {
    var s1 := Sweep(s, env);
    var r := Resolve(s1, s1.pending, env);
    var s2 := TickOpens(s, env);
    var s3 := PairAll(s2, env);
    TickIs(s, env);
    PublishIs(s3, env);
    SweepKeeps(s, env);
    InvDistinct(s1);
    assert ToResolve(s1, s1.pending) && s1.requeued == s.requeued && AliveEverywhere(s2, env);
    hide *;
    ResolveKeepsMemories(s1, s1.pending, env);
    PairAllKeeps(s2, env);
    OpeningsRemember(s, s1, r, s2, Publish(s3, env), env.now);
  }

  lemma OpeningsRemember(s: PoolState, s1: PoolState, r: PoolState, s2: PoolState, after: PoolState, now: int)
    requires s1.requeued == s.requeued && Remembers(s1, r, now) && s2 == Forget(r, now) && after.requeued == s2.requeued
    ensures Remembers(s, after, now)
  {
  }

  lemma StillRemembered(s: PoolState, after: PoolState, now: int, matchId: nat, id: string, later: int)
    requires Remembers(s, after, now) && WasRequeuedFrom(s, matchId, id, later) && now <= later
    ensures WasRequeuedFrom(after, matchId, id, later)
  {
  }

  lemma AcceptKeepsMemories(s: PoolState, matchId: nat, id: string, env: Surroundings)
    ensures Remembers(s, Accept(s, matchId, id, env).0, env.now)
  {
    AcceptUnfolds(s, matchId, id, env);
    hide Accept, LivePending, FullyAccepted;
  }

  /**
    A participant put back by an abandoned match may answer for it until its deadline: no call makes the pool
    forget that earlier, but that participant's own DECLINE of that match.
   */
  lemma StepRemembers(s: PoolState, m: Moment, matchId: nat, id: string, later: int)
    requires Inv(s) && WasRequeuedFrom(s, matchId, id, later) && m.env.now <= later
    ensures WasRequeuedFrom(Step(s, m), matchId, id, later) || m.call == DeclineCall(matchId, id)
  {
    if m.call.DeclineCall? {
      DeclineRemembers(s, m.call.matchId, m.call.id, m.env.now, matchId, id, later);
      hide Decline;
    } else {
      hide Inv, Add, Withdraw, Accept, Tick, Remembers, WasRequeuedFrom;
      match m.call {
        case AddCall(q) => AddKeepsMemories(s, q, m.env.now);
        case RemoveCall(gone) => WithdrawKeepsMemories(s, gone, Cancelled, Cancelled, m.env.now);
        case DequeueCall(gone) => WithdrawKeepsMemories(s, gone, Dequeued, Outcome.Declined, m.env.now);
        case AcceptCall(other, acceptor) => AcceptKeepsMemories(s, other, acceptor, m.env);
        case TickCall => TickKeepsMemories(s, m.env);
      }
      StillRemembered(s, Step(s, m), m.env.now, matchId, id, later);
    }
  }

  lemma DeclineRemembers(s: PoolState, other: nat, decliner: string, now: int, matchId: nat, id: string, later: int)
    requires Inv(s) && WasRequeuedFrom(s, matchId, id, later) && now <= later
    ensures WasRequeuedFrom(Decline(s, other, decliner, now).0, matchId, id, later) || (other == matchId && decliner == id)
  {
    hide Inv, Decline;
    DeclineKeepsMemories(s, other, decliner, now);
  }

  /** A DECLINE of a match that is no longer pending uses up the memory of its sender: the next one is for an unknown match. */
  lemma LateDeclineForgets(s: PoolState, matchId: nat, id: string, now: int, later: int)
    requires Inv(s) && !MayAnswer(s, matchId, id, now) && Remembered(s, matchId, id, now)
    ensures !Remembered(Decline(s, matchId, id, now).0, matchId, id, later)
  {
    LiveMeans(s, matchId, id, now);
    var record := s.requeued[matchId].(ids := s.requeued[matchId].ids - {id});
    var s1 := s.(requeued := s.requeued[matchId := record]);
    DeclineCases(s, matchId, id, now);
    ForgiveKeeps(s, matchId, record);
    hide Inv, Withdraw, LivePending, Decline, FindById, PendingOfId;
    WithdrawLeavesMemory(s1, id, matchId, now);
  }

  /** Taking somebody out says nothing about a match that is not pending. */
  lemma WithdrawLeavesMemory(s: PoolState, id: string, matchId: nat, now: int)
    requires Inv(s) && matchId in s.requeued
    ensures var after := Withdraw(s, id, Outcome.Declined, Outcome.Declined, now).0;
            matchId in after.requeued && after.requeued[matchId] == s.requeued[matchId]
  {
    var held := PendingOfId(s.pending, id);
    WithdrawCases(s, id, Outcome.Declined, Outcome.Declined, now);
    assert held.Some? ==> held.value.game.id !in s.requeued;
    hide Inv, FindById, PendingOfId, Exits, Statuses, Drop, Keep, WithoutMatch, Withdraw;
  }
}
