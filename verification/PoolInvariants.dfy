/** Every call keeps the books and the history, and accounts for everyone. */
module PoolInvariants {
  import opened Options
  import opened QueueEntry
  import opened Participants
  import opened Pairing
  import opened PoolModel
  import opened PoolBooks
  import opened PoolTrace

  ghost predicate Inv(s: PoolState) {
    Books(s) && History(s)
  }

  /**
    What the pool relies on when somebody arrives: an id belongs to one user, and the connection is
    neither in use by someone already held nor closed.
   */
  ghost predicate Arrival(s: PoolState, p: Participant) {
    && !ClosedChannel(s.trace, p.channel)
    && (forall q :: q in Places(s) ==> q.channel != p.channel && (q.id == p.id ==> q.userId == p.userId))
  }

  lemma EmptyPoolIsFine()
    ensures Inv(EMPTY_POOL) && Places(EMPTY_POOL) == multiset{} && Account(EMPTY_POOL) == Ledger(multiset{}, multiset{})
  {
  }

  // ---- who is where ------------------------------------------------------------------------

  lemma WaitingHasPlace(s: PoolState, p: Participant)
    requires p in s.waiting
    ensures p in Places(s)
  {
    assert p in multiset(s.waiting);
  }

  lemma PendingHasPlace(s: PoolState, pm: PendingMatch, p: Participant)
    requires pm in s.pending && p in pm.game.participants
    ensures p in Places(s)
  {
    InPendingIn(s.pending);
    assert p in InPending(s.pending);
    assert p in multiset(InPending(s.pending));
  }

  lemma {:induction false} InPendingFrom(book: seq<PendingMatch>, p: Participant) returns (pm: PendingMatch)
    requires p in InPending(book)
    ensures pm in book && p in pm.game.participants
  {
    if p in book[0].game.participants {
      pm := book[0];
    } else {
      pm := InPendingFrom(book[1..], p);
    }
  }

  /** The participants of one pending match are pairwise apart. */
  lemma GameUnique(s: PoolState, pm: PendingMatch)
    requires Books(s) && pm in s.pending
    ensures Unique(multiset(pm.game.participants))
    ensures multiset(pm.game.participants) <= Places(s)
  {
    TakeOut(s.pending, pm);
    assert multiset(pm.game.participants) <= Places(s);
    SubUnique(multiset(pm.game.participants), Places(s));
  }

  lemma PlacesOpen(s: PoolState, p: Participant)
    requires Reachable(s) && p in Places(s)
    ensures !ClosedChannel(s.trace, p.channel)
  {
  }

  // ---- the movements -------------------------------------------------------------------------

  lemma ExitsAreHarmless(trace: seq<Event>, ps: seq<Participant>, outcome: Outcome, now: int)
    ensures Harmless(trace, Exits(ps, outcome, now))
  {
    hide ClosedChannel;
  }

  lemma BothSound(s: PoolState)
    requires Books(s) && History(s)
    ensures Inv(s)
  {
    hide Books, History;
  }

  lemma LeaveKeeps(s: PoolState, ps: seq<Participant>, outcome: Outcome, now: int)
    requires Inv(s) && multiset(ps) <= multiset(s.waiting)
    ensures Inv(Leave(s, ps, outcome, now))
    ensures Account(Leave(s, ps, outcome, now)) == Account(s)
    ensures Places(Leave(s, ps, outcome, now)) == Places(s) - multiset(ps)
  {
    var after := Leave(s, ps, outcome, now);
    assert after.trace == s.trace + Exits(ps, outcome, now) && after.pending == s.pending && after.nextMatchId == s.nextMatchId;
    assert Books(s) && History(s) && Reachable(s);
    hide *;
    ExitsAreHarmless(s.trace, ps, outcome, now);
    LeaveBalances(s, ps, outcome, now);
    PlacesStillOpen(s, after);
    HistoryGrows(s, after, Exits(ps, outcome, now));
    BothSound(after);
  }

  lemma AbandonKeeps(s: PoolState, pm: PendingMatch, leaving: set<string>, outcome: Outcome, now: int)
    requires Inv(s) && pm in s.pending
    ensures Inv(Abandon(s, pm, leaving, outcome, now))
    ensures Account(Abandon(s, pm, leaving, outcome, now)) == Account(s)
    ensures Places(Abandon(s, pm, leaving, outcome, now)) == Places(s) - multiset(Keep(pm.game.participants, leaving))
  {
    AbandonBalances(s, pm, leaving, outcome, now);
    AbandonHistory(s, pm, leaving, outcome, now);
  }

  lemma AbandonHistory(s: PoolState, pm: PendingMatch, leaving: set<string>, outcome: Outcome, now: int)
    requires History(s) && pm in s.pending
    requires Places(Abandon(s, pm, leaving, outcome, now)) <= Places(s)
    ensures History(Abandon(s, pm, leaving, outcome, now))
  {
    var after := Abandon(s, pm, leaving, outcome, now);
    var gone, stay := Keep(pm.game.participants, leaving), Drop(pm.game.participants, leaving);
    var more := Exits(gone, outcome, now) + Statuses(stay, now);
    AbandonTells(s, pm, leaving, outcome, now);
    AbandonSpeaks(s, pm, leaving, outcome, now);
    PlacesStillOpen(s, after);
    WithoutMatchIn(s.pending, pm.game.id);
    assert after.pending == WithoutMatch(s.pending, pm.game.id) && after.nextMatchId == s.nextMatchId;
    hide *;
    HistoryGrows(s, after, more);
  }

  lemma PlacesStillOpen(s: PoolState, after: PoolState)
    requires Reachable(s) && Places(after) <= Places(s)
    ensures forall p :: p in Places(after) ==> !ClosedChannel(s.trace, p.channel)
  {
    forall p | p in Places(after) ensures !ClosedChannel(s.trace, p.channel) {
      assert p in Places(s);
    }
  }

  lemma AbandonSpeaks(s: PoolState, pm: PendingMatch, leaving: set<string>, outcome: Outcome, now: int)
    requires Reachable(s) && pm in s.pending
    ensures Harmless(s.trace, Exits(Keep(pm.game.participants, leaving), outcome, now)
                              + Statuses(Drop(pm.game.participants, leaving), now))
  {
    var exits := Exits(Keep(pm.game.participants, leaving), outcome, now);
    var stay := Drop(pm.game.participants, leaving);
    DropIn(pm.game.participants, leaving);
    hide ClosedChannel, Drop, Keep;
    forall p | p in stay ensures !ClosedChannel(s.trace, p.channel) {
      PendingHasPlace(s, pm, p);
    }
    hide Places;
    forall e | e in exits + Statuses(stay, now) && Speaks(e) ensures !ClosedChannel(s.trace, e.p.channel) {
      assert e in exits || e in Statuses(stay, now);
      assert e.p in stay;
    }
  }

  lemma CloseKeeps(s: PoolState, p: Participant, reason: CloseReason)
    requires Inv(s) && forall q :: q in Places(s) ==> q.channel != p.channel
    ensures Inv(Close(s, p, reason))
    ensures Account(Close(s, p, reason)) == Account(s) && Places(Close(s, p, reason)) == Places(s)
  {
    TellBalances(s, [Closed(p, reason)]);
    HistoryCloses(s, [Closed(p, reason)]);
  }

  lemma StoreKeeps(s: PoolState, p: Participant)
    requires Inv(s) && Newcomer(s, p) && !ClosedChannel(s.trace, p.channel)
    ensures Inv(s.(waiting := s.waiting + [p]))
    ensures Account(s.(waiting := s.waiting + [p])) == Account(s).Enter(multiset{p})
    ensures Places(s.(waiting := s.waiting + [p])) == Places(s) + multiset{p}
  {
    StoreBalances(s, p);
    var after := s.(waiting := s.waiting + [p]);
    assert after.trace == s.trace + [];
    forall q | q in Places(after) ensures !ClosedChannel(s.trace, q.channel) {
      assert q == p || q in Places(s);
    }
    HistoryGrows(s, after, []);
  }

  /** Whoever left is apart from everyone still held. */
  lemma GoneIsApart(before: multiset<Participant>, gone: multiset<Participant>, p: Participant)
    requires Unique(before) && p in gone && p in before
    ensures forall q :: q in before - gone ==> Apart(p, q)
  {
    assert before[p] == 1 && gone[p] >= 1;
    forall q | q in before - gone ensures Apart(p, q) {
      assert q in before;
      assert (before - gone)[p] == 0;
    }
  }

  // ---- add ----------------------------------------------------------------------------------------

  /** The place an arrival's user already has, if any. */
  ghost predicate AlreadyIn(s: PoolState, userId: string) {
    exists q :: q in Places(s) && q.userId == userId
  }

  lemma AlreadyInFinds(s: PoolState, userId: string)
    ensures AlreadyIn(s, userId) <==>
            FindByUser(s.waiting, userId).Some? || PendingOfUser(s.pending, userId).Some?
  {
    if FindByUser(s.waiting, userId).Some? {
      WaitingHasPlace(s, FindByUser(s.waiting, userId).value);
    } else if PendingOfUser(s.pending, userId).Some? {
      var pm := PendingOfUser(s.pending, userId).value;
      PendingHasPlace(s, pm, FindByUser(pm.game.participants, userId).value);
    } else if AlreadyIn(s, userId) {
      var q :| q in Places(s) && q.userId == userId;
      assert q in multiset(s.waiting) || q in multiset(InPending(s.pending));
      if q in InPending(s.pending) {
        var pm := InPendingFrom(s.pending, q);
      }
    }
  }

  lemma ReplacedIsApart(s: PoolState, existing: Participant, p: Participant, after: PoolState)
    requires Books(s) && Arrival(s, p) && existing in Places(s) && existing.userId == p.userId
    requires Places(after) == Places(s) - multiset{existing}
    ensures Newcomer(after, p)
    ensures forall q :: q in Places(after) ==> q.channel != existing.channel
  {
    GoneIsApart(Places(s), multiset{existing}, existing);
    forall q | q in Places(after) ensures Apart(p, q) {
      assert q in Places(s) && Apart(existing, q);
    }
  }

  lemma AddQueued(s: PoolState, p: Participant, now: int)
    requires Inv(s) && Arrival(s, p) && p.presence.Socket? && FindByUser(s.waiting, p.userId).Some?
    ensures Inv(Add(s, p, now).0)
    ensures Account(Add(s, p, now).0) == Account(s).Enter(multiset{p})
  {
    var e := FindByUser(s.waiting, p.userId).value;
    assert Books(s) && e in s.waiting && e.userId == p.userId;
    var s1 := Leave(s, [e], Replaced, now);
    assert s1.trace == s.trace + Exits([e], Replaced, now);
    AddReplacesQueued(s, p, now);
    hide *;
    WaitingHasPlace(s, e);
    JustOne(s.waiting, e);
    LeaveKeeps(s, [e], Replaced, now);
    NotClosing([e], [], Replaced, now);
    ReplaceWith(s, e, p, s1, Exits([e], Replaced, now));
  }

  lemma NotClosing(gone: seq<Participant>, stay: seq<Participant>, outcome: Outcome, now: int)
    ensures forall ev :: ev in Exits(gone, outcome, now) + Statuses(stay, now) ==> !ev.Closed?
    ensures forall ev :: ev in Exits(gone, outcome, now) ==> !ev.Closed?
  {
  }

  lemma AddReplacesQueued(s: PoolState, p: Participant, now: int)
    requires p.presence.Socket? && FindByUser(s.waiting, p.userId).Some?
    ensures var e := FindByUser(s.waiting, p.userId).value;
            var s2 := Close(Leave(s, [e], Replaced, now), e, ReplacedByNewConnection);
            Add(s, p, now).0 == s2.(waiting := s2.waiting + [p])
  {
  }

  lemma AddReplacesPending(s: PoolState, p: Participant, now: int)
    requires p.presence.Socket? && FindByUser(s.waiting, p.userId).None? && PendingOfUser(s.pending, p.userId).Some?
    ensures var pm := PendingOfUser(s.pending, p.userId).value;
            var e := FindByUser(pm.game.participants, p.userId).value;
            var s2 := Close(Abandon(s, pm, {e.id}, Replaced, now), e, ReplacedByNewConnection);
            Add(s, p, now).0 == s2.(waiting := s2.waiting + [p])
  {
  }

  lemma ReplaceWith(s: PoolState, e: Participant, p: Participant, s1: PoolState, told: seq<Event>)
    requires Books(s) && Arrival(s, p) && e in Places(s) && e.userId == p.userId
    requires Inv(s1) && Account(s1) == Account(s) && Places(s1) == Places(s) - multiset{e}
    requires s1.trace == s.trace + told && forall ev :: ev in told ==> !ev.Closed?
    ensures var s2 := Close(s1, e, ReplacedByNewConnection);
            var s3 := s2.(waiting := s2.waiting + [p]);
            Inv(s3) && Account(s3) == Account(s).Enter(multiset{p})
  {
    var s2 := Close(s1, e, ReplacedByNewConnection);
    var closing := [Closed(e, ReplacedByNewConnection)];
    assert s2.trace == s1.trace + closing && e.channel != p.channel;
    assert !ClosedChannel(s.trace, p.channel) && !ClosedChannel(closing, p.channel);
    hide *;
    ReplacedIsApart(s, e, p, s1);
    CloseKeeps(s1, e, ReplacedByNewConnection);
    HarmlessCloses(s.trace, told, p.channel);
    ClosedSplit(s1.trace, closing, p.channel);
    SameRoom(s1, s2, p);
    StoreKeeps(s2, p);
  }

  lemma SameRoom(a: PoolState, b: PoolState, p: Participant)
    requires Newcomer(a, p) && Places(a) == Places(b)
    ensures Newcomer(b, p)
  {
  }

  lemma AddPending(s: PoolState, p: Participant, now: int)
    requires Inv(s) && Arrival(s, p) && p.presence.Socket?
    requires FindByUser(s.waiting, p.userId).None? && PendingOfUser(s.pending, p.userId).Some?
    ensures Inv(Add(s, p, now).0)
    ensures Account(Add(s, p, now).0) == Account(s).Enter(multiset{p})
  {
    var pm := PendingOfUser(s.pending, p.userId).value;
    var e := FindByUser(pm.game.participants, p.userId).value;
    assert Books(s) && pm in s.pending && e in pm.game.participants && e.userId == p.userId;
    var s1 := Abandon(s, pm, {e.id}, Replaced, now);
    var gone, stay := Keep(pm.game.participants, {e.id}), Drop(pm.game.participants, {e.id});
    AbandonTells(s, pm, {e.id}, Replaced, now);
    AddReplacesPending(s, p, now);
    hide *;
    PendingHasPlace(s, pm, e);
    AbandonKeeps(s, pm, {e.id}, Replaced, now);
    KeepOneOf(s, pm, e);
    NotClosing(gone, stay, Replaced, now);
    ReplaceWith(s, e, p, s1, Exits(gone, Replaced, now) + Statuses(stay, now));
  }

  lemma AbandonTells(s: PoolState, pm: PendingMatch, leaving: set<string>, outcome: Outcome, now: int)
    ensures Abandon(s, pm, leaving, outcome, now).trace == s.trace +
            (Exits(Keep(pm.game.participants, leaving), outcome, now) + Statuses(Drop(pm.game.participants, leaving), now))
  {
  }

  lemma KeepOneOf(s: PoolState, pm: PendingMatch, e: Participant)
    requires Books(s) && pm in s.pending && e in pm.game.participants
    ensures multiset(Keep(pm.game.participants, {e.id})) == multiset{e}
  {
    GameUnique(s, pm);
    KeepOne(pm.game.participants, e);
  }

  /**
    An arrival is refused exactly when it polls for a user who already has a place; otherwise it is
    stored, and replaces exactly that place.
   */
  lemma AddKeeps(s: PoolState, p: Participant, now: int)
    requires Inv(s) && Arrival(s, p)
    ensures Inv(Add(s, p, now).0)
    ensures Add(s, p, now).1 ==
            if !AlreadyIn(s, p.userId) then Stored(false)
            else if p.presence.Poll? then DuplicateEntry else Stored(true)
    ensures Account(Add(s, p, now).0) == if Add(s, p, now).1.Stored? then Account(s).Enter(multiset{p}) else Account(s)
  {
    AlreadyInFinds(s, p.userId);
    if !AlreadyIn(s, p.userId) {
      assert Newcomer(s, p);
      StoreKeeps(s, p);
    } else if p.presence.Socket? {
      if FindByUser(s.waiting, p.userId).Some? {
        AddQueued(s, p, now);
      } else {
        AddPending(s, p, now);
      }
    }
  }

  // ---- withdrawing ----------------------------------------------------------------------------------

  lemma WithdrawKeeps(s: PoolState, id: string, fromStore: Outcome, fromPending: Outcome, now: int)
    requires Inv(s)
    ensures Inv(Withdraw(s, id, fromStore, fromPending, now).0)
    ensures Account(Withdraw(s, id, fromStore, fromPending, now).0) == Account(s)
    ensures forall q :: q in Places(Withdraw(s, id, fromStore, fromPending, now).0) ==> q in Places(s) && q.id != id
  {
    var queued, held := FindById(s.waiting, id), PendingOfId(s.pending, id);
    if queued.Some? {
      WithdrawQueued(s, queued.value, fromStore, now);
    } else if held.Some? {
      WithdrawHeld(s, held.value, FindById(held.value.game.participants, id).value, fromPending, now);
    } else {
      NobodyWithId(s, id);
    }
    hide Inv, Places, Account, Leave, Abandon;
  }

  lemma WithdrawQueued(s: PoolState, p: Participant, outcome: Outcome, now: int)
    requires Inv(s) && p in s.waiting
    ensures var after := Leave(s, [p], outcome, now);
            Inv(after) && Account(after) == Account(s) && forall q :: q in Places(after) ==> q in Places(s) && q.id != p.id
  {
    assert Unique(Places(s));
    hide *;
    WaitingHasPlace(s, p);
    JustOne(s.waiting, p);
    LeaveKeeps(s, [p], outcome, now);
    GoneIsApart(Places(s), multiset{p}, p);
    ApartDiffers(Places(s), Places(Leave(s, [p], outcome, now)), p);
  }

  lemma WithdrawHeld(s: PoolState, pm: PendingMatch, p: Participant, outcome: Outcome, now: int)
    requires Inv(s) && pm in s.pending && p in pm.game.participants
    ensures var after := Abandon(s, pm, {p.id}, outcome, now);
            Inv(after) && Account(after) == Account(s) && forall q :: q in Places(after) ==> q in Places(s) && q.id != p.id
  {
    assert Unique(Places(s)) && Books(s);
    hide *;
    AbandonKeeps(s, pm, {p.id}, outcome, now);
    KeepOneOf(s, pm, p);
    PendingHasPlace(s, pm, p);
    GoneIsApart(Places(s), multiset{p}, p);
    ApartDiffers(Places(s), Places(Abandon(s, pm, {p.id}, outcome, now)), p);
  }

  lemma ApartDiffers(before: multiset<Participant>, after: multiset<Participant>, p: Participant)
    requires after == before - multiset{p} && forall q :: q in before - multiset{p} ==> Apart(p, q)
    ensures forall q :: q in after ==> q in before && q.id != p.id
  {
  }

  lemma NobodyWithId(s: PoolState, id: string)
    requires FindById(s.waiting, id).None? && PendingOfId(s.pending, id).None?
    ensures forall q :: q in Places(s) ==> q.id != id
  {
    forall q | q in Places(s) ensures q.id != id {
      assert q in multiset(s.waiting) || q in multiset(InPending(s.pending));
      if q in InPending(s.pending) {
        var pm := InPendingFrom(s.pending, q);
      }
    }
  }

  // ---- handing over ---------------------------------------------------------------------------------

  /** The participants of a match that has just been taken out of the pool. */
  ghost predicate Detached(s: PoolState, game: Match) {
    && Unique(Places(s) + multiset(game.participants))
    && (forall p :: p in game.participants ==> !ClosedChannel(s.trace, p.channel))
  }

  lemma HandleKeeps(s: PoolState, game: Match, env: Surroundings)
    requires Inv(s) && Detached(s, game)
    requires game.id < s.nextMatchId && !WasHandled(s.trace, game.id)
    requires forall pm :: pm in s.pending ==> pm.game.id != game.id
    requires RequiresAcceptStep(game) ==> Agreed(s.trace, game)
    ensures Inv(Handle(s, game, env))
    ensures Account(Handle(s, game, env)) == Account(s).HandBack(multiset(Keep(game.participants, env.back)))
    ensures Places(Handle(s, game, env)) == Places(s) + multiset(Keep(game.participants, env.back))
  {
    var after := Handle(s, game, env);
    HandleTrace(s, game, env);
    HandleBooks(s, game, env);
    HandleHistory(s, game, env);
    hide Books, History, Places, ExitedFrom, HandedBack, Keep, Unique, Handle;
  }

  lemma HandleTrace(s: PoolState, game: Match, env: Surroundings)
    ensures ExitedFrom(Handle(s, game, env).trace) == ExitedFrom(s.trace)
    ensures HandedBack(Handle(s, game, env).trace) == HandedBack(s.trace) + multiset(Keep(game.participants, env.back))
  {
    var handled := [Handled(game, Keep(game.participants, env.back))];
    assert handled[1..] == [];
    Silent(s.trace + handled, Founds(Keep(game.participants, env.told), game.id));
    ExitedAppend(s.trace, handled);
  }

  lemma HandleBooks(s: PoolState, game: Match, env: Surroundings)
    requires Books(s) && Unique(Places(s) + multiset(game.participants))
    ensures Books(Handle(s, game, env))
    ensures Places(Handle(s, game, env)) == Places(s) + multiset(Keep(game.participants, env.back))
  {
    KeepDropSplit(game.participants, env.back);
    assert Places(Handle(s, game, env)) == Places(s) + multiset(Keep(game.participants, env.back));
    SubUnique(Places(Handle(s, game, env)), Places(s) + multiset(game.participants));
  }

  lemma HandleHistory(s: PoolState, game: Match, env: Surroundings)
    requires History(s) && Detached(s, game)
    requires game.id < s.nextMatchId && !WasHandled(s.trace, game.id)
    requires forall pm :: pm in s.pending ==> pm.game.id != game.id
    requires RequiresAcceptStep(game) ==> Agreed(s.trace, game)
    requires Places(Handle(s, game, env)) == Places(s) + multiset(Keep(game.participants, env.back))
    ensures History(Handle(s, game, env))
  {
    var back, told := Keep(game.participants, env.back), Keep(game.participants, env.told);
    var s1, after := s.(trace := s.trace + [Handled(game, back)]), Handle(s, game, env);
    KeepIn(game.participants, env.told);
    KeepIn(game.participants, env.back);
    assert Reachable(s);
    assert after.trace == s1.trace + Founds(told, game.id) && after.pending == s1.pending && after.nextMatchId == s1.nextMatchId;
    hide *;
    HistoryHandsOver(s, game, back);
    FoundsOpen(s.trace, game, back, told);
    ReturnersOpen(s, after, game, back);
    HistoryGrows(s1, after, Founds(told, game.id));
  }

  lemma FoundsOpen(trace: seq<Event>, game: Match, back: seq<Participant>, told: seq<Participant>)
    requires forall p :: p in told ==> !ClosedChannel(trace, p.channel)
    ensures Harmless(trace + [Handled(game, back)], Founds(told, game.id))
  {
    forall e | e in Founds(told, game.id) ensures e.FoundSent? && !ClosedChannel(trace + [Handled(game, back)], e.p.channel) {
      assert e.p in told;
      HarmlessCloses(trace, [Handled(game, back)], e.p.channel);
    }
  }

  lemma ReturnersOpen(s: PoolState, after: PoolState, game: Match, back: seq<Participant>)
    requires Reachable(s) && Places(after) == Places(s) + multiset(back)
    requires forall p :: p in back ==> !ClosedChannel(s.trace, p.channel)
    ensures forall p :: p in Places(after) ==> !ClosedChannel(s.trace + [Handled(game, back)], p.channel)
  {
    hide Places, ClosedChannel;
    forall p | p in Places(after) ensures !ClosedChannel(s.trace + [Handled(game, back)], p.channel) {
      if p !in Places(s) {
        assert p in multiset(back);
      }
      HarmlessCloses(s.trace, [Handled(game, back)], p.channel);
    }
  }

  // ---- answers ----------------------------------------------------------------------------------------

  lemma AcceptKeeps(s: PoolState, matchId: nat, id: string, env: Surroundings)
    requires Inv(s)
    ensures Inv(Accept(s, matchId, id, env).0)
    ensures Settles(Account(s), Account(Accept(s, matchId, id, env).0), multiset{})
  {
    var live := LivePending(s, matchId, id, env.now);
    AcceptUnfolds(s, matchId, id, env);
    assert live.Some? ==> live.value in s.pending && env.now < live.value.deadline && live.value.game.id == matchId;
    hide *;
    SettlesSame(Account(s));
    if live.Some? {
      var pm := live.value;
      if FullyAccepted(pm.(accepted := pm.accepted + {id})) {
        AcceptLast(s, pm, id, env);
        SettlesHandBack(Account(s), multiset(Keep(pm.game.participants, env.back)));
      } else {
        AcceptOne(s, pm, id, env);
      }
    }
  }

  lemma AcceptUnfolds(s: PoolState, matchId: nat, id: string, env: Surroundings)
    ensures var live := LivePending(s, matchId, id, env.now);
            Accept(s, matchId, id, env).0 ==
            if live.None? then s
            else if FullyAccepted(live.value.(accepted := live.value.accepted + {id}))
            then Handle(Detach(s, live.value, id, env.now), live.value.game, env)
            else s.(pending := Record(s.pending, matchId, id), trace := s.trace + [AcceptRecorded(matchId, id, env.now)])
  {
    hide FullyAccepted, Handle, Record, WithoutMatch, Exits;
  }

  lemma SettlesSame(a: Ledger)
    ensures Settles(a, a, multiset{})
  {
  }

  lemma SettlesHandBack(a: Ledger, back: multiset<Participant>)
    ensures Settles(a, a.HandBack(back), multiset{})
  {
  }

  lemma SettlesEnter(a: Ledger, arrived: multiset<Participant>)
    ensures Settles(a, a.Enter(arrived), arrived)
  {
  }

  lemma SettlesThen(a: Ledger, b: Ledger, c: Ledger, first: multiset<Participant>, then_: multiset<Participant>)
    requires Settles(a, b, first) && Settles(b, c, then_)
    ensures Settles(a, c, first + then_)
  {
    forall p ensures (c.seen + a.handedBack)[p] == (a.seen + (first + then_) + c.handedBack)[p] {
      assert (b.seen + a.handedBack)[p] == (a.seen + first + b.handedBack)[p];
      assert (c.seen + b.handedBack)[p] == (b.seen + then_ + c.handedBack)[p];
    }
  }

  lemma SettlesOn(a: Ledger, b: Ledger, c: Ledger)
    requires Settles(a, b, multiset{}) && Settles(b, c, multiset{})
    ensures Settles(a, c, multiset{})
  {
    var nobody: multiset<Participant> := multiset{};
    SettlesThen(a, b, c, nobody, nobody);
    assert nobody + nobody == nobody;
  }

  lemma AcceptOne(s: PoolState, pm: PendingMatch, id: string, env: Surroundings)
    requires Inv(s) && pm in s.pending && env.now < pm.deadline
    requires !FullyAccepted(pm.(accepted := pm.accepted + {id}))
    ensures var after := s.(pending := Record(s.pending, pm.game.id, id),
                            trace := s.trace + [AcceptRecorded(pm.game.id, id, env.now)]);
            Inv(after) && Account(after) == Account(s)
  {
    var entry := [AcceptRecorded(pm.game.id, id, env.now)];
    var told := s.(trace := s.trace + entry);
    var after := told.(pending := Record(s.pending, pm.game.id, id));
    assert Books(s) && History(s) && DistinctGames(s.pending) && Reachable(s);
    assert forall q :: q in s.pending ==> Backed(s.trace, q);
    hide Books, History, Places, ExitedFrom, HandedBack, Reachable, Backed, FullyAccepted, DistinctGames, Record, ClosedChannel;
    TellBalances(s, entry);
    OpenStays(s, told);
    HistoryGrows(s, told, entry);
    AnsweredBooks(told, pm, id);
    forall q | q in after.pending ensures Backed(after.trace, q) {
      EntryStaysBacked(s, pm, id, env.now, q);
    }
    AnsweredHistory(told, after);
  }

  lemma OpenStays(s: PoolState, told: PoolState)
    requires Reachable(s) && Places(told) == Places(s)
    ensures forall p :: p in Places(told) ==> !ClosedChannel(s.trace, p.channel)
  {
  }

  lemma AnsweredBooks(s: PoolState, pm: PendingMatch, id: string)
    requires Books(s) && pm in s.pending && !FullyAccepted(pm.(accepted := pm.accepted + {id}))
    ensures var after := s.(pending := Record(s.pending, pm.game.id, id));
            Books(after) && Places(after) == Places(s) && Account(after) == Account(s)
  {
    RecordKeepsPlaces(s.pending, pm.game.id, id);
    RecordKeepsBook(s, pm, id);
    hide Unique, BookOk, RequeuesOk, FullyAccepted, ExitedFrom, HandedBack;
  }

  lemma EntryStaysBacked(s: PoolState, pm: PendingMatch, id: string, now: int, q: PendingMatch)
    requires DistinctGames(s.pending) && pm in s.pending && q in Record(s.pending, pm.game.id, id) && now < pm.deadline
    requires forall other :: other in s.pending ==> Backed(s.trace, other)
    ensures Backed(s.trace + [AcceptRecorded(pm.game.id, id, now)], q)
  {
    hide *;
    var was := Recorded(s, pm, id, q);
    AnswerIsBacked(s.trace, pm, id, now);
    BackedLater(s.trace, [AcceptRecorded(pm.game.id, id, now)], was);
  }

  lemma AnsweredHistory(s: PoolState, after: PoolState)
    requires History(s) && after.trace == s.trace && after.nextMatchId == s.nextMatchId && Places(after) == Places(s)
    requires forall q :: q in after.pending ==> Backed(after.trace, q)
    ensures History(after)
  {
    hide Quiet, Places, AcceptSafe, HandledOnce, Backed;
  }

  /** An entry of the updated book is an old entry, or the match just answered with one more answer. */
  lemma Recorded(s: PoolState, pm: PendingMatch, id: string, q: PendingMatch) returns (was: PendingMatch)
    requires DistinctGames(s.pending) && pm in s.pending && q in Record(s.pending, pm.game.id, id)
    ensures was in s.pending && was.game == q.game
    ensures q == was || q == pm.(accepted := pm.accepted + {id})
  {
    var i :| 0 <= i < |s.pending| && Record(s.pending, pm.game.id, id)[i] == q;
    was := s.pending[i];
    if was.game.id == pm.game.id {
      SameGame(s.pending, was, pm);
    }
  }

  lemma RecordKeepsBook(s: PoolState, pm: PendingMatch, id: string)
    requires BookOk(s.pending, s.nextMatchId) && RequeuesOk(s.requeued, s.pending, s.nextMatchId) && pm in s.pending
    requires !FullyAccepted(pm.(accepted := pm.accepted + {id}))
    ensures BookOk(Record(s.pending, pm.game.id, id), s.nextMatchId)
    ensures RequeuesOk(s.requeued, Record(s.pending, pm.game.id, id), s.nextMatchId)
  {
    forall q | q in Record(s.pending, pm.game.id, id)
      ensures q.game.id < s.nextMatchId && Awaiting(q) && q.game.id !in s.requeued
    {
      var was := Recorded(s, pm, id, q);
      assert Awaiting(was);
    }
  }

  lemma SameGame(book: seq<PendingMatch>, a: PendingMatch, b: PendingMatch)
    requires DistinctGames(book) && a in book && b in book && a.game.id == b.game.id
    ensures a == b
  {
  }

  lemma AcceptLast(s: PoolState, pm: PendingMatch, id: string, env: Surroundings)
    requires Inv(s) && pm in s.pending && env.now < pm.deadline
    requires FullyAccepted(pm.(accepted := pm.accepted + {id}))
    ensures var s1 := s.(pending := WithoutMatch(s.pending, pm.game.id),
                         trace := s.trace + [AcceptRecorded(pm.game.id, id, env.now)]
                                          + Exits(pm.game.participants, MatchedHuman, env.now));
            var after := Handle(s1, pm.game, env);
            s1 == Detach(s, pm, id, env.now) && Inv(after) && Account(after) == Account(s).HandBack(multiset(Keep(pm.game.participants, env.back)))
  {
    var s1 := Detach(s, pm, id, env.now);
    DetachIsSound(s, pm, id, env.now);
    assert s1 == s.(pending := WithoutMatch(s.pending, pm.game.id),
                    trace := s.trace + [AcceptRecorded(pm.game.id, id, env.now)]
                                     + Exits(pm.game.participants, MatchedHuman, env.now));
    hide *;
    HandleKeeps(s1, pm.game, env);
  }

  lemma DetachIsSound(s: PoolState, pm: PendingMatch, id: string, now: int)
    requires Inv(s) && pm in s.pending && now < pm.deadline
    requires FullyAccepted(pm.(accepted := pm.accepted + {id}))
    ensures var s1 := Detach(s, pm, id, now);
            && Inv(s1) && Detached(s1, pm.game) && Account(s1) == Account(s)
            && pm.game.id < s1.nextMatchId && !WasHandled(s1.trace, pm.game.id) && Agreed(s1.trace, pm.game)
            && forall q :: q in s1.pending ==> q.game.id != pm.game.id
  {
    assert Books(s) && Unique(Places(s)) && pm.game.id < s.nextMatchId;
    assert Detach(s, pm, id, now).nextMatchId == s.nextMatchId;
    hide FullyAccepted, History, Places, ExitedFrom, HandedBack, Unique, Detach, WasHandled, Agreed, ClosedChannel, BookOk;
    DetachBooks(s, pm, id, now);
    DetachExits(s, pm, id, now);
    DetachHistory(s, pm, id, now);
    DetachAccount(s, pm, id, now);
  }

  lemma DetachAccount(s: PoolState, pm: PendingMatch, id: string, now: int)
    requires Books(s) && pm in s.pending
    ensures Account(Detach(s, pm, id, now)) == Account(s)
  {
    DetachBooks(s, pm, id, now);
    DetachExits(s, pm, id, now);
    hide Books, Places, ExitedFrom, HandedBack, Detach;
  }

  /** The last ACCEPT takes its match out of the pool. */
  function Detach(s: PoolState, pm: PendingMatch, id: string, now: int): PoolState {
    s.(pending := WithoutMatch(s.pending, pm.game.id),
       trace := s.trace + [AcceptRecorded(pm.game.id, id, now)] + Exits(pm.game.participants, MatchedHuman, now))
  }

  lemma DetachBooks(s: PoolState, pm: PendingMatch, id: string, now: int)
    requires Books(s) && pm in s.pending
    ensures Books(Detach(s, pm, id, now))
    ensures Places(Detach(s, pm, id, now)) + multiset(pm.game.participants) == Places(s)
    ensures forall q :: q in Detach(s, pm, id, now).pending ==> q.game.id != pm.game.id
  {
    var s1 := Detach(s, pm, id, now);
    RestOfBook(s, pm.game.id);
    TakeOut(s.pending, pm);
    assert Places(s1) + multiset(pm.game.participants) == Places(s);
    SubUnique(Places(s1), Places(s));
  }

  lemma DetachExits(s: PoolState, pm: PendingMatch, id: string, now: int)
    ensures ExitedFrom(Detach(s, pm, id, now).trace) == ExitedFrom(s.trace) + multiset(pm.game.participants)
    ensures HandedBack(Detach(s, pm, id, now).trace) == HandedBack(s.trace)
  {
    var entry := [AcceptRecorded(pm.game.id, id, now)];
    ExitedAppend(s.trace + entry, Exits(pm.game.participants, MatchedHuman, now));
    ExitsCount(pm.game.participants, MatchedHuman, now);
    Silent(s.trace, entry);
  }

  lemma DetachHistory(s: PoolState, pm: PendingMatch, id: string, now: int)
    requires Inv(s) && pm in s.pending && now < pm.deadline
    requires FullyAccepted(pm.(accepted := pm.accepted + {id}))
    ensures var s1 := Detach(s, pm, id, now);
            && History(s1) && !WasHandled(s1.trace, pm.game.id) && Agreed(s1.trace, pm.game)
            && forall p :: p in pm.game.participants ==> !ClosedChannel(s1.trace, p.channel)
  {
    var s1 := Detach(s, pm, id, now);
    var entry, exits := [AcceptRecorded(pm.game.id, id, now)], Exits(pm.game.participants, MatchedHuman, now);
    assert s1.trace == s.trace + (entry + exits);
    assert s1.trace == s.trace + entry + exits;
    assert Books(s) && History(s) && Reachable(s) && Backed(s.trace, pm);
    assert s1.pending == WithoutMatch(s.pending, pm.game.id) && s1.nextMatchId == s.nextMatchId;
    SilentAnswer(s.trace, pm, id, now);
    hide *;
    DetachBooks(s, pm, id, now);
    PartOf(Places(s1), multiset(pm.game.participants), Places(s));
    PlacesStillOpen(s, s1);
    DetachAgrees(s.trace, pm, id, now);
    WithoutMatchIn(s.pending, pm.game.id);
    HistoryGrows(s, s1, entry + exits);
    forall p | p in pm.game.participants ensures !ClosedChannel(s1.trace, p.channel) {
      PendingHasPlace(s, pm, p);
      PlacesOpen(s, p);
      HarmlessCloses(s.trace, entry + exits, p.channel);
    }
  }

  lemma PartOf(a: multiset<Participant>, b: multiset<Participant>, whole: multiset<Participant>)
    requires a + b == whole
    ensures a <= whole
  {
  }

  lemma SilentAnswer(trace: seq<Event>, pm: PendingMatch, id: string, now: int)
    ensures var more := [AcceptRecorded(pm.game.id, id, now)] + Exits(pm.game.participants, MatchedHuman, now);
            Harmless(trace, more) && forall e :: e in more ==> !e.Closed?
  {
  }

  lemma DetachAgrees(trace: seq<Event>, pm: PendingMatch, id: string, now: int)
    requires Backed(trace, pm) && now < pm.deadline && FullyAccepted(pm.(accepted := pm.accepted + {id}))
    ensures var all := trace + [AcceptRecorded(pm.game.id, id, now)] + Exits(pm.game.participants, MatchedHuman, now);
            !WasHandled(all, pm.game.id) && Agreed(all, pm.game)
  {
    var entry := [AcceptRecorded(pm.game.id, id, now)];
    var answered := pm.(accepted := pm.accepted + {id});
    AnswerIsBacked(trace, pm, id, now);
    BackedLater(trace + entry, Exits(pm.game.participants, MatchedHuman, now), answered);
    BackedAgrees(trace + entry + Exits(pm.game.participants, MatchedHuman, now), answered);
  }

  lemma DeclineKeeps(s: PoolState, matchId: nat, id: string, now: int)
    requires Inv(s)
    ensures Inv(Decline(s, matchId, id, now).0)
    ensures Account(Decline(s, matchId, id, now).0) == Account(s)
  {
    var live := LivePending(s, matchId, id, now);
    if live.Some? {
      var e := FindById(live.value.game.participants, id).value;
      PendingHasPlace(s, live.value, e);
      AbandonKeeps(s, live.value, {id}, Declined, now);
      KeepOneOf(s, live.value, e);
      GoneIsApart(Places(s), multiset{e}, e);
      CloseKeeps(Abandon(s, live.value, {id}, Declined, now), e, DeclinedProposal);
    } else if WasRequeuedFrom(s, matchId, id, now) {
      DeclineLate(s, matchId, id, now);
    }
  }

  /** Rewriting one memory leaves the pool sound. */
  lemma ForgiveKeeps(s: PoolState, matchId: nat, record: Requeue)
    requires Inv(s) && matchId in s.requeued
    ensures Inv(s.(requeued := s.requeued[matchId := record]))
    ensures Account(s.(requeued := s.requeued[matchId := record])) == Account(s)
    ensures Places(s.(requeued := s.requeued[matchId := record])) == Places(s)
  {
    var s1 := s.(requeued := s.requeued[matchId := record]);
    assert Places(s1) == Places(s);
    assert RequeuesOk(s1.requeued, s1.pending, s1.nextMatchId);
    assert s1.trace == s.trace + [];
    HistoryGrows(s, s1, []);
  }

  lemma DeclineLate(s: PoolState, matchId: nat, id: string, now: int)
    requires Inv(s) && LivePending(s, matchId, id, now).None? && WasRequeuedFrom(s, matchId, id, now)
    ensures Inv(Decline(s, matchId, id, now).0)
    ensures Account(Decline(s, matchId, id, now).0) == Account(s)
  {
    var record := s.requeued[matchId];
    var s1 := s.(requeued := s.requeued[matchId := record.(ids := record.ids - {id})]);
    ForgiveKeeps(s, matchId, record.(ids := record.ids - {id}));
    var queued, held := FindById(s.waiting, id), PendingOfId(s.pending, id);
    if queued.Some? || held.Some? {
      var p := if queued.Some? then queued.value else FindById(held.value.game.participants, id).value;
      assert p in Places(s) by {
        if queued.Some? {
          WaitingHasPlace(s, p);
        } else {
          PendingHasPlace(s, held.value, p);
        }
      }
      hide History, Places, ExitedFrom, BookOk, RequeuesOk;
      WithdrawAndClose(s1, id, p, now);
    }
  }

  lemma WithdrawAndClose(s: PoolState, id: string, p: Participant, now: int)
    requires Inv(s) && p in Places(s) && p.id == id
    ensures var after := Close(Withdraw(s, id, Declined, Declined, now).0, p, DeclinedProposal);
            Inv(after) && Account(after) == Account(s)
  {
    var s2 := Withdraw(s, id, Declined, Declined, now).0;
    WithdrawKeeps(s, id, Declined, Declined, now);
    OthersElsewhere(s, s2, p);
    hide *;
    CloseKeeps(s2, p, DeclinedProposal);
  }

  lemma OthersElsewhere(s: PoolState, after: PoolState, p: Participant)
    requires Unique(Places(s)) && p in Places(s)
    requires forall q :: q in Places(after) ==> q in Places(s) && q.id != p.id
    ensures forall q :: q in Places(after) ==> q.channel != p.channel
  {
    forall q | q in Places(after) ensures q.channel != p.channel {
      assert q in Places(s) && q != p;
    }
  }
}
