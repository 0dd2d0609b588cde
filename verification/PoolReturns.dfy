/**
  Participants on their way back into the pool, after their match was abandoned or handed back. They
  left every place they had, so adding them again stores them and nothing else.
 */
module PoolReturns {
  import opened Options
  import opened QueueEntry
  import opened Participants
  import opened Pairing
  import opened PoolModel
  import opened PoolBooks
  import opened PoolTrace
  import opened PoolInvariants

  /** Everyone in `rest` may be added one after the other. */
  ghost predicate CanReturn(s: PoolState, rest: seq<Participant>) {
    && Unique(Places(s) + multiset(rest))
    && (forall p :: p in rest ==> !ClosedChannel(s.trace, p.channel))
  }

  function Back(s: PoolState, p: Participant): PoolState {
    s.(waiting := s.waiting + [p])
  }

  function Told(s: PoolState, p: Participant, now: int): PoolState {
    s.(trace := s.trace + [StatusSent(p, now - p.enqueuedAt)])
  }

  lemma ReturnerIsNew(s: PoolState, rest: seq<Participant>)
    requires CanReturn(s, rest) && rest != []
    ensures Newcomer(s, rest[0]) && Arrival(s, rest[0]) && !AlreadyIn(s, rest[0].userId)
  {
    var p, all := rest[0], Places(s) + multiset(rest);
    assert p in rest;
    assert p in multiset(rest);
    forall q | q in Places(s) ensures Apart(p, q) {
      assert p in all && q in all;
      assert all[p] == Places(s)[p] + multiset(rest)[p];
    }
  }

  /** The nested `add` neither refuses nor replaces: it stores the returner. */
  lemma ReturnOne(s: PoolState, rest: seq<Participant>, now: int)
    requires Inv(s) && CanReturn(s, rest) && rest != []
    ensures Arrival(s, rest[0])
    ensures Add(s, rest[0], now) == (Back(s, rest[0]), Stored(false))
    ensures Inv(Back(s, rest[0])) && CanReturn(Back(s, rest[0]), rest[1..])
  {
    var p := rest[0];
    ReturnerIsNew(s, rest);
    AlreadyInFinds(s, p.userId);
    assert Add(s, p, now) == (Back(s, p), Stored(false));
    assert p in rest;
    assert Back(s, p) == s.(waiting := s.waiting + [p]);
    hide Inv, Unique, Places, Add, AlreadyIn, Newcomer, Arrival;
    StoreKeeps(s, p);
    StillReturning(Places(s), rest);
    assert Back(s, p).trace == s.trace;
    assert forall q :: q in rest[1..] ==> q in rest;
  }

  lemma StillReturning(places: multiset<Participant>, rest: seq<Participant>)
    requires rest != []
    ensures places + multiset{rest[0]} + multiset(rest[1..]) == places + multiset(rest)
  {
    assert rest == [rest[0]] + rest[1..];
  }

  /** Telling a returner it is searching again changes nothing about the others. */
  lemma TellOne(s: PoolState, p: Participant, rest: seq<Participant>, now: int)
    requires Inv(s) && CanReturn(s, rest) && p in s.waiting
    ensures Inv(Told(s, p, now)) && CanReturn(Told(s, p, now), rest)
  {
    var told := [StatusSent(p, now - p.enqueuedAt)];
    WaitingHasPlace(s, p);
    PlacesOpen(s, p);
    TellBalances(s, told);
    hide Books, Quiet, AcceptSafe, HandledOnce, Backed, Unique, Places, ClosedChannel;
    HistoryGrows(s, Told(s, p, now), told);
    forall q | q in rest ensures !ClosedChannel(s.trace + told, q.channel) {
      HarmlessCloses(s.trace, told, q.channel);
    }
  }

  // ---- coming back from an abandoned match -------------------------------------------------------

  /** The match is out of the book and its leavers are out of the pool; the others are not back yet. */
  function AbandonOpens(s: PoolState, pm: PendingMatch, leaving: set<string>, outcome: Outcome, now: int): PoolState {
    var stay := Drop(pm.game.participants, leaving);
    s.(pending := WithoutMatch(s.pending, pm.game.id),
       requeued := if stay == [] then s.requeued else s.requeued[pm.game.id := Requeue(Ids(stay), pm.deadline)],
       trace := s.trace + Exits(Keep(pm.game.participants, leaving), outcome, now))
  }

  lemma AbandonOpensKeeps(s: PoolState, pm: PendingMatch, leaving: set<string>, outcome: Outcome, now: int)
    requires Inv(s) && pm in s.pending
    ensures var s1 := AbandonOpens(s, pm, leaving, outcome, now);
            Inv(s1) && CanReturn(s1, Drop(pm.game.participants, leaving))
  {
    var s1 := AbandonOpens(s, pm, leaving, outcome, now);
    var exits := Exits(Keep(pm.game.participants, leaving), outcome, now);
    AbandonOpensBooks(s, pm, leaving, outcome, now);
    assert s1.trace == s.trace + exits && s1.pending == WithoutMatch(s.pending, pm.game.id);
    assert s1.nextMatchId == s.nextMatchId && Reachable(s);
    NotClosing(Keep(pm.game.participants, leaving), [], outcome, now);
    SilentExits(s.trace, Keep(pm.game.participants, leaving), outcome, now);
    OthersReachable(s, pm, leaving, exits);
    hide Books, History, Places, Unique, AbandonOpens, Reachable, ClosedChannel, Exits, Keep, Drop, WithoutMatch;
    WithoutMatchIn(s.pending, pm.game.id);
    PlacesStill(s, s1);
    HistoryGrows(s, s1, exits);
  }

  lemma PlacesStill(s: PoolState, s1: PoolState)
    requires Reachable(s) && Places(s1) <= Places(s)
    ensures forall p :: p in Places(s1) ==> !ClosedChannel(s.trace, p.channel)
  {
    forall p | p in Places(s1) ensures !ClosedChannel(s.trace, p.channel) {
      assert p in Places(s);
    }
  }

  lemma SilentExits(trace: seq<Event>, ps: seq<Participant>, outcome: Outcome, now: int)
    ensures Harmless(trace, Exits(ps, outcome, now))
  {
  }

  lemma OthersReachable(s: PoolState, pm: PendingMatch, leaving: set<string>, exits: seq<Event>)
    requires Reachable(s) && pm in s.pending && forall e :: e in exits ==> !e.Closed?
    ensures forall p :: p in Drop(pm.game.participants, leaving) ==> !ClosedChannel(s.trace + exits, p.channel)
  {
    DropIn(pm.game.participants, leaving);
    forall p | p in Drop(pm.game.participants, leaving) ensures !ClosedChannel(s.trace + exits, p.channel) {
      PendingHasPlace(s, pm, p);
      HarmlessCloses(s.trace, exits, p.channel);
    }
  }

  lemma AbandonOpensBooks(s: PoolState, pm: PendingMatch, leaving: set<string>, outcome: Outcome, now: int)
    requires Books(s) && pm in s.pending
    ensures var s1 := AbandonOpens(s, pm, leaving, outcome, now);
            && Books(s1) && Places(s1) <= Places(s)
            && Unique(Places(s1) + multiset(Drop(pm.game.participants, leaving)))
  {
    var s1 := AbandonOpens(s, pm, leaving, outcome, now);
    var stay := Drop(pm.game.participants, leaving);
    TakeOut(s.pending, pm);
    KeepDropSplit(pm.game.participants, leaving);
    RestOfBook(s, pm.game.id);
    assert Places(s1) + multiset(pm.game.participants) == Places(s);
    AbandonBooks(s, pm, leaving, outcome, now);
    hide Unique, Places, BookOk, InPending, Keep, Drop;
    PartOf(Places(s1), multiset(pm.game.participants), Places(s));
    SubUnique(Places(s1), Places(s));
    PartOfParts(Places(s1), multiset(stay), multiset(Keep(pm.game.participants, leaving)), Places(s));
    SubUnique(Places(s1) + multiset(stay), Places(s));
  }

  lemma PartOfParts(a: multiset<Participant>, b: multiset<Participant>, c: multiset<Participant>, whole: multiset<Participant>)
    requires a + (c + b) == whole
    ensures a + b <= whole
  {
    forall p ensures (a + b)[p] <= whole[p] {
      assert (a + (c + b))[p] == a[p] + c[p] + b[p];
    }
  }

  // ---- coming back from the match handler ----------------------------------------------------------

  /** The match is handed over and its participants notified; nobody is back yet. */
  function HandleOpens(s: PoolState, game: Match, env: Surroundings): PoolState {
    s.(trace := s.trace + [Handled(game, Keep(game.participants, env.back))]
                        + Founds(Keep(game.participants, env.told), game.id))
  }

  lemma HandleOpensKeeps(s: PoolState, game: Match, env: Surroundings)
    requires Inv(s) && Detached(s, game)
    requires game.id < s.nextMatchId && !WasHandled(s.trace, game.id)
    requires forall pm :: pm in s.pending ==> pm.game.id != game.id
    requires RequiresAcceptStep(game) ==> Agreed(s.trace, game)
    ensures Inv(HandleOpens(s, game, env)) && CanReturn(HandleOpens(s, game, env), Keep(game.participants, env.back))
  {
    var handled := [Handled(game, Keep(game.participants, env.back))];
    var founds := Founds(Keep(game.participants, env.told), game.id);
    var s1 := s.(trace := s.trace + handled);
    var s2 := HandleOpens(s, game, env);
    assert s2.trace == s1.trace + founds && Places(s2) == Places(s) && Places(s1) == Places(s);
    HistoryHandsOver(s, game, Keep(game.participants, env.back));
    FoundsReach(s, game, env);
    BackIsPart(s, game, env);
    hide Quiet, AcceptSafe, HandledOnce, Backed, Unique, Places, ClosedChannel, BookOk, RequeuesOk, Founds, Keep;
    HistoryGrows(s1, s2, founds);
  }

  lemma BackIsPart(s: PoolState, game: Match, env: Surroundings)
    requires Unique(Places(s) + multiset(game.participants))
    ensures Unique(Places(s) + multiset(Keep(game.participants, env.back)))
  {
    KeepDropSplit(game.participants, env.back);
    SubUnique(Places(s) + multiset(Keep(game.participants, env.back)), Places(s) + multiset(game.participants));
  }

  lemma FoundsReach(s: PoolState, game: Match, env: Surroundings)
    requires Reachable(s) && forall p :: p in game.participants ==> !ClosedChannel(s.trace, p.channel)
    ensures var handled := [Handled(game, Keep(game.participants, env.back))];
            var founds := Founds(Keep(game.participants, env.told), game.id);
            && Harmless(s.trace + handled, founds)
            && (forall p :: p in Places(s) ==> !ClosedChannel(s.trace + handled, p.channel))
            && (forall p :: p in Keep(game.participants, env.back) ==> !ClosedChannel(s.trace + handled + founds, p.channel))
  {
    var handled := [Handled(game, Keep(game.participants, env.back))];
    var founds := Founds(Keep(game.participants, env.told), game.id);
    KeepIn(game.participants, env.told);
    KeepIn(game.participants, env.back);
    forall p | p in Places(s) || p in game.participants
      ensures !ClosedChannel(s.trace + handled, p.channel) && !ClosedChannel(s.trace + handled + founds, p.channel)
    {
      HarmlessCloses(s.trace, handled, p.channel);
      HarmlessCloses(s.trace + handled, founds, p.channel);
    }
    hide ClosedChannel;
    forall e | e in founds ensures e.p in game.participants {
      assert e.p in Keep(game.participants, env.told);
    }
  }
}
