/**
  The pool's books: every participant has one place, and nobody is lost or doubled. Each operation
  moves participants between the store, the pending book and the exits; the sum never changes
  except by arrivals.
 */
module PoolBooks {
  import opened Options
  import opened QueueEntry
  import opened Participants
  import opened Pairing
  import opened PoolModel

  function InPending(book: seq<PendingMatch>): seq<Participant> {
    if book == [] then [] else book[0].game.participants + InPending(book[1..])
  }

  /** All the places: those waiting and those of the pending matches, counted. */
  ghost function Places(s: PoolState): multiset<Participant> {
    multiset(s.waiting) + multiset(InPending(s.pending))
  }

  /** Everyone the log has let out. */
  function ExitedFrom(trace: seq<Event>): multiset<Participant> {
    if trace == [] then multiset{}
    else (if trace[0].Exited? then multiset{trace[0].p} else multiset{}) + ExitedFrom(trace[1..])
  }

  /** Everyone a match handler put back instead of seating. */
  function HandedBack(trace: seq<Event>): multiset<Participant> {
    if trace == [] then multiset{}
    else (if trace[0].Handled? then multiset(trace[0].back) else multiset{}) + HandedBack(trace[1..])
  }

  /** `seen`: those held and those let out; `handedBack`: those who came in again through a handler. */
  datatype Ledger = Ledger(seen: multiset<Participant>, handedBack: multiset<Participant>)
  {
    function Enter(ps: multiset<Participant>): Ledger { this.(seen := seen + ps) }
    function HandBack(ps: multiset<Participant>): Ledger { Ledger(seen + ps, handedBack + ps) }
  }

  ghost function Account(s: PoolState): Ledger {
    Ledger(Places(s) + ExitedFrom(s.trace), HandedBack(s.trace))
  }

  /** From one account to the next, everyone new is an arrival or was handed back; nobody is lost. */
  ghost predicate Settles(a: Ledger, b: Ledger, arrived: multiset<Participant>) {
    b.seen + a.handedBack == a.seen + arrived + b.handedBack
  }

  ghost predicate DistinctGames(book: seq<PendingMatch>) {
    forall i, j :: 0 <= i < j < |book| ==> book[i].game.id != book[j].game.id
  }

  /** Somebody still has to answer, and everyone who was never asked counts as accepted. */
  ghost predicate Awaiting(pm: PendingMatch) {
    && pm.game.opponentKind.Human?
    && !FullyAccepted(pm)
    && (forall p :: p in pm.game.participants && !p.supportsAcceptStep ==> p.id in pm.accepted)
  }

  ghost predicate BookOk(book: seq<PendingMatch>, nextMatchId: nat) {
    && DistinctGames(book)
    && (forall pm :: pm in book ==> pm.game.id < nextMatchId && Awaiting(pm))
  }

  ghost predicate RequeuesOk(requeued: map<nat, Requeue>, book: seq<PendingMatch>, nextMatchId: nat) {
    forall id :: id in requeued ==> id < nextMatchId && forall pm :: pm in book ==> pm.game.id != id
  }

  ghost predicate Books(s: PoolState) {
    && Unique(Places(s))
    && BookOk(s.pending, s.nextMatchId)
    && RequeuesOk(s.requeued, s.pending, s.nextMatchId)
  }

  // ---- counting exits ---------------------------------------------------------------------

  lemma {:induction false} ExitedAppend(a: seq<Event>, b: seq<Event>)
    ensures ExitedFrom(a + b) == ExitedFrom(a) + ExitedFrom(b)
    ensures HandedBack(a + b) == HandedBack(a) + HandedBack(b)
  {
    if a == [] {
      assert a + b == b;
    } else {
      assert (a + b)[0] == a[0] && (a + b)[1..] == a[1..] + b;
      ExitedAppend(a[1..], b);
    }
  }

  lemma {:induction false} ExitsCount(ps: seq<Participant>, outcome: Outcome, now: int)
    ensures ExitedFrom(Exits(ps, outcome, now)) == multiset(ps)
    ensures HandedBack(Exits(ps, outcome, now)) == multiset{}
  {
    if ps != [] {
      assert ps == [ps[0]] + ps[1..];
      assert Exits(ps, outcome, now)[1..] == Exits(ps[1..], outcome, now);
      ExitsCount(ps[1..], outcome, now);
    }
  }

  /** Entries that move nobody. */
  predicate Neutral(e: Event) {
    !e.Exited? && !e.Handled?
  }

  lemma {:induction false} NoExits(events: seq<Event>)
    requires forall e :: e in events ==> Neutral(e)
    ensures ExitedFrom(events) == multiset{} && HandedBack(events) == multiset{}
  {
    if events != [] {
      assert events[0] in events;
      assert forall e :: e in events[1..] ==> e in events;
      NoExits(events[1..]);
    }
  }

  lemma ExitsThen(trace: seq<Event>, ps: seq<Participant>, outcome: Outcome, now: int, rest: seq<Event>)
    requires forall e :: e in rest ==> Neutral(e)
    ensures ExitedFrom(trace + Exits(ps, outcome, now) + rest) == ExitedFrom(trace) + multiset(ps)
    ensures HandedBack(trace + Exits(ps, outcome, now) + rest) == HandedBack(trace)
  {
    ExitedAppend(trace + Exits(ps, outcome, now), rest);
    ExitedAppend(trace, Exits(ps, outcome, now));
    ExitsCount(ps, outcome, now);
    NoExits(rest);
  }

  lemma Silent(trace: seq<Event>, rest: seq<Event>)
    requires forall e :: e in rest ==> Neutral(e)
    ensures ExitedFrom(trace + rest) == ExitedFrom(trace)
    ensures HandedBack(trace + rest) == HandedBack(trace)
  {
    ExitedAppend(trace, rest);
    NoExits(rest);
  }

  // ---- the pending book ----------------------------------------------------------------------

  lemma {:induction false} WithoutMatchIn(book: seq<PendingMatch>, matchId: nat)
    ensures forall pm :: pm in WithoutMatch(book, matchId) <==> pm in book && pm.game.id != matchId
  {
    if book != [] {
      WithoutMatchIn(book[1..], matchId);
    }
  }

  lemma {:induction false} WithoutMatchAbsent(book: seq<PendingMatch>, matchId: nat)
    requires forall pm :: pm in book ==> pm.game.id != matchId
    ensures WithoutMatch(book, matchId) == book
  {
    if book != [] {
      assert book[0] in book;
      assert forall pm :: pm in book[1..] ==> pm in book;
      WithoutMatchAbsent(book[1..], matchId);
    }
  }

  lemma {:induction false} WithoutMatchDistinct(book: seq<PendingMatch>, matchId: nat)
    requires DistinctGames(book)
    ensures DistinctGames(WithoutMatch(book, matchId))
  {
    if book != [] {
      assert forall i, j :: 0 <= i < j < |book[1..]| ==> book[1..][i] == book[i + 1] && book[1..][j] == book[j + 1];
      WithoutMatchDistinct(book[1..], matchId);
      WithoutMatchIn(book[1..], matchId);
      var rest := WithoutMatch(book[1..], matchId);
      forall i | 0 <= i < |rest| ensures rest[i].game.id != book[0].game.id {
        assert rest[i] in rest;
        assert rest[i] in book[1..];
        var k :| 0 <= k < |book[1..]| && book[1..][k] == rest[i];
        assert book[k + 1] == rest[i];
      }
    }
  }

  /** Taking a match out of the book frees exactly its participants. */
  lemma {:induction false} TakeOut(book: seq<PendingMatch>, pm: PendingMatch)
    requires DistinctGames(book) && pm in book
    ensures multiset(InPending(book)) == multiset(pm.game.participants) + multiset(InPending(WithoutMatch(book, pm.game.id)))
  {
    var head, tail := book[0], book[1..];
    assert forall i, j :: 0 <= i < j < |tail| ==> tail[i] == book[i + 1] && tail[j] == book[j + 1];
    if head == pm {
      forall q | q in tail ensures q.game.id != pm.game.id {
        var k :| 0 <= k < |tail| && tail[k] == q;
        assert book[k + 1] == q;
      }
      WithoutMatchAbsent(tail, pm.game.id);
      assert WithoutMatch(book, pm.game.id) == tail;
    } else {
      var k :| 0 <= k < |book| && book[k] == pm;
      assert tail[k - 1] == pm;
      TakeOut(tail, pm);
      InPendingCons(head, WithoutMatch(tail, pm.game.id));
    }
  }

  lemma InPendingCons(head: PendingMatch, tail: seq<PendingMatch>)
    ensures InPending([head] + tail) == head.game.participants + InPending(tail)
  {
    assert ([head] + tail)[1..] == tail;
  }

  lemma {:induction false} InPendingAppend(book: seq<PendingMatch>, pm: PendingMatch)
    ensures InPending(book + [pm]) == InPending(book) + pm.game.participants
  {
    if book == [] {
      assert book + [pm] == [pm];
      assert [pm][1..] == [];
    } else {
      assert (book + [pm])[1..] == book[1..] + [pm];
      InPendingAppend(book[1..], pm);
    }
  }

  lemma {:induction false} RecordKeepsPlaces(book: seq<PendingMatch>, matchId: nat, id: string)
    ensures InPending(Record(book, matchId, id)) == InPending(book)
  {
    if book != [] {
      assert Record(book, matchId, id)[1..] == Record(book[1..], matchId, id);
      RecordKeepsPlaces(book[1..], matchId, id);
    }
  }

  lemma {:induction false} InPendingIn(book: seq<PendingMatch>)
    ensures forall pm, p :: pm in book && p in pm.game.participants ==> p in InPending(book)
  {
    if book != [] {
      InPendingIn(book[1..]);
      forall pm, p | pm in book && p in pm.game.participants ensures p in InPending(book) {
        if pm != book[0] {
          assert pm in book[1..];
        }
      }
    }
  }

  lemma RestOfBook(s: PoolState, matchId: nat)
    requires BookOk(s.pending, s.nextMatchId)
    ensures BookOk(WithoutMatch(s.pending, matchId), s.nextMatchId)
    ensures forall pm :: pm in WithoutMatch(s.pending, matchId) <==> pm in s.pending && pm.game.id != matchId
  {
    WithoutMatchIn(s.pending, matchId);
    WithoutMatchDistinct(s.pending, matchId);
  }

  // ---- each movement balances -------------------------------------------------------------------

  /** Leaving the store turns a place into an exit. */
  lemma LeaveBalances(s: PoolState, ps: seq<Participant>, outcome: Outcome, now: int)
    requires Books(s) && multiset(ps) <= multiset(s.waiting)
    ensures Books(Leave(s, ps, outcome, now))
    ensures Account(Leave(s, ps, outcome, now)) == Account(s)
    ensures Places(Leave(s, ps, outcome, now)) == Places(s) - multiset(ps)
  {
    var after := Leave(s, ps, outcome, now);
    LeavePlaces(s, ps, outcome, now);
    LeaveExits(s, ps, outcome, now);
    Balance(Places(s), Places(after), multiset(ps), ExitedFrom(s.trace), ExitedFrom(after.trace));
    SubUnique(Places(after), Places(s));
    hide Unique, BookOk, RequeuesOk, Places, ExitedFrom, HandedBack, Drop, Ids, Exits;
  }

  lemma Balance(was: multiset<Participant>, places: multiset<Participant>, gone: multiset<Participant>,
                wasOut: multiset<Participant>, out: multiset<Participant>)
    requires places + gone == was && out == wasOut + gone
    ensures places + out == was + wasOut
    ensures places == was - gone && places <= was
  {
  }

  lemma LeavePlaces(s: PoolState, ps: seq<Participant>, outcome: Outcome, now: int)
    requires Unique(Places(s)) && multiset(ps) <= multiset(s.waiting)
    ensures Places(Leave(s, ps, outcome, now)) + multiset(ps) == Places(s)
  {
    SubUnique(multiset(s.waiting), Places(s));
    KeepSelects(s.waiting, ps);
    hide Unique, Drop, Keep, InPending;
    TakeFromPart(multiset(s.waiting), multiset(ps), multiset(InPending(s.pending)));
  }

  lemma TakeFromPart(a: multiset<Participant>, part: multiset<Participant>, b: multiset<Participant>)
    requires part <= a
    ensures (a - part) + b + part == a + b
  {
  }

  lemma LeaveExits(s: PoolState, ps: seq<Participant>, outcome: Outcome, now: int)
    ensures ExitedFrom(Leave(s, ps, outcome, now).trace) == ExitedFrom(s.trace) + multiset(ps)
    ensures HandedBack(Leave(s, ps, outcome, now).trace) == HandedBack(s.trace)
  {
    ExitedAppend(s.trace, Exits(ps, outcome, now));
    ExitsCount(ps, outcome, now);
  }

  /** Abandoning a match turns the leavers' places into exits and moves the others back to the store. */
  lemma AbandonBalances(s: PoolState, pm: PendingMatch, leaving: set<string>, outcome: Outcome, now: int)
    requires Books(s) && pm in s.pending
    ensures Books(Abandon(s, pm, leaving, outcome, now))
    ensures Account(Abandon(s, pm, leaving, outcome, now)) == Account(s)
    ensures Places(Abandon(s, pm, leaving, outcome, now)) == Places(s) - multiset(Keep(pm.game.participants, leaving))
  {
    var after := Abandon(s, pm, leaving, outcome, now);
    AbandonPlaces(s, pm, leaving, outcome, now);
    AbandonExits(s, pm, leaving, outcome, now);
    AbandonBooks(s, pm, leaving, outcome, now);
    Balance(Places(s), Places(after), multiset(Keep(pm.game.participants, leaving)),
            ExitedFrom(s.trace), ExitedFrom(after.trace));
    SubUnique(Places(after), Places(s));
    hide Unique, BookOk, RequeuesOk, Places, ExitedFrom, HandedBack, Keep, Drop;
  }

  lemma AbandonPlaces(s: PoolState, pm: PendingMatch, leaving: set<string>, outcome: Outcome, now: int)
    requires DistinctGames(s.pending) && pm in s.pending
    ensures Places(Abandon(s, pm, leaving, outcome, now)) + multiset(Keep(pm.game.participants, leaving)) == Places(s)
  {
    TakeOut(s.pending, pm);
    KeepDropSplit(pm.game.participants, leaving);
  }

  lemma AbandonExits(s: PoolState, pm: PendingMatch, leaving: set<string>, outcome: Outcome, now: int)
    ensures ExitedFrom(Abandon(s, pm, leaving, outcome, now).trace)
            == ExitedFrom(s.trace) + multiset(Keep(pm.game.participants, leaving))
    ensures HandedBack(Abandon(s, pm, leaving, outcome, now).trace) == HandedBack(s.trace)
  {
    ExitsThen(s.trace, Keep(pm.game.participants, leaving), outcome, now,
              Statuses(Drop(pm.game.participants, leaving), now));
  }

  lemma AbandonBooks(s: PoolState, pm: PendingMatch, leaving: set<string>, outcome: Outcome, now: int)
    requires BookOk(s.pending, s.nextMatchId) && RequeuesOk(s.requeued, s.pending, s.nextMatchId) && pm in s.pending
    ensures BookOk(Abandon(s, pm, leaving, outcome, now).pending, s.nextMatchId)
    ensures RequeuesOk(Abandon(s, pm, leaving, outcome, now).requeued, Abandon(s, pm, leaving, outcome, now).pending, s.nextMatchId)
  {
    RestOfBook(s, pm.game.id);
  }

  /** An arrival the books have room for: nobody held shares its id, user or channel. */
  ghost predicate Newcomer(s: PoolState, p: Participant) {
    forall q :: q in Places(s) ==> Apart(p, q)
  }

  lemma StoreBalances(s: PoolState, p: Participant)
    requires Books(s) && Newcomer(s, p)
    ensures Books(s.(waiting := s.waiting + [p]))
    ensures Places(s.(waiting := s.waiting + [p])) == Places(s) + multiset{p}
  {
    var after := s.(waiting := s.waiting + [p]);
    assert Places(after) == Places(s) + multiset{p};
    OneMore(Places(s), p);
  }

  lemma OneMore(places: multiset<Participant>, p: Participant)
    requires Unique(places) && forall q :: q in places ==> Apart(p, q)
    ensures Unique(places + multiset{p})
  {
    var more := places + multiset{p};
    assert p !in places;
    forall q | q in more ensures more[q] == 1 {
      if q != p {
        assert q in places;
      }
    }
    forall q, r | q in more && r in more && q != r ensures Apart(q, r) {
      assert q == p || q in places;
      assert r == p || r in places;
    }
  }

  /** What a trace entry other than an exit does to the books: nothing. */
  lemma TellBalances(s: PoolState, events: seq<Event>)
    requires forall e :: e in events ==> Neutral(e)
    ensures Places(s.(trace := s.trace + events)) == Places(s)
    ensures Account(s.(trace := s.trace + events)) == Account(s)
    ensures Books(s) ==> Books(s.(trace := s.trace + events))
  {
    Silent(s.trace, events);
  }
}
