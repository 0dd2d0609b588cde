/**
  What the pool's trace must look like: nothing is said to a closed connection, and a match that
  needs answers reaches the handler once, after every answer it needs came in time.
 */
module PoolTrace {
  import opened Options
  import opened QueueEntry
  import opened Participants
  import opened Pairing
  import opened PoolModel
  import opened PoolBooks

  predicate Speaks(e: Event) {
    e.StatusSent? || e.ProposalSent? || e.FoundSent?
  }

  ghost predicate ClosedChannel(trace: seq<Event>, channel: nat) {
    exists i :: 0 <= i < |trace| && trace[i].Closed? && trace[i].p.channel == channel
  }

  /** No connection is told anything after it was closed. */
  ghost predicate Quiet(trace: seq<Event>) {
    forall i, j :: 0 <= i < j < |trace| && trace[i].Closed? && Speaks(trace[j]) ==> trace[i].p.channel != trace[j].p.channel
  }

  /** Everyone the pool holds can still be told things. */
  ghost predicate Reachable(s: PoolState) {
    forall p :: p in Places(s) ==> !ClosedChannel(s.trace, p.channel)
  }

  ghost predicate WasProposed(trace: seq<Event>, game: Match, at: int) {
    exists i :: 0 <= i < |trace| && trace[i] == Proposed(game, at)
  }

  /** The participant's ACCEPT came after the proposal and strictly before its deadline. */
  ghost predicate Answered(trace: seq<Event>, game: Match, at: int, id: string) {
    exists i :: 0 <= i < |trace|
             && trace[i].AcceptRecorded? && trace[i].matchId == game.id && trace[i].participantId == id
             && trace[i].at < at + MATCH_ACCEPT_TIMEOUT_MS
             && WasProposed(trace[..i], game, at)
  }

  ghost predicate Agreed(trace: seq<Event>, game: Match) {
    exists at :: WasProposed(trace, game, at)
              && forall p :: p in game.participants && p.supportsAcceptStep ==> Answered(trace, game, at, p.id)
  }

  /** A human match with anybody who opted in was agreed on before it was handed over. */
  ghost predicate AcceptSafe(trace: seq<Event>) {
    forall k :: 0 <= k < |trace| && trace[k].Handled? && trace[k].game.opponentKind.Human?
                && (exists p :: p in trace[k].game.participants && p.supportsAcceptStep)
                ==> Agreed(trace[..k], trace[k].game)
  }

  ghost predicate HandledOnce(trace: seq<Event>) {
    forall i, j :: 0 <= i < j < |trace| && trace[i].Handled? && trace[j].Handled? ==> trace[i].game.id != trace[j].game.id
  }

  ghost predicate WasHandled(trace: seq<Event>, matchId: nat) {
    exists i :: 0 <= i < |trace| && trace[i].Handled? && trace[i].game.id == matchId
  }

  /** Everything the pending book counts as accepted is in the trace. */
  ghost predicate Backed(trace: seq<Event>, pm: PendingMatch) {
    var at := pm.deadline - MATCH_ACCEPT_TIMEOUT_MS;
    && WasProposed(trace, pm.game, at)
    && !WasHandled(trace, pm.game.id)
    && (forall p :: p in pm.game.participants && p.supportsAcceptStep && p.id in pm.accepted
                    ==> Answered(trace, pm.game, at, p.id))
  }

  ghost predicate Numbered(s: PoolState) {
    forall k :: 0 <= k < |s.trace| && s.trace[k].Handled? ==> s.trace[k].game.id < s.nextMatchId
  }

  ghost predicate History(s: PoolState) {
    && Quiet(s.trace)
    && Reachable(s)
    && AcceptSafe(s.trace)
    && HandledOnce(s.trace)
    && Numbered(s)
    && forall pm :: pm in s.pending ==> Backed(s.trace, pm)
  }

  // ---- longer traces ------------------------------------------------------------------------

  lemma ProposedLater(trace: seq<Event>, more: seq<Event>, game: Match, at: int)
    requires WasProposed(trace, game, at)
    ensures WasProposed(trace + more, game, at)
  {
    var i :| 0 <= i < |trace| && trace[i] == Proposed(game, at);
    assert (trace + more)[i] == Proposed(game, at);
  }

  lemma AnsweredLater(trace: seq<Event>, more: seq<Event>, game: Match, at: int, id: string)
    requires Answered(trace, game, at, id)
    ensures Answered(trace + more, game, at, id)
  {
    var i :| 0 <= i < |trace|
          && trace[i].AcceptRecorded? && trace[i].matchId == game.id && trace[i].participantId == id
          && trace[i].at < at + MATCH_ACCEPT_TIMEOUT_MS
          && WasProposed(trace[..i], game, at);
    assert (trace + more)[i] == trace[i] && (trace + more)[..i] == trace[..i];
  }

  lemma NotHandledLater(trace: seq<Event>, more: seq<Event>, matchId: nat)
    requires !WasHandled(trace, matchId) && forall e :: e in more && e.Handled? ==> e.game.id != matchId
    ensures !WasHandled(trace + more, matchId)
  {
    forall i | 0 <= i < |trace + more| && (trace + more)[i].Handled? ensures (trace + more)[i].game.id != matchId {
      if i >= |trace| {
        assert (trace + more)[i] in more;
      }
    }
  }

  lemma BackedLater(trace: seq<Event>, more: seq<Event>, pm: PendingMatch)
    requires Backed(trace, pm) && forall e :: e in more && e.Handled? ==> e.game.id != pm.game.id
    ensures Backed(trace + more, pm)
  {
    var at := pm.deadline - MATCH_ACCEPT_TIMEOUT_MS;
    ProposedLater(trace, more, pm.game, at);
    NotHandledLater(trace, more, pm.game.id);
    forall p | p in pm.game.participants && p.supportsAcceptStep && p.id in pm.accepted
      ensures Answered(trace + more, pm.game, at, p.id)
    {
      AnsweredLater(trace, more, pm.game, at, p.id);
    }
  }

  lemma ClosedSplit(trace: seq<Event>, more: seq<Event>, channel: nat)
    ensures ClosedChannel(trace + more, channel) <==> ClosedChannel(trace, channel) || ClosedChannel(more, channel)
  {
    if ClosedChannel(trace + more, channel) {
      var i :| 0 <= i < |trace + more| && (trace + more)[i].Closed? && (trace + more)[i].p.channel == channel;
      if i >= |trace| {
        assert more[i - |trace|].Closed? && more[i - |trace|].p.channel == channel;
      } else {
        assert trace[i].Closed? && trace[i].p.channel == channel;
      }
    }
    if ClosedChannel(trace, channel) {
      var i :| 0 <= i < |trace| && trace[i].Closed? && trace[i].p.channel == channel;
      assert (trace + more)[i].Closed?;
    }
    if ClosedChannel(more, channel) {
      var i :| 0 <= i < |more| && more[i].Closed? && more[i].p.channel == channel;
      assert (trace + more)[|trace| + i].Closed?;
    }
  }

  /** Speaking only to open connections keeps the trace quiet. */
  lemma QuietLater(trace: seq<Event>, more: seq<Event>)
    requires Quiet(trace)
    requires forall e :: e in more ==> !e.Closed?
    requires forall e :: e in more && Speaks(e) ==> !ClosedChannel(trace, e.p.channel)
    ensures Quiet(trace + more)
  {
    var all := trace + more;
    assert forall k :: |trace| <= k < |all| ==> all[k] in more;
    forall i, j | 0 <= i < j < |all| && all[i].Closed? && Speaks(all[j]) ensures all[i].p.channel != all[j].p.channel {
    }
  }

  lemma QuietAfterClosing(trace: seq<Event>, more: seq<Event>)
    requires Quiet(trace) && forall e :: e in more ==> e.Closed?
    ensures Quiet(trace + more)
  {
    var all := trace + more;
    assert forall k :: |trace| <= k < |all| ==> all[k] in more;
    forall j | 0 <= j < |all| && Speaks(all[j]) ensures j < |trace| {
    }
  }

  /** Entries that hand nothing over leave every hand-over as it was. */
  lemma HandOversLater(trace: seq<Event>, more: seq<Event>)
    requires AcceptSafe(trace) && HandledOnce(trace) && forall e :: e in more ==> !e.Handled?
    ensures AcceptSafe(trace + more) && HandledOnce(trace + more)
  {
    var all := trace + more;
    assert forall k :: |trace| <= k < |all| ==> all[k] in more;
    forall k | 0 <= k < |all| && all[k].Handled? ensures k < |trace| && all[k] == trace[k] && all[..k] == trace[..k] {
    }
  }

  lemma NumberedLater(s: PoolState, after: PoolState, more: seq<Event>)
    requires Numbered(s) && after.trace == s.trace + more && s.nextMatchId <= after.nextMatchId
    requires forall e :: e in more && e.Handled? ==> e.game.id < after.nextMatchId
    ensures Numbered(after)
  {
    forall k | 0 <= k < |after.trace| && after.trace[k].Handled? ensures after.trace[k].game.id < after.nextMatchId {
      if k >= |s.trace| {
        assert after.trace[k] in more;
      }
    }
  }

  // ---- steps of the history ----------------------------------------------------------------------

  /** Entries that neither close nor hand over, said to connections that are open. */
  ghost predicate Harmless(trace: seq<Event>, more: seq<Event>) {
    && (forall e :: e in more ==> !e.Closed? && !e.Handled?)
    && (forall e :: e in more && Speaks(e) ==> !ClosedChannel(trace, e.p.channel))
  }

  lemma HarmlessCloses(trace: seq<Event>, more: seq<Event>, channel: nat)
    requires forall e :: e in more ==> !e.Closed?
    ensures ClosedChannel(trace + more, channel) <==> ClosedChannel(trace, channel)
  {
    ClosedSplit(trace, more, channel);
    forall i | 0 <= i < |more| ensures !more[i].Closed? {
      assert more[i] in more;
    }
  }

  lemma HistoryGrows(s: PoolState, after: PoolState, more: seq<Event>)
    requires History(s) && Harmless(s.trace, more)
    requires after.trace == s.trace + more && s.nextMatchId <= after.nextMatchId
    requires forall p :: p in Places(after) ==> !ClosedChannel(s.trace, p.channel)
    requires forall pm :: pm in after.pending ==> pm in s.pending
    ensures History(after)
  {
    QuietLater(s.trace, more);
    HandOversLater(s.trace, more);
    NumberedLater(s, after, more);
    forall p | p in Places(after) ensures !ClosedChannel(after.trace, p.channel) {
      HarmlessCloses(s.trace, more, p.channel);
    }
    forall pm | pm in after.pending ensures Backed(after.trace, pm) {
      BackedLater(s.trace, more, pm);
    }
  }

  /** Closing connections of participants the pool no longer holds. */
  lemma HistoryCloses(s: PoolState, gone: seq<Event>)
    requires History(s) && forall e :: e in gone ==> e.Closed?
    requires forall e, p :: e in gone && p in Places(s) ==> e.p.channel != p.channel
    ensures History(s.(trace := s.trace + gone))
  {
    var after := s.(trace := s.trace + gone);
    QuietAfterClosing(s.trace, gone);
    HandOversLater(s.trace, gone);
    NumberedLater(s, after, gone);
    forall p | p in Places(after) ensures !ClosedChannel(after.trace, p.channel) {
      ClosedSplit(s.trace, gone, p.channel);
      forall i | 0 <= i < |gone| ensures gone[i].p.channel != p.channel {
        assert gone[i] in gone && p in Places(s);
      }
    }
    forall pm | pm in after.pending ensures Backed(after.trace, pm) {
      BackedLater(s.trace, gone, pm);
    }
  }

  /** Handing over a match nobody saw before, after the answers it needs. */
  lemma HistoryHandsOver(s: PoolState, game: Match, back: seq<Participant>)
    requires History(s) && game.id < s.nextMatchId && !WasHandled(s.trace, game.id)
    requires forall pm :: pm in s.pending ==> pm.game.id != game.id
    requires RequiresAcceptStep(game) ==> Agreed(s.trace, game)
    ensures History(s.(trace := s.trace + [Handled(game, back)]))
  {
    var after := s.(trace := s.trace + [Handled(game, back)]);
    QuietLater(s.trace, [Handled(game, back)]);
    NumberedLater(s, after, [Handled(game, back)]);
    forall p | p in Places(after) ensures !ClosedChannel(after.trace, p.channel) {
      HarmlessCloses(s.trace, [Handled(game, back)], p.channel);
    }
    forall pm | pm in after.pending ensures Backed(after.trace, pm) {
      BackedLater(s.trace, [Handled(game, back)], pm);
    }
    HandOverOnce(s.trace, game, back);
    HandOverSafe(s.trace, game, back);
  }

  lemma HandOverOnce(trace: seq<Event>, game: Match, back: seq<Participant>)
    requires HandledOnce(trace) && !WasHandled(trace, game.id)
    ensures HandledOnce(trace + [Handled(game, back)])
  {
  }

  lemma HandOverSafe(trace: seq<Event>, game: Match, back: seq<Participant>)
    requires AcceptSafe(trace) && (RequiresAcceptStep(game) ==> Agreed(trace, game))
    ensures AcceptSafe(trace + [Handled(game, back)])
  {
    var all := trace + [Handled(game, back)];
    forall k | 0 <= k < |all| && all[k].Handled? && all[k].game.opponentKind.Human?
               && (exists p :: p in all[k].game.participants && p.supportsAcceptStep)
      ensures Agreed(all[..k], all[k].game)
    {
      if k < |trace| {
        assert all[..k] == trace[..k];
      } else {
        assert all[..k] == trace;
      }
    }
  }

  // ---- proposals and answers ------------------------------------------------------------------------

  lemma HoldIsBacked(trace: seq<Event>, game: Match, at: int, more: seq<Event>)
    requires Unique(multiset(game.participants)) && !WasHandled(trace, game.id)
    requires forall e :: e in more ==> !e.Handled?
    ensures Backed(trace + [Proposed(game, at)] + more, Hold(game, at + MATCH_ACCEPT_TIMEOUT_MS))
  {
    var pm := Hold(game, at + MATCH_ACCEPT_TIMEOUT_MS);
    assert (trace + [Proposed(game, at)])[|trace|] == Proposed(game, at);
    ProposedLater(trace + [Proposed(game, at)], more, game, at);
    NotHandledLater(trace, [Proposed(game, at)], game.id);
    NotHandledLater(trace + [Proposed(game, at)], more, game.id);
    forall p | p in game.participants && p.supportsAcceptStep ensures p.id !in pm.accepted {
      if p.id in pm.accepted {
        var q :| q in game.participants && !q.supportsAcceptStep && q.id == p.id;
        SameIdSame(game.participants, p, q);
      }
    }
  }

  lemma HoldAwaits(game: Match, deadline: int)
    requires Unique(multiset(game.participants)) && RequiresAcceptStep(game)
    ensures Awaiting(Hold(game, deadline))
  {
    var p :| p in game.participants && p.supportsAcceptStep;
    var pm := Hold(game, deadline);
    if p.id in pm.accepted {
      var q :| q in game.participants && !q.supportsAcceptStep && q.id == p.id;
      SameIdSame(game.participants, p, q);
    }
  }

  /** An ACCEPT recorded in time backs the book entry it updates. */
  lemma AnswerIsBacked(trace: seq<Event>, pm: PendingMatch, id: string, now: int)
    requires Backed(trace, pm) && now < pm.deadline
    ensures Backed(trace + [AcceptRecorded(pm.game.id, id, now)], pm.(accepted := pm.accepted + {id}))
  {
    var entry := AcceptRecorded(pm.game.id, id, now);
    var all := trace + [entry];
    var at := pm.deadline - MATCH_ACCEPT_TIMEOUT_MS;
    BackedLater(trace, [entry], pm);
    assert all[|trace|] == entry && all[..|trace|] == trace;
    assert Answered(all, pm.game, at, id);
  }

  lemma BackedAgrees(trace: seq<Event>, pm: PendingMatch)
    requires Backed(trace, pm) && FullyAccepted(pm)
    ensures Agreed(trace, pm.game)
  {
    var at := pm.deadline - MATCH_ACCEPT_TIMEOUT_MS;
    assert WasProposed(trace, pm.game, at);
  }
}
