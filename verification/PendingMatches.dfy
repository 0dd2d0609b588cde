/** The matches proposed and not yet answered by all, oldest proposal first. */
module PendingMatchBook {
  import opened Options
  import opened Participants
  import opened PoolModel

  class PendingMatches {
    var byMatchId: seq<PendingMatch>

    constructor ()
      ensures byMatchId == []
    {
      byMatchId := [];
    }

    method Add(game: Match, deadline: int)
      modifies this
      ensures byMatchId == PutMatch(old(byMatchId), Hold(game, deadline))
    {
      var accepted := {};
      for i := 0 to |game.participants|
        invariant accepted == set p | p in game.participants[..i] && !p.supportsAcceptStep :: p.id
      {
        var p := game.participants[i];
        assert game.participants[..i + 1] == game.participants[..i] + [p];
        assert forall q :: q in game.participants[..i + 1] <==> q in game.participants[..i] || q == p;
        if !p.supportsAcceptStep {
          accepted := accepted + {p.id};
        }
      }
      assert game.participants[..|game.participants|] == game.participants;
      byMatchId := PutMatch(byMatchId, PendingMatch(game, deadline, accepted));
    }

    method Get(matchId: nat) returns (r: Option<PendingMatch>)
      ensures r == PendingById(byMatchId, matchId)
    {
      for i := 0 to |byMatchId|
        invariant PendingById(byMatchId, matchId) == PendingById(byMatchId[i..], matchId)
      {
        assert byMatchId[i..][1..] == byMatchId[i + 1..];
        if byMatchId[i].game.id == matchId {
          return Some(byMatchId[i]);
        }
      }
      r := None;
    }

    method Delete(matchId: nat)
      modifies this
      ensures byMatchId == WithoutMatch(old(byMatchId), matchId)
    {
      byMatchId := WithoutMatch(byMatchId, matchId);
    }

    /** An entry's accepted set grows in place. */
    method RecordAccept(matchId: nat, id: string)
      modifies this
      ensures byMatchId == Record(old(byMatchId), matchId, id)
    {
      byMatchId := Record(byMatchId, matchId, id);
    }

    method FindByParticipantId(id: string) returns (r: Option<(PendingMatch, Participant)>)
      ensures r.Some? <==> PendingOfId(byMatchId, id).Some?
      ensures r.Some? ==> PendingOfId(byMatchId, id) == Some(r.value.0)
                          && FindById(r.value.0.game.participants, id) == Some(r.value.1)
    {
      for i := 0 to |byMatchId|
        invariant PendingOfId(byMatchId, id) == PendingOfId(byMatchId[i..], id)
      {
        assert byMatchId[i..][1..] == byMatchId[i + 1..];
        var found := FindById(byMatchId[i].game.participants, id);
        if found.Some? {
          return Some((byMatchId[i], found.value));
        }
      }
      r := None;
    }

    method FindByUserId(userId: string) returns (r: Option<(PendingMatch, Participant)>)
      ensures r.Some? <==> PendingOfUser(byMatchId, userId).Some?
      ensures r.Some? ==> PendingOfUser(byMatchId, userId) == Some(r.value.0)
                          && FindByUser(r.value.0.game.participants, userId) == Some(r.value.1)
    {
      for i := 0 to |byMatchId|
        invariant PendingOfUser(byMatchId, userId) == PendingOfUser(byMatchId[i..], userId)
      {
        assert byMatchId[i..][1..] == byMatchId[i + 1..];
        var found := FindByUser(byMatchId[i].game.participants, userId);
        if found.Some? {
          return Some((byMatchId[i], found.value));
        }
      }
      r := None;
    }
  }
}
