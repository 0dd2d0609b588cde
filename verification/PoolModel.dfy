/**
  What every operation of the matchmaking pool does, as functions on the pool's value: who waits,
  which matches await their answers, which abandoned matches are remembered, and the trace of
  everything the pool told a connection, the match handler or the log.
 */
module PoolModel {
  import opened Options
  import opened QueueEntry
  import opened Participants
  import opened Pairing

  datatype Outcome =
    | MatchedHuman | MatchedBot | Cancelled | Dequeued | Expired | Replaced | Declined | AcceptTimeout

  datatype CloseReason = ReplacedByNewConnection | DeclinedProposal | AcceptTimedOut

  datatype Event =
    | Exited(p: Participant, outcome: Outcome, waitedMs: int)
    | StatusSent(p: Participant, waitedMs: int)
    | ProposalSent(p: Participant, matchId: nat)
    | FoundSent(p: Participant, matchId: nat)
    | Closed(p: Participant, reason: CloseReason)
    | Proposed(game: Match, at: int)
    | AcceptRecorded(matchId: nat, participantId: string, at: int)
    | Handled(game: Match, back: seq<Participant>)

  /** A proposed match, the time its proposal ends, and the ids that need not answer any more. */
  datatype PendingMatch = PendingMatch(game: Match, deadline: int, accepted: set<string>)

  /** The ids that an abandoned match stored again, and the deadline it had. */
  datatype Requeue = Requeue(ids: set<string>, until: int)

  datatype PoolState = PoolState(
    waiting: seq<Participant>,
    pending: seq<PendingMatch>,
    requeued: map<nat, Requeue>,
    nextMatchId: nat,
    trace: seq<Event>)

  /**
    What one call finds outside the pool: the clock, the connections that are gone, the pairing
    policies in force, and what the match handler does with participants it is given: whom it
    notifies of their match and whom it puts back in the pool.
   */
  datatype Surroundings = Surroundings(
    now: int,
    dead: set<nat>,
    policies: seq<Policy>,
    told: set<string>,
    back: set<string>)

  const EMPTY_POOL := PoolState([], [], map[], 0, [])

  // ---- the trace ----------------------------------------------------------------------

  function Exits(ps: seq<Participant>, outcome: Outcome, now: int): seq<Event> {
    seq(|ps|, i requires 0 <= i < |ps| => Exited(ps[i], outcome, now - ps[i].enqueuedAt))
  }

  function Statuses(ps: seq<Participant>, now: int): seq<Event> {
    seq(|ps|, i requires 0 <= i < |ps| => StatusSent(ps[i], now - ps[i].enqueuedAt))
  }

  function Closes(ps: seq<Participant>, reason: CloseReason): seq<Event> {
    seq(|ps|, i requires 0 <= i < |ps| => Closed(ps[i], reason))
  }

  function Founds(ps: seq<Participant>, matchId: nat): seq<Event> {
    seq(|ps|, i requires 0 <= i < |ps| => FoundSent(ps[i], matchId))
  }

  function OptedIn(ps: seq<Participant>): seq<Participant> {
    if ps == [] then [] else (if ps[0].supportsAcceptStep then [ps[0]] else []) + OptedIn(ps[1..])
  }

  function Proposals(ps: seq<Participant>, matchId: nat): seq<Event> {
    var asked := OptedIn(ps);
    seq(|asked|, i requires 0 <= i < |asked| => ProposalSent(asked[i], matchId))
  }

  // ---- the pending book ------------------------------------------------------------------

  function PendingById(book: seq<PendingMatch>, matchId: nat): (r: Option<PendingMatch>)
    ensures r.Some? ==> r.value in book && r.value.game.id == matchId
    ensures r.None? ==> forall pm :: pm in book ==> pm.game.id != matchId
  {
    if book == [] then None else if book[0].game.id == matchId then Some(book[0]) else PendingById(book[1..], matchId)
  }

  function PendingOfId(book: seq<PendingMatch>, id: string): (r: Option<PendingMatch>)
    ensures r.Some? ==> r.value in book && FindById(r.value.game.participants, id).Some?
    ensures r.None? ==> forall pm :: pm in book ==> FindById(pm.game.participants, id).None?
  {
    if book == [] then None
    else if FindById(book[0].game.participants, id).Some? then Some(book[0])
    else PendingOfId(book[1..], id)
  }

  function PendingOfUser(book: seq<PendingMatch>, userId: string): (r: Option<PendingMatch>)
    ensures r.Some? ==> r.value in book && FindByUser(r.value.game.participants, userId).Some?
    ensures r.None? ==> forall pm :: pm in book ==> FindByUser(pm.game.participants, userId).None?
  {
    if book == [] then None
    else if FindByUser(book[0].game.participants, userId).Some? then Some(book[0])
    else PendingOfUser(book[1..], userId)
  }

  function WithoutMatch(book: seq<PendingMatch>, matchId: nat): seq<PendingMatch> {
    if book == [] then []
    else (if book[0].game.id == matchId then [] else [book[0]]) + WithoutMatch(book[1..], matchId)
  }

  /** A map keeps one entry per match id: setting an id it already has replaces that entry in place. */
  function PutMatch(book: seq<PendingMatch>, pm: PendingMatch): (r: seq<PendingMatch>)
    ensures (forall q :: q in book ==> q.game.id != pm.game.id) ==> r == book + [pm]
  {
    if book == [] then [pm]
    else if book[0].game.id == pm.game.id then [pm] + book[1..]
    else [book[0]] + PutMatch(book[1..], pm)
  }

  function Record(book: seq<PendingMatch>, matchId: nat, id: string): seq<PendingMatch> {
    seq(|book|, i requires 0 <= i < |book| =>
      if book[i].game.id == matchId then book[i].(accepted := book[i].accepted + {id}) else book[i])
  }

  /** Whoever does not support the accept step has nothing left to answer. */
  function Hold(game: Match, deadline: int): PendingMatch {
    PendingMatch(game, deadline, set p | p in game.participants && !p.supportsAcceptStep :: p.id)
  }

  predicate FullyAccepted(pm: PendingMatch) {
    forall p :: p in pm.game.participants ==> p.id in pm.accepted
  }

  // ---- leaving and coming back --------------------------------------------------------------

  function Leave(s: PoolState, ps: seq<Participant>, outcome: Outcome, now: int): PoolState {
    s.(waiting := Drop(s.waiting, Ids(ps)), trace := s.trace + Exits(ps, outcome, now))
  }

  /**
    Dropping a pending match: those leaving exit, everyone else waits again, unchanged, and is told so.
    `leaving` names participants of the match by id.
   */
  function Abandon(s: PoolState, pm: PendingMatch, leaving: set<string>, outcome: Outcome, now: int): PoolState {
    var gone := Keep(pm.game.participants, leaving);
    var stay := Drop(pm.game.participants, leaving);
    s.(waiting := s.waiting + stay,
       pending := WithoutMatch(s.pending, pm.game.id),
       requeued := if stay == [] then s.requeued else s.requeued[pm.game.id := Requeue(Ids(stay), pm.deadline)],
       trace := s.trace + Exits(gone, outcome, now) + Statuses(stay, now))
  }

  function Close(s: PoolState, p: Participant, reason: CloseReason): PoolState {
    s.(trace := s.trace + [Closed(p, reason)])
  }

  // ---- the calls -------------------------------------------------------------------------------

  datatype AddResult = Stored(replaced: bool) | DuplicateEntry

  function Add(s: PoolState, p: Participant, now: int): (PoolState, AddResult) {
    var queued := FindByUser(s.waiting, p.userId);
    var held := PendingOfUser(s.pending, p.userId);
    if queued.None? && held.None? then
      (s.(waiting := s.waiting + [p]), Stored(false))
    else if p.presence.Poll? then
      (s, DuplicateEntry)
    else
      var (s1, existing) :=
        if queued.Some? then (Leave(s, [queued.value], Replaced, now), queued.value)
        else
          var e := FindByUser(held.value.game.participants, p.userId).value;
          (Abandon(s, held.value, {e.id}, Replaced, now), e);
      var s2 := Close(s1, existing, ReplacedByNewConnection);
      (s2.(waiting := s2.waiting + [p]), Stored(true))
  }

  /** Leaves the store or, failing that, the pending match it is in. */
  function Withdraw(s: PoolState, id: string, fromStore: Outcome, fromPending: Outcome, now: int): (PoolState, bool) {
    var queued := FindById(s.waiting, id);
    var held := PendingOfId(s.pending, id);
    if queued.Some? then (Leave(s, [queued.value], fromStore, now), true)
    else if held.Some? then (Abandon(s, held.value, {id}, fromPending, now), true)
    else (s, false)
  }

  function Remove(s: PoolState, id: string, now: int): PoolState {
    Withdraw(s, id, Cancelled, Cancelled, now).0
  }

  function Dequeue(s: PoolState, id: string, now: int): (PoolState, bool) {
    Withdraw(s, id, Dequeued, Declined, now)
  }

  predicate IsQueued(s: PoolState, id: string) {
    FindById(s.waiting, id).Some? || PendingOfId(s.pending, id).Some?
  }

  datatype Response = AcceptedResponse | DeclinedResponse | RequeuedResponse | UnknownMatch

  function LivePending(s: PoolState, matchId: nat, id: string, now: int): Option<PendingMatch> {
    var pm := PendingById(s.pending, matchId);
    if pm.Some? && now < pm.value.deadline && FindById(pm.value.game.participants, id).Some? then pm else None
  }

  predicate WasRequeuedFrom(s: PoolState, matchId: nat, id: string, now: int) {
    matchId in s.requeued && now < s.requeued[matchId].until && id in s.requeued[matchId].ids
  }

  function Handle(s: PoolState, game: Match, env: Surroundings): PoolState {
    var back := Keep(game.participants, env.back);
    s.(waiting := s.waiting + back,
       trace := s.trace + [Handled(game, back)] + Founds(Keep(game.participants, env.told), game.id))
  }

  function Accept(s: PoolState, matchId: nat, id: string, env: Surroundings): (PoolState, Response) {
    var live := LivePending(s, matchId, id, env.now);
    if live.None? then
      (s, if WasRequeuedFrom(s, matchId, id, env.now) then RequeuedResponse else UnknownMatch)
    else
      var game := live.value.game;
      var told := s.trace + [AcceptRecorded(matchId, id, env.now)];
      if FullyAccepted(live.value.(accepted := live.value.accepted + {id})) then
        var s1 := s.(pending := WithoutMatch(s.pending, matchId),
                     trace := told + Exits(game.participants, MatchedHuman, env.now));
        (Handle(s1, game, env), AcceptedResponse)
      else
        (s.(pending := Record(s.pending, matchId, id), trace := told), AcceptedResponse)
  }

  function Decline(s: PoolState, matchId: nat, id: string, now: int): (PoolState, Response) {
    var live := LivePending(s, matchId, id, now);
    if live.Some? then
      var decliner := FindById(live.value.game.participants, id).value;
      (Close(Abandon(s, live.value, {id}, Declined, now), decliner, DeclinedProposal), DeclinedResponse)
    else if !WasRequeuedFrom(s, matchId, id, now) then
      (s, UnknownMatch)
    else
      var record := s.requeued[matchId];
      var s1 := s.(requeued := s.requeued[matchId := record.(ids := record.ids - {id})]);
      var queued, held := FindById(s.waiting, id), PendingOfId(s.pending, id);
      if queued.None? && held.None? then (s1, UnknownMatch)
      else
        var p := if queued.Some? then queued.value else FindById(held.value.game.participants, id).value;
        (Close(Withdraw(s1, id, Declined, Declined, now).0, p, DeclinedProposal), DeclinedResponse)
  }

  // ---- the tick ---------------------------------------------------------------------------------

  function DeadIds(ps: seq<Participant>, dead: set<nat>): set<string> {
    set p | p in ps && p.channel in dead :: p.id
  }

  function Sweep(s: PoolState, env: Surroundings): PoolState {
    Leave(s, Keep(ByKey(s.waiting), DeadIds(s.waiting, env.dead)), Expired, env.now)
  }

  function ResolveOne(s: PoolState, pm: PendingMatch, env: Surroundings): PoolState {
    var gone := DeadIds(pm.game.participants, env.dead);
    if gone != {} then Abandon(s, pm, gone, Expired, env.now)
    else if env.now < pm.deadline then s
    else
      var late := Drop(pm.game.participants, pm.accepted);
      var s1 := Abandon(s, pm, Ids(late), AcceptTimeout, env.now);
      s1.(trace := s1.trace + Closes(late, AcceptTimedOut))
  }

  function Resolve(s: PoolState, todo: seq<PendingMatch>, env: Surroundings): PoolState
    decreases |todo|
  {
    if todo == [] then s else Resolve(ResolveOne(s, todo[0], env), todo[1..], env)
  }

  function Forget(s: PoolState, now: int): PoolState {
    s.(requeued := map id | id in s.requeued && now < s.requeued[id].until :: s.requeued[id])
  }

  function Propose(s: PoolState, game: Match, now: int): PoolState {
    s.(waiting := Drop(s.waiting, Ids(game.participants)),
       pending := s.pending + [Hold(game, now + MATCH_ACCEPT_TIMEOUT_MS)],
       trace := s.trace + [Proposed(game, now)] + Proposals(game.participants, game.id))
  }

  /** Takes the participants of a match that needs no answer out of the pool and hands it over. */
  function Seat(s: PoolState, game: Match, env: Surroundings): PoolState {
    var outcome := if game.opponentKind.Bot? then MatchedBot else MatchedHuman;
    Handle(Leave(s, game.participants, outcome, env.now), game, env)
  }

  function Start(s: PoolState, game: Match, env: Surroundings): PoolState {
    if RequiresAcceptStep(game) then Propose(s, game, env.now) else Seat(s, game, env)
  }

  function StartAll(s: PoolState, games: seq<Match>, env: Surroundings): PoolState
    decreases |games|
  {
    if games == [] then s else StartAll(Start(s, games[0], env), games[1..], env)
  }

  function PairKey(s: PoolState, key: PoolKey, env: Surroundings): PoolState {
    var games := Composite(env.policies, Listed(s.waiting, key), env.now, s.nextMatchId);
    StartAll(s.(nextMatchId := s.nextMatchId + |games|), games, env)
  }

  function PairAll(s: PoolState, env: Surroundings): PoolState {
    PairKey(PairKey(PairKey(s, POOL_KEYS[0], env), POOL_KEYS[1], env), POOL_KEYS[2], env)
  }

  function Publish(s: PoolState, env: Surroundings): PoolState {
    s.(trace := s.trace + Statuses(ByKey(s.waiting), env.now))
  }

  function Tick(s: PoolState, env: Surroundings): PoolState {
    var s1 := Sweep(s, env);
    var s2 := Forget(Resolve(s1, s1.pending, env), env.now);
    Publish(PairAll(s2, env), env)
  }

  /** Players in the store per format; those in a pending match are not counted. */
  function Depth(s: PoolState, format: Format): nat {
    |Listed(s.waiting, PoolKey(format, Ranked))|
  }
}
