/**
  The HTTP facade over the pool: poll records and the users that own them, kept beside the pool and
  reconciled with it after every tick of its own. Socket clients share the pool and bypass the records.
 */
module FacadeModel {
  import opened Options
  import opened QueueEntry
  import opened Participants
  import opened Pairing
  import opened PoolModel
  import opened PoolEffects

  /** `channel` names the poll channel bound to this record; FOUND on it changes the record itself. */
  datatype Record = Record(
    ticketId: string,
    userId: string,
    format: Format,
    displayName: Option<string>,
    botFallbackAfterMs: Option<int>,
    enteredAt: int,
    lastPollAt: int,
    channel: nat,
    roomId: Option<nat>)
  {
    predicate Searching() { roomId.None? }
  }

  datatype FacadeState = FacadeState(pool: PoolState, records: seq<Record>, users: map<string, string>)

  /**
    What a call finds outside: the clock, closed sockets, whether a bot can play, whom the match handler
    tells and whom it puts back, and the room it opens for each match.
   */
  datatype World = World(
    now: int,
    closedSockets: set<nat>,
    botAvailable: bool,
    told: set<string>,
    back: set<string>,
    roomOf: nat -> nat)

  const EMPTY_FACADE := FacadeState(EMPTY_POOL, [], map[])

  // ---- records ------------------------------------------------------------------------------

  function FindRecord(records: seq<Record>, ticketId: string): (r: Option<Record>)
    ensures r.Some? ==> r.value in records && r.value.ticketId == ticketId
    ensures r.None? ==> forall q :: q in records ==> q.ticketId != ticketId
  {
    if records == [] then None
    else if records[0].ticketId == ticketId then Some(records[0])
    else FindRecord(records[1..], ticketId)
  }

  function WithoutTicket(records: seq<Record>, ticketId: string): (r: seq<Record>)
    ensures forall q :: q in r <==> q in records && q.ticketId != ticketId
  {
    if records == [] then []
    else (if records[0].ticketId == ticketId then [] else [records[0]]) + WithoutTicket(records[1..], ticketId)
  }

  /** The room of the last match a channel was told of. */
  function LastRoom(events: seq<Event>, channel: nat, roomOf: nat -> nat): Option<nat> {
    if events == [] then None
    else
      var last := events[|events| - 1];
      if last.FoundSent? && last.p.channel == channel then Some(roomOf(last.matchId))
      else LastRoom(events[..|events| - 1], channel, roomOf)
  }

  /** FOUND marks the record bound to its channel as matched. */
  function Mark(r: Record, events: seq<Event>, roomOf: nat -> nat): Record {
    var room := LastRoom(events, r.channel, roomOf);
    if room.Some? then r.(roomId := room) else r
  }

  function MarkAll(records: seq<Record>, events: seq<Event>, roomOf: nat -> nat): (marked: seq<Record>)
    ensures |marked| == |records|
    ensures forall i :: 0 <= i < |records| ==> marked[i] == Mark(records[i], events, roomOf)
  {
    seq(|records|, i requires 0 <= i < |records| => Mark(records[i], events, roomOf))
  }

  /** A poll channel is alive while its record was polled recently. */
  function Lapsed(records: seq<Record>, now: int): set<nat> {
    set r | r in records && now - r.lastPollAt > QUEUE_TTL_MS :: r.channel
  }

  function PollChannels(records: seq<Record>): set<nat> {
    set r | r in records :: r.channel
  }

  function Outside(f: FacadeState, w: World): Surroundings {
    Surroundings(w.now, (w.closedSockets - PollChannels(f.records)) + Lapsed(f.records, w.now),
                 [Fifo, BotFallback(w.botAvailable)], w.told, w.back)
  }

  /** The pool moved on; what it told the poll channels shows in the records. */
  function Follow(f: FacadeState, pool: PoolState, w: World): FacadeState {
    f.(pool := pool, records := MarkAll(f.records, News(f.pool, pool), w.roomOf))
  }

  // ---- the calls ------------------------------------------------------------------------------

  datatype Entry = Entry(
    ticketId: string,
    userId: string,
    format: Format,
    displayName: Option<string>,
    botFallbackAfterMs: Option<int>,
    channel: nat)

  function NewRecord(e: Entry, now: int): Record {
    Record(e.ticketId, e.userId, e.format, e.displayName, e.botFallbackAfterMs, now, now, e.channel, None)
  }

  function NewParticipant(e: Entry, now: int): Participant {
    Participant(e.ticketId, e.userId, e.format, Ranked, e.displayName, now, e.botFallbackAfterMs, false, Poll, e.channel)
  }

  datatype EnqueueResult = Enqueued | DuplicateUser

  function Enter(f: FacadeState, e: Entry, w: World): (FacadeState, EnqueueResult) {
    if e.userId in f.users then (f, DuplicateUser)
    else
      var (pool, r) := Add(f.pool, NewParticipant(e, w.now), w.now);
      if r.DuplicateEntry? then (f, DuplicateUser)
      else
        var f1 := Follow(f, pool, w);
        (f1.(records := f1.records + [NewRecord(e, w.now)], users := f.users[e.userId := e.ticketId]), Enqueued)
  }

  function FacadeTick(f: FacadeState, w: World): FacadeState {
    Reconcile(Follow(f, Tick(f.pool, Outside(f, w)), w), w.now)
  }

  function Enqueue(f: FacadeState, e: Entry, w: World): (FacadeState, EnqueueResult) {
    var (f1, r) := Enter(f, e, w);
    if r.DuplicateUser? then (f1, r) else (FacadeTick(f1, w), r)
  }

  datatype PollResult = SearchingFor(waitedMs: int) | MatchedIn(roomId: nat) | UnknownTicket

  function Refresh(records: seq<Record>, ticketId: string, now: int): (refreshed: seq<Record>)
    ensures |refreshed| == |records|
    ensures forall i :: 0 <= i < |records| ==>
              refreshed[i] == if records[i].ticketId == ticketId then records[i].(lastPollAt := now) else records[i]
  {
    seq(|records|, i requires 0 <= i < |records| =>
      if records[i].ticketId == ticketId then records[i].(lastPollAt := now) else records[i])
  }

  function PollTicket(f: FacadeState, ticketId: string, now: int): (FacadeState, PollResult) {
    var r := FindRecord(f.records, ticketId);
    if r.None? then (f, UnknownTicket)
    else (f.(records := Refresh(f.records, ticketId, now)),
          if r.value.Searching() then SearchingFor(now - r.value.enteredAt) else MatchedIn(r.value.roomId.value))
  }

  function RemoveRecord(f: FacadeState, r: Record): FacadeState {
    f.(records := WithoutTicket(f.records, r.ticketId), users := f.users - {r.userId})
  }

  function Cancel(f: FacadeState, ticketId: string, w: World): (FacadeState, bool) {
    var r := FindRecord(f.records, ticketId);
    if r.None? then (f, false)
    else (RemoveRecord(Follow(f, Remove(f.pool, ticketId, w.now), w), r.value), true)
  }

  function Abort(f: FacadeState, todo: seq<Record>, roomId: nat, w: World): FacadeState
    decreases |todo|
  {
    if todo == [] then f
    else if todo[0].roomId != Some(roomId) then Abort(f, todo[1..], roomId, w)
    else Abort(RemoveRecord(Follow(f, Remove(f.pool, todo[0].ticketId, w.now), w), todo[0]), todo[1..], roomId, w)
  }

  function AbortRoom(f: FacadeState, roomId: nat, w: World): FacadeState {
    Abort(f, f.records, roomId, w)
  }

  predicate Stays(f: FacadeState, r: Record, now: int) {
    if r.Searching() then IsQueued(f.pool, r.ticketId) else now - r.lastPollAt <= MATCHED_GRACE_MS
  }

  function Reconciled(f: FacadeState, todo: seq<Record>, now: int): FacadeState
    decreases |todo|
  {
    if todo == [] then f
    else Reconciled(if Stays(f, todo[0], now) then f else RemoveRecord(f, todo[0]), todo[1..], now)
  }

  function Reconcile(f: FacadeState, now: int): FacadeState {
    Reconciled(f, f.records, now)
  }

  /** What socket clients do to the shared pool. */
  datatype SocketCall =
    | EnterSocket(p: Participant)
    | LeaveSocket(id: string)
    | AcceptMatch(matchId: nat, id: string)
    | DeclineMatch(matchId: nat, id: string)
    | PoolTick

  function OnPool(s: PoolState, call: SocketCall, env: Surroundings): PoolState {
    match call
    case EnterSocket(p) => Add(s, p, env.now).0
    case LeaveSocket(id) => Dequeue(s, id, env.now).0
    case AcceptMatch(matchId, id) => Accept(s, matchId, id, env).0
    case DeclineMatch(matchId, id) => Decline(s, matchId, id, env.now).0
    case PoolTick => Tick(s, env)
  }

  function SocketOp(f: FacadeState, call: SocketCall, w: World): FacadeState {
    Follow(f, OnPool(f.pool, call, Outside(f, w)), w)
  }
}
