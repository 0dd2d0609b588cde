# Verified model of the Evolution duel server

The server pairs players, shuffles and stores cards, awards achievements, reassembles byte streams and
records duels. This project models the parts of it with the most state and arithmetic and proves what they
are for; `dafny verify dfyconfig.toml` checks all of it.

## What is modelled

**The matchmaking pool and its HTTP facade.** Players wait in a store with three indexes; each tick sweeps
dead connections, resolves pending matches, forgets old requeues, pairs, and publishes status. A human match
with an opted-in player is held until everyone accepted; an abandoned match puts the others back through the
same `add` that may itself abandon a match.

- `Participants`, `Pairing`, `PoolStore`, `PendingMatchBook`: participants, the pairing policies, the store
  with its indexes, the pending book.
- `PoolModel` says what each call does to the pool's value; the trace in it records everything said to a
  connection, the log or the match handler.
- `PoolBooks`, `PoolTrace`, `PoolInvariants`, `PoolReturns`, `PoolTicks`, `PoolEffects`: the books (who is
  where), the history (what may be said, what was agreed), and that every call keeps both.
- `PoolRuns`: what holds after every run of calls. `PoolReasons`, `PoolNotices`, `PoolMemories`: who leaves on
  each call and why, whom a tick asks and tells, and how long an abandoned match is remembered. `PoolHandOvers`:
  which matches a tick or an ACCEPT is about to hand over, computed before it. `PoolShapes`: what those matches
  are. `PoolTie`: a run in which two players arrive in one instant.
- `MatchmakingPools` (with `PoolLoops`): the pool as the program runs it, a class whose methods update store,
  book and memory in place, each proved to do what `PoolModel` says.
- `FacadeModel`, `FacadeInvariants`, `FacadeRuns`, `FacadeTicks`, `FacadeDisagreement`, `MatchmakingQueues`: the
  same for the HTTP facade, its records and its user map.

**The card storage** (`Bits`, `CardTable`, `CardStorages`): an open-addressing table in flat buffers, proved to
answer like a search for the first card with a code, and to end every probe.

**The seeded shuffle** (`SeededRng`, `SeededShuffle`): SplitMix64 lanes, the xoshiro256** step, rejection
sampling and an in-place Fisher-Yates whose choices and outcomes correspond one to one, each outcome reached by
equally many vectors of raw outputs.

**Smaller cores.** `Achievements` (a replayed history against the live awarder), `Framing` and `CoreMessages`
(two stream readers and their chunking laws), `Utf8` and `WireProtocol` (the matchmaking frames, client against
server), `RankGroups` (two computations of a list being current), `ReplayFormat`, `ReplayBuffers` and
`ReplayReader` (exact sizes and reading back), `Texts` and `ReplayResponses` (a response as text and back),
`ChannelModel` and `CoreChannels` (a write channel with backpressure), `DeckChecks` (two multiset checks).
`Options`, `QueueEntry` and `Sequences` are shared vocabulary.

## Modelling choices

- A connection is a number; what is sent on it is an event of the trace. The clock is read once per call, and
  which connections are alive is fixed for one call.
- The match handler is a port: for each call it is given whom it tells of a match and whom it puts back, in any
  combination. Match ids are numbers never used before, where the program draws random ones.
- An arrival is what the program relies on: its id belongs to one user, and its connection is neither held by
  somebody else in the pool nor closed.
- A draw of the shuffle is asked only where the generator gives an accepted output sometime, and nothing is asked
  about outputs that are not drawn; ending is not claimed beyond that.

## Where a promise does not hold as stated

Each of these is kept as the code has it, with the exact condition proved.

- The facade agrees with the pool after a tick if and only if no poll client of a match about to be handed over is
  both told by the handler and put back by it; the matches are computed from the pool before the tick
  (`FacadeInvariants.FacadeTickAgrees`). A handler that never does both keeps the two in agreement over every run
  (`FacadeRuns.CarefulHandlersAgree`). The wired handler, and the fallback used when none is injected, do both
  when the injected `spawnBot` throws: the client's ticket says matched while the pool still holds it
  (`FacadeDisagreement.ToldThenPutBack`). The wired `spawnBot` reports a failed spawn later instead of throwing.
- A comment in `QueueEntry.ts` says the grace window of a matched ticket runs from the match; the code runs it
  from the last poll, so a client that goes on polling keeps its ticket for good
  (`FacadeRuns.PollingKeepsTheTicket`).
- An abandoned match's opponent is first in line again only if it arrived strictly before everyone waiting for
  its key; at equal times it goes behind them (`PoolRuns.DeclinePutsOpponentFirst`, `PoolTie.OpponentGoesBehind`).
- The shuffle's comment claims that nothing of the seed gets lost. Each lane loses nothing, but the fallback for
  the all-zero state makes one pair of seeds shuffle alike (`SeededRng.SeedsCollide`).
- The card table's doubling loop ends if and only if there are at most 3*2^28 cards; beyond that the 32-bit shift
  reaches 0 and stays there (`CardTable.CapacityLoopEnds`).
- Reassembling client frames is independent of chunking if and only if no size of 0 or of 0x8000 and above is met
  with more bytes behind it, since readiness reads the size as signed and taking reads it as unsigned
  (`Framing.ChunkingLaw`).
- A replayed award for a ladder without a name carries the empty label, a live one none; the two results are equal
  if and only if the catalog lacks that award or no match was won under a list that feeds the ladder
  (`Achievements.ReplayEqualsLive`, `Achievements.NamelessWinDiffers`). This fails only for a resolver handed over
  directly: the configuration loader refuses empty alias targets and empty group names, and for what it loads the
  two are equal outright (`Achievements.LoadedReplayEqualsLive`).
- A core attached again while its drain is awaited is listened to twice and then written to while it asked to
  wait (`ChannelModel.AttachKeeps`, `ChannelModel.RushedRun`). This concerns direct callers of the channel: a room
  attaches newly spawned processes only, and then nothing is lost (`ChannelModel.NewProcessesLoseNothing`).
- A FOUND frame's match id is read back if and only if it has fewer than 256 bytes (`WireProtocol.FoundRecovered`).
  This too concerns direct callers: the pool's match ids are UUIDs of 36 bytes.

## Model

| member | source | states |
|---|---|---|
| `PoolRuns.OnePlacePerUser` | src/ygopro/matchmaking/domain/MatchmakingPool.ts:73-99 | After any run of add, remove, dequeue, accept, decline and tick calls, two places in the store or a pending match that share a user, an id or a connection are the same place, held once |
| `PoolRuns.Conservation` | src/ygopro/matchmaking/domain/MatchmakingPool.ts:320-371 | Over any run, everyone admitted or handed back by the match handler is, as a multiset, exactly those still held plus those logged as exited |
| `PoolRuns.AcceptSafety` | src/ygopro/matchmaking/domain/MatchmakingPool.ts:122-142 | Over any run, a match is handed over at most once; a human match with anybody who opted in only after a recorded proposal and every opted-in ACCEPT strictly before that deadline; whatever is pending is a human match that still lacks the answer of somebody who opted in, and was not handed over |
| `PoolRuns.SafeHistory` | src/ygopro/matchmaking/domain/MatchmakingPool.ts:41-47 | In every sound pool what awaits answers is human with somebody opted in who has not answered, so a bot match or one nobody opted into is never held; and no human match with anybody opted in was handed over without agreement |
| `PoolRuns.NothingAfterClose` | src/ygopro/matchmaking/domain/MatchmakingPool.ts:171-184 | Over any run, no status, proposal or FOUND goes to a connection after the pool closed it |
| `PoolRuns.TickPairsOff` | src/ygopro/matchmaking/domain/MatchmakingPool.ts:177-213 | With a handler that takes every match, a tick leaves each format and mode with at most one participant and, while a bot is up, nobody whose bot delay has passed |
| `PoolRuns.DeclinePutsOpponentFirst` | src/ygopro/matchmaking/domain/MatchmakingPool.ts:55-60 | A decline takes out the decliner alone, stores the opponent unchanged behind the others, and makes it first to be paired if and only if it arrived before everyone waiting for its key |
| `PoolTie.OpponentGoesBehind` | src/ygopro/matchmaking/domain/MatchmakingPool.ts:55-60 | Concrete failure, reached from the empty pool: a rival arrived in the same instant, and the opponent of a decline is listed behind it |
| `PoolReasons.StepTells` | src/ygopro/matchmaking/domain/MatchmakingPool.ts:28-37 | Each call logs an exit for exactly those who had a place and must leave, with the one outcome that fits and the time waited, and closes exactly the connections it must: the replaced, the decliner, the timed out |
| `PoolReasons.StepMoves` | src/ygopro/matchmaking/domain/MatchmakingPool.ts:320-371 | Whoever need not leave keeps a place; whoever must leave has none afterwards unless the handler put it back |
| `PoolReasons.StepBalances` | src/ygopro/matchmaking/domain/MatchmakingPool.ts:320-371 | For each call, places after plus exits are, as a multiset, places before plus the arrival stored plus those put back |
| `PoolReasons.TickTells` | src/ygopro/matchmaking/domain/MatchmakingPool.ts:177-262 | A tick lets out as expired exactly the dead, as timed out exactly those who had not accepted a match past its deadline whose players are all alive, and as matched exactly those it handed over |
| `PoolReasons.SweepSays` | src/ygopro/matchmaking/domain/MatchmakingPool.ts:186-192 | The sweep logs exactly the dead of the store as expired |
| `PoolReasons.ResolveOneSays` | src/ygopro/matchmaking/domain/MatchmakingPool.ts:243-261 | A pending match lets out its dead, or past its deadline those who had not accepted, and closes the latter only |
| `PoolReasons.PairAllSeats` | src/ygopro/matchmaking/domain/MatchmakingPool.ts:194-213 | Pairing logs an exit for exactly the participants of matches handed over, as human or bot, all of them alive, and closes nobody |
| `PoolReasons.AnswersMean` | src/ygopro/matchmaking/domain/MatchmakingPool.ts:107-120 | Being queued and being dequeued come down to having a place; a DECLINE is taken if and only if the match is pending or was requeued from and the participant has a place |
| `PoolReasons.AcceptMeans` | src/ygopro/matchmaking/domain/MatchmakingPool.ts:127-142 | An ACCEPT is taken if and only if its match is pending, in its window and contains the sender; when everyone else has answered the match is handed over and its entry gone, otherwise that answer alone is added; one that is not taken changes nothing |
| `PoolNotices.TickAsks` | src/ygopro/matchmaking/domain/MatchmakingPool.ts:215-230 | Every match a tick newly holds was proposed to everyone in it who opted in, for the whole accept window |
| `PoolNotices.TickPublishes` | src/ygopro/matchmaking/domain/MatchmakingPool.ts:373-380 | Everyone waiting after a tick was told during it how long it has waited |
| `PoolNotices.TickEndsWithStatuses` | src/ygopro/matchmaking/domain/MatchmakingPool.ts:177-184 | A tick ends by telling exactly those who then wait, each once |
| `PoolNotices.ReturnersAreTold` | src/ygopro/matchmaking/domain/MatchmakingPool.ts:320-346 | Whoever an arrival, a withdrawal, a dequeue or a decline puts back in the store is told by that call how long it has waited |
| `PoolMemories.AbandonRemembers` | src/ygopro/matchmaking/domain/MatchmakingPool.ts:334-341 | Exactly those put back by an abandoned match are remembered, exactly until its deadline |
| `PoolMemories.StepRemembers` | src/ygopro/matchmaking/domain/MatchmakingPool.ts:64-69 | No call makes the pool forget such a participant before that deadline, but its own DECLINE of that match |
| `PoolMemories.LateDeclineForgets` | src/ygopro/matchmaking/domain/MatchmakingPool.ts:275-289 | A DECLINE of a match that is no longer pending uses up the memory of its sender |
| `PoolShapes.TickAsksRightly` | src/ygopro/matchmaking/domain/MatchmakingPool.ts:215-230 | A tick sends a proposal only to those who opted in, and only for a match it proposes and they are in |
| `PoolShapes.TickStartsProper` | src/ygopro/matchmaking/domain/MatchmakingPool.ts:194-213 | Every match a tick hands over or newly holds is for the one format and mode all its participants asked for: two different users and rated, or one whose bot delay has passed and unrated |
| `PoolRuns.RunKeeps` | src/ygopro/matchmaking/domain/MatchmakingPool.ts:49-70 | Every run from a sound pool ends in a sound pool with everyone accounted for |
| `PoolRuns.StepKeeps` | src/ygopro/matchmaking/domain/MatchmakingPool.ts:81-184 | Each single call keeps the books, the history of the trace and the account, admitting exactly a stored arrival |
| `PoolRuns.PairKeyPairsOff` | src/ygopro/matchmaking/domain/MatchmakingPool.ts:195-212 | Pairing one key pairs it off and leaves every other key as paired off as it was |
| `PoolRuns.DepthsAddUp` | src/ygopro/matchmaking/domain/MatchmakingPool.ts:387-397 | The depths of the three formats add up to everyone waiting, and a depth is zero exactly when nobody waits for its format |
| `PoolEffects.TickEffect` | src/ygopro/matchmaking/domain/MatchmakingPool.ts:194-213 | Whoever a tick tells of a match had a place, and keeps one afterwards if and only if the handler put it back |
| `PoolEffects.AcceptEffect` | src/ygopro/matchmaking/domain/MatchmakingPool.ts:127-142 | The same for an ACCEPT that completes a match |
| `PoolReturns.ReturnOne` | src/ygopro/matchmaking/domain/MatchmakingPool.ts:342-345 | The add nested in abandon neither refuses nor replaces anyone: it stores the returner, and the remaining returners may still follow |
| `PoolReturns.AbandonOpensKeeps` | src/ygopro/matchmaking/domain/MatchmakingPool.ts:325-341 | Once the match is deleted and its leavers logged out, the pool is sound and every other participant may be added back |
| `PoolReturns.HandleOpensKeeps` | src/ygopro/matchmaking/application/MatchmakingQueue.ts:110-123 | While the handler runs, the pool is sound without the match, and everyone the handler puts back may be added |
| `PoolInvariants.AddKeeps` | src/ygopro/matchmaking/domain/MatchmakingPool.ts:73-99 | An arrival is refused exactly when it polls for a user who already has a place; otherwise it is stored, and reports a replacement exactly when the user had a place; the books then hold the arrival |
| `PoolInvariants.AlreadyInFinds` | src/ygopro/matchmaking/domain/MatchmakingPool.ts:82-84 | The two lookups of add find something if and only if the user has a place |
| `PoolInvariants.ReplacedIsApart` | src/ygopro/matchmaking/domain/MatchmakingPool.ts:85-96 | With the replaced place gone, the arrival shares nothing with anyone held, and nobody held uses the closed connection |
| `PoolInvariants.WithdrawKeeps` | src/ygopro/matchmaking/domain/MatchmakingPool.ts:101-113 | Remove and dequeue keep the pool sound, account for the leaver, and leave no place with that id |
| `PoolInvariants.AbandonKeeps` | src/ygopro/matchmaking/domain/MatchmakingPool.ts:320-346 | Abandoning a pending match turns exactly the leavers from held into exited and keeps everyone else held |
| `PoolInvariants.LeaveKeeps` | src/ygopro/matchmaking/domain/MatchmakingPool.ts:354-371 | Removing and logging participants of the store moves exactly those from held to exited |
| `PoolInvariants.CloseKeeps` | src/ygopro/matchmaking/domain/MatchmakingPool.ts:149-155 | Closing the connection of somebody no longer held keeps the history sound |
| `PoolInvariants.HandleKeeps` | src/ygopro/matchmaking/application/MatchmakingQueue.ts:110-123 | Handing over a match, whomever the handler tells or puts back, keeps the pool sound and accounts for those put back |
| `PoolInvariants.AcceptKeeps` | src/ygopro/matchmaking/domain/MatchmakingPool.ts:127-142 | ACCEPT keeps the pool sound and loses nobody, whether it is refused, recorded or completes the match |
| `PoolInvariants.DeclineKeeps` | src/ygopro/matchmaking/domain/MatchmakingPool.ts:144-156 | DECLINE keeps the pool sound and loses nobody, in time, after a requeue, or for an unknown match |
| `PoolInvariants.DeclineLate` | src/ygopro/matchmaking/domain/MatchmakingPool.ts:275-289 | A DECLINE after the opponent already left keeps the pool sound and loses nobody |
| `PoolBooks.AbandonBalances` | src/ygopro/matchmaking/domain/MatchmakingPool.ts:320-346 | The multiset books balance across an abandoned match |
| `PoolBooks.TakeOut` | src/ygopro/matchmaking/domain/PendingMatches.ts:35-37 | Deleting a match frees exactly its participants |
| `PoolTicks.TickKeeps` | src/ygopro/matchmaking/domain/MatchmakingPool.ts:171-184 | A tick keeps the pool sound, loses nobody, and leaves everyone held alive, every pending deadline ahead and every requeue memory in its window |
| `PoolTicks.SweepKeeps` | src/ygopro/matchmaking/domain/MatchmakingPool.ts:186-192 | After the sweep everyone waiting is alive, the pending book is untouched and the account balances |
| `PoolTicks.TimeoutRemovesSomebody` | src/ygopro/matchmaking/domain/MatchmakingPool.ts:252-260 | A pending match always has somebody who has not accepted, so a timeout always lets somebody out |
| `PoolTicks.ResolveOneKeeps` | src/ygopro/matchmaking/domain/MatchmakingPool.ts:243-261 | Resolving a pending match keeps it if and only if all of it is alive and its window open, and accounts for those it lets out |
| `PoolTicks.ResolveKeeps` | src/ygopro/matchmaking/domain/MatchmakingPool.ts:243-262 | Resolving the whole book leaves only matches that are alive and in their window |
| `PoolTicks.ForgetKeeps` | src/ygopro/matchmaking/domain/MatchmakingPool.ts:291-295 | Forgetting keeps exactly the requeue memories whose window is open, unchanged |
| `PoolTicks.ProposeKeeps` | src/ygopro/matchmaking/domain/MatchmakingPool.ts:215-230 | Proposing moves a match from the store to the pending book without letting anyone in or out |
| `PoolTicks.SeatKeeps` | src/ygopro/matchmaking/domain/MatchmakingPool.ts:204-210 | Taking out and handing over a match that needs no answer accounts for everyone in it |
| `PoolTicks.StartAllKeeps` | src/ygopro/matchmaking/domain/MatchmakingPool.ts:199-211 | Starting the matches of one key one after the other keeps the pool sound, alive and accounted for |
| `PoolTicks.RestStartable` | src/ygopro/matchmaking/domain/MatchmakingPool.ts:199-211 | Starting one match leaves the remaining matches of the key startable |
| `PoolTicks.ChosenStartable` | src/ygopro/matchmaking/domain/MatchmakingPool.ts:196-199 | What the policies return are matches with unused ids whose participants wait, each in one match |
| `PoolTicks.PairKeyKeeps` | src/ygopro/matchmaking/domain/MatchmakingPool.ts:195-212 | Pairing one key keeps the pool sound and accounted for |
| `PoolTicks.PublishKeeps` | src/ygopro/matchmaking/domain/MatchmakingPool.ts:373-380 | Publishing status keeps the pool sound, so it speaks to open connections only |
| `PoolTrace.HoldIsBacked` | src/ygopro/matchmaking/domain/MatchmakingPool.ts:215-230 | A new pending entry is backed by its proposal in the trace |
| `PoolTrace.HoldAwaits` | src/ygopro/matchmaking/domain/PendingMatches.ts:22-29 | A new pending entry counts those who did not opt in as accepted, and somebody still has to answer |
| `PoolTrace.AnswerIsBacked` | src/ygopro/matchmaking/domain/MatchmakingPool.ts:297-305 | An ACCEPT recorded before the deadline backs the entry it updates |
| `PoolTrace.BackedAgrees` | src/ygopro/matchmaking/domain/MatchmakingPool.ts:135-139 | A fully accepted entry means every opted-in participant answered in time |
| `QueueEntry.ClampBotFallbackDelay` | src/ygopro/matchmaking/domain/QueueEntry.ts:30-33 | The delay is the requested one inside the range and the nearer end outside it |
| `Pairing.SortIsStableSort` | src/ygopro/matchmaking/domain/FifoPairingPolicy.ts:13 | The line is a permutation of the candidates, ordered by arrival, and keeps the order of equal arrivals |
| `Pairing.PairUpPartitions` | src/ygopro/matchmaking/domain/FifoPairingPolicy.ts:16-28 | The pairs laid end to end, followed by the one left over, are the line |
| `Pairing.PairUpTakesInOrder` | src/ygopro/matchmaking/domain/FifoPairingPolicy.ts:16-28 | Pair k is made of places 2k and 2k+1 of the line |
| `Pairing.LeftOverIsLatest` | src/ygopro/matchmaking/domain/FifoPairingPolicy.ts:5-8 | At most one is left over, and arrived no earlier than anyone paired |
| `Pairing.PairUpShapes` | src/ygopro/matchmaking/domain/FifoPairingPolicy.ts:20-27 | A pair is a rated human match of two different users, ids and connections |
| `Pairing.BotMatchesTakeOverdue` | src/ygopro/matchmaking/domain/BotFallbackPolicy.ts:23-37 | Exactly the candidates past their clamped delay get an unrated match of their own |
| `Pairing.BotMatchesArePart` | src/ygopro/matchmaking/domain/BotFallbackPolicy.ts:23-37 | Nobody gets two bot matches |
| `Pairing.ChosenIsPart` | src/ygopro/matchmaking/domain/CompositePairingPolicy.ts:18-26 | Either policy uses each candidate it is fed at most once |
| `Pairing.CompositeIsDisjoint` | src/ygopro/matchmaking/domain/CompositePairingPolicy.ts:5-30 | Whatever the list of policies, no candidate is in two matches |
| `Pairing.CompositeShapes` | src/ygopro/matchmaking/domain/CompositePairingPolicy.ts:17-29 | Every composite match is a human pair of different users or a bot match of one overdue candidate |
| `Pairing.FifoThenBots` | src/ygopro/matchmaking/application/MatchmakingQueue.ts:189-192 | As wired, everyone but the latest of an odd crowd is paired first come first served, and only that one may get a bot |
| `Pairing.FifoPair` | src/ygopro/matchmaking/domain/FifoPairingPolicy.ts:12-31 | The loop stepping by two returns the pairs of the sorted line |
| `Pairing.BotPair` | src/ygopro/matchmaking/domain/BotFallbackPolicy.ts:18-40 | The loop returns one match per overdue candidate, and none while no bot is up |
| `Pairing.RunPolicy` | src/ygopro/matchmaking/domain/CompositePairingPolicy.ts:18 | One policy run on what it is fed |
| `Pairing.CompositePair` | src/ygopro/matchmaking/domain/CompositePairingPolicy.ts:13-30 | The loop feeds each policy the candidates the earlier ones left |
| `PoolStore.PutAgrees` | src/ygopro/matchmaking/infrastructure/InMemoryPoolStore.ts:18-26 | Adding keeps the three indexes in agreement if and only if the arrival fits them |
| `PoolStore.TakeAgrees` | src/ygopro/matchmaking/infrastructure/InMemoryPoolStore.ts:37-52 | Removing never breaks the agreement |
| `PoolStore.DepthIsListing` | src/ygopro/matchmaking/infrastructure/InMemoryPoolStore.ts:54-68 | Under agreement a key's depth is the number of participants listed for it, and those are all of them |
| `PoolStore.RepresentsFind` | src/ygopro/matchmaking/infrastructure/InMemoryPoolStore.ts:28-35 | Both lookups answer as a search of the waiting list would |
| `PoolStore.RepresentsListing` | src/ygopro/matchmaking/infrastructure/InMemoryPoolStore.ts:54-64 | A key's listing is the waiting list restricted to that key, in order |
| `PoolStore.RepresentsPut` | src/ygopro/matchmaking/infrastructure/InMemoryPoolStore.ts:18-26 | Adding somebody new appends it to the waiting list |
| `PoolStore.RepresentsTake` | src/ygopro/matchmaking/infrastructure/InMemoryPoolStore.ts:37-52 | Removing takes exactly that participant out of the waiting list |
| `PoolStore.RepresentsAgrees` | src/ygopro/matchmaking/infrastructure/InMemoryPoolStore.ts:9-12 | Indexes that represent a waiting list are in agreement |
| `PoolStore.InMemoryPoolStore.Add` | src/ygopro/matchmaking/infrastructure/InMemoryPoolStore.ts:18-26 | Writes the three indexes |
| `PoolStore.InMemoryPoolStore.Get` | src/ygopro/matchmaking/infrastructure/InMemoryPoolStore.ts:28-30 | Looks an id up |
| `PoolStore.InMemoryPoolStore.FindByUserId` | src/ygopro/matchmaking/infrastructure/InMemoryPoolStore.ts:32-35 | Looks a user up through both maps |
| `PoolStore.InMemoryPoolStore.Remove` | src/ygopro/matchmaking/infrastructure/InMemoryPoolStore.ts:37-52 | Reports whether the id was there and takes it out of the three indexes, the user index only while it names that id |
| `PoolStore.InMemoryPoolStore.All` | src/ygopro/matchmaking/infrastructure/InMemoryPoolStore.ts:54-64 | Lists a key in insertion order, skipping ids the first index lost |
| `PoolStore.InMemoryPoolStore.Depth` | src/ygopro/matchmaking/infrastructure/InMemoryPoolStore.ts:66-68 | Counts the ids of a key |
| `PoolModel.PendingById` | src/ygopro/matchmaking/domain/PendingMatches.ts:31-33 | Finds the entry of a match id, or there is none |
| `PoolModel.PendingOfId` | src/ygopro/matchmaking/domain/PendingMatches.ts:43-45 | Finds an entry with that participant, or no entry has it |
| `PoolModel.PendingOfUser` | src/ygopro/matchmaking/domain/PendingMatches.ts:47-49 | Finds an entry with that user, or no entry has it |
| `PendingMatchBook.PendingMatches.Add` | src/ygopro/matchmaking/domain/PendingMatches.ts:22-29 | Adds the entry of a match, accepted by those who did not opt in |
| `PendingMatchBook.PendingMatches.Get` | src/ygopro/matchmaking/domain/PendingMatches.ts:31-33 | Answers as a search by match id |
| `PendingMatchBook.PendingMatches.Delete` | src/ygopro/matchmaking/domain/PendingMatches.ts:35-37 | Removes the entry of a match id and no other |
| `PendingMatchBook.PendingMatches.FindByParticipantId` | src/ygopro/matchmaking/domain/PendingMatches.ts:43-59 | Finds entry and participant by id |
| `PendingMatchBook.PendingMatches.FindByUserId` | src/ygopro/matchmaking/domain/PendingMatches.ts:47-59 | Finds entry and participant by user |
| `PendingMatchBook.PendingMatches.RecordAccept` | src/ygopro/matchmaking/domain/MatchmakingPool.ts:132 | Adds one id to the accepted set of one entry |
| `MatchmakingPools.MatchmakingPool.Add` | src/ygopro/matchmaking/domain/MatchmakingPool.ts:81-99 | Does what the specification of add says, including the replacement of a queued or pending place |
| `MatchmakingPools.MatchmakingPool.ReplaceHeld` | src/ygopro/matchmaking/domain/MatchmakingPool.ts:89-94 | Abandons the pending match of the replaced participant and closes its connection |
| `MatchmakingPools.MatchmakingPool.Abandon` | src/ygopro/matchmaking/domain/MatchmakingPool.ts:320-346 | Does what the specification of abandon says; the mutual recursion with Add ends because the book shrinks |
| `MatchmakingPools.MatchmakingPool.ReAddAll` | src/ygopro/matchmaking/domain/MatchmakingPool.ts:342-345 | Adds back and tells everyone who stays, in order |
| `MatchmakingPools.MatchmakingPool.Remove` | src/ygopro/matchmaking/domain/MatchmakingPool.ts:101-105 | Out of the store, else out of a pending match, as cancelled |
| `MatchmakingPools.MatchmakingPool.DequeueBySocketId` | src/ygopro/matchmaking/domain/MatchmakingPool.ts:111-113 | Out of the store as dequeued, else out of a pending match as declined; reports whether either happened |
| `MatchmakingPools.MatchmakingPool.Withdraw` | src/ygopro/matchmaking/domain/MatchmakingPool.ts:348-352 | Out of the store or, failing that, out of a pending match, with the outcome of each |
| `MatchmakingPools.MatchmakingPool.LeavePending` | src/ygopro/matchmaking/domain/MatchmakingPool.ts:307-313 | Abandons the pending match of an id, if any |
| `MatchmakingPools.MatchmakingPool.RemoveByIdAndLog` | src/ygopro/matchmaking/domain/MatchmakingPool.ts:348-360 | Removes and logs an id of the store, if it is there |
| `MatchmakingPools.MatchmakingPool.IsQueued` | src/ygopro/matchmaking/domain/MatchmakingPool.ts:115-120 | True if and only if the id waits or is in a pending match |
| `MatchmakingPools.MatchmakingPool.FindLivePending` | src/ygopro/matchmaking/domain/MatchmakingPool.ts:297-305 | The entry of a match before its deadline, if the participant is in it |
| `MatchmakingPools.MatchmakingPool.Accept` | src/ygopro/matchmaking/domain/MatchmakingPool.ts:127-142 | State and answer of ACCEPT |
| `MatchmakingPools.MatchmakingPool.Dispatch` | src/ygopro/matchmaking/domain/MatchmakingPool.ts:232-237 | Logs everyone out as matched with a human and hands the match over |
| `MatchmakingPools.MatchmakingPool.Decline` | src/ygopro/matchmaking/domain/MatchmakingPool.ts:145-156 | State and answer of DECLINE |
| `MatchmakingPools.MatchmakingPool.DeclineAfterRequeue` | src/ygopro/matchmaking/domain/MatchmakingPool.ts:275-289 | State and answer of a DECLINE for a match that is no longer pending |
| `MatchmakingPools.MatchmakingPool.EveryParticipant` | src/ygopro/matchmaking/domain/MatchmakingPool.ts:399-403 | Everyone waiting, key by key |
| `MatchmakingPools.MatchmakingPool.SweepDead` | src/ygopro/matchmaking/domain/MatchmakingPool.ts:186-192 | The sweep phase |
| `MatchmakingPools.MatchmakingPool.ResolvePending` | src/ygopro/matchmaking/domain/MatchmakingPool.ts:243-262 | The resolve phase, over the book as it was when the phase began |
| `MatchmakingPools.MatchmakingPool.ResolveOne` | src/ygopro/matchmaking/domain/MatchmakingPool.ts:245-261 | One pending match: dead participants, an open window, or a timeout |
| `MatchmakingPools.MatchmakingPool.TimeOut` | src/ygopro/matchmaking/domain/MatchmakingPool.ts:254-260 | Everyone who has not accepted leaves and is then closed |
| `MatchmakingPools.MatchmakingPool.ForgetClosedRequeues` | src/ygopro/matchmaking/domain/MatchmakingPool.ts:291-295 | The forget phase |
| `MatchmakingPools.MatchmakingPool.PairAndDispatch` | src/ygopro/matchmaking/domain/MatchmakingPool.ts:194-213 | The pair phase, over all keys in order |
| `MatchmakingPools.MatchmakingPool.PairKey` | src/ygopro/matchmaking/domain/MatchmakingPool.ts:195-212 | One key: candidates, policies, then each match in turn |
| `MatchmakingPools.MatchmakingPool.Propose` | src/ygopro/matchmaking/domain/MatchmakingPool.ts:215-230 | Holds a match as pending and asks those who opted in |
| `MatchmakingPools.MatchmakingPool.Seat` | src/ygopro/matchmaking/domain/MatchmakingPool.ts:204-210 | Takes a match out, logs its exits and hands it over |
| `MatchmakingPools.MatchmakingPool.PublishStatus` | src/ygopro/matchmaking/domain/MatchmakingPool.ts:373-380 | The publish phase |
| `MatchmakingPools.MatchmakingPool.Tick` | src/ygopro/matchmaking/domain/MatchmakingPool.ts:177-184 | The five phases in this order |
| `MatchmakingPools.MatchmakingPool.DepthByFormat` | src/ygopro/matchmaking/domain/MatchmakingPool.ts:387-397 | The number waiting for a format |
| `MatchmakingPools.MatchmakingPool.IndexesAgree` | src/ygopro/matchmaking/infrastructure/InMemoryPoolStore.ts:9-69 | In every sound pool the three indexes of its store agree and a depth is a listing's length |
| `MatchmakingPools.MatchmakingPool.Handle` | src/ygopro/matchmaking/application/MatchmakingQueue.ts:110-123 | The handler as a port: tells some of the match, puts some back through Add |
| `FacadeRuns.InverseAlways` | src/ygopro/matchmaking/application/MatchmakingQueue.ts:179-182 | Over any run of facade and socket calls, whatever the handler does, records and users are mutual inverses, with one record per user, ticket and channel |
| `FacadeRuns.AgreementAfterEveryTick` | src/ygopro/matchmaking/application/MatchmakingQueue.ts:389-418 | After any legal run, a facade tick leaves searching tickets equal to the poll participants the pool holds and every matched record within its grace window, if and only if, among the matches the pool is about to hand over, no poll participant is both told and put back |
| `FacadeInvariants.FacadeTickAgrees` | src/ygopro/matchmaking/application/MatchmakingQueue.ts:389-418 | The same for one tick from any sound facade: the matches are computed from the pool before the tick, and those told and put back are what the handler is given |
| `FacadeTicks.TickExpires` | src/ygopro/matchmaking/infrastructure/PollParticipantChannel.ts:45-47 | A facade tick logs as expired exactly the poll participants of the store or of a pending match whose record was last polled more than QUEUE_TTL_MS ago, and the socket participants whose socket is closed |
| `FacadeTicks.SearchersWereHeard` | src/ygopro/matchmaking/application/MatchmakingQueue.ts:389-418 | Where a tick ends in agreement, every record that still searches was polled within QUEUE_TTL_MS |
| `FacadeTicks.FacadeTickPairsOff` | src/ygopro/matchmaking/application/MatchmakingQueue.ts:186-202 | With a handler that takes every match, a facade tick leaves at most one participant waiting for a format and, while a bot can play, none whose delay has passed |
| `FacadeTicks.EnterBrings` | src/ygopro/matchmaking/application/MatchmakingQueue.ts:261-297 | An accepted ticket adds one participant behind everyone waiting and one searching record, with the format, name, delay, channel and user of the entry and the time of the call |
| `FacadeInvariants.CarefulHandlerAgrees` | src/ygopro/matchmaking/application/MatchmakingQueue.ts:389-418 | With a handler that never both tells and puts back the same participant, a tick always ends in agreement |
| `FacadeRuns.CarefulHandlersAgree` | src/ygopro/matchmaking/application/MatchmakingQueue.ts:389-418 | With such handlers throughout, every tick after every run ends in agreement |
| `FacadeRuns.CarefulIsLegal` | src/ygopro/matchmaking/application/MatchmakingQueue.ts:110-123 | A run of such handlers meets the condition of legal runs at every call |
| `PoolHandOvers.TickFinds` | src/ygopro/matchmaking/domain/MatchmakingPool.ts:171-213 | A tick sends FOUND to a participant if and only if one of the matches dealt from the pool as it stands after sweep, resolve and forget needs no answer, contains it, and the handler tells it |
| `PoolHandOvers.AcceptFinds` | src/ygopro/matchmaking/domain/MatchmakingPool.ts:127-142 | An ACCEPT sends FOUND to exactly the participants of the match it completes whom the handler tells |
| `PoolHandOvers.PairAllFinds` | src/ygopro/matchmaking/domain/MatchmakingPool.ts:194-213 | Pairing the keys one after the other hands over what dealing them all at the start predicts, whatever the handler puts back in between |
| `PoolHandOvers.PairKeyLeavesKeys` | src/ygopro/matchmaking/domain/MatchmakingPool.ts:195-212 | Pairing one key leaves the listing of every other key as it was |
| `FacadeDisagreement.ToldThenPutBack` | src/ygopro/matchmaking/application/MatchmakingQueue.ts:147-160 | Concrete failure, reached from the empty facade: a client enqueues and polls, is told of its bot match, is put back because `spawnBot` throws, and its ticket says matched while the pool holds it |
| `FacadeRuns.EnqueueAgrees` | src/ygopro/matchmaking/application/MatchmakingQueue.ts:285-302 | Enqueueing ends in agreement if and only if the same holds of the matches its own tick is about to hand over |
| `FacadeRuns.FacadeRunKeeps` | src/ygopro/matchmaking/application/MatchmakingQueue.ts:163-178 | Legal runs keep every poll participant of the pool searching on a record of its own |
| `FacadeRuns.AbortFrees` | src/ygopro/matchmaking/application/MatchmakingQueue.ts:341-357 | Aborting a room frees every ticket matched into it together with its user, and no other |
| `FacadeRuns.PollingKeepsTheTicket` | src/ygopro/matchmaking/application/MatchmakingQueue.ts:413-416 | A matched ticket ends when its client has been silent for the grace window, and no sooner however long ago it was matched; until then its user cannot queue again |
| `FacadeRuns.StepInverse` | src/ygopro/matchmaking/application/MatchmakingQueue.ts:256-357 | Each facade call keeps the maps mutual inverses |
| `FacadeRuns.StepKeepsFacade` | src/ygopro/matchmaking/application/MatchmakingQueue.ts:256-392 | Each facade or socket call keeps the facade sound under the same condition on the matches it hands over |
| `FacadeRuns.CancelFrees` | src/ygopro/matchmaking/application/MatchmakingQueue.ts:331-339 | Cancelling frees the ticket, its user and its place in the pool, and nobody else's; an unknown ticket is refused |
| `FacadeRuns.PollAnswers` | src/ygopro/matchmaking/application/MatchmakingQueue.ts:310-329 | A poll answers with the time since the ticket was issued or with the room it was matched into, and with neither for an unknown ticket |
| `FacadeRuns.EnqueueAnswers` | src/ygopro/matchmaking/application/MatchmakingQueue.ts:257-288 | A ticket is refused exactly when its user has a record or a place in the pool, and then nothing changes |
| `FacadeRuns.CancelKeeps` | src/ygopro/matchmaking/application/MatchmakingQueue.ts:331-339 | Cancelling keeps the facade sound |
| `FacadeRuns.SocketKeeps` | src/ygopro/matchmaking/application/MatchmakingQueue.ts:372-385 | Socket clients on the shared pool keep the facade sound, unless a poll participant of a match their call hands over is both told and put back |
| `FacadeInvariants.EnterInverse` | src/ygopro/matchmaking/application/MatchmakingQueue.ts:285-291 | Committing an entry only after the pool took it keeps the maps inverse |
| `FacadeInvariants.RemoveInverse` | src/ygopro/matchmaking/application/MatchmakingQueue.ts:420-423 | Removing a record removes exactly it and frees its user |
| `FacadeInvariants.ReconcileKeeps` | src/ygopro/matchmaking/application/MatchmakingQueue.ts:403-418 | Reconciling keeps exactly the searching records still queued and the matched records polled within the grace window |
| `FacadeInvariants.ReconcileAgrees` | src/ygopro/matchmaking/application/MatchmakingQueue.ts:394-418 | Reconciling a sound facade makes it agree with its pool |
| `FacadeInvariants.LastRoomIs` | src/ygopro/matchmaking/infrastructure/PollParticipantChannel.ts:31-39 | A record is marked as matched if and only if FOUND was sent on its channel |
| `FacadeInvariants.LastRoomIsLatest` | src/ygopro/matchmaking/infrastructure/PollParticipantChannel.ts:31-39 | The room of a record is that of the last FOUND sent on its channel |
| `FacadeModel.FindRecord` | src/ygopro/matchmaking/application/MatchmakingQueue.ts:311 | Finds the record of a ticket, or there is none |
| `MatchmakingQueues.MatchmakingQueue.Enqueue` | src/ygopro/matchmaking/application/MatchmakingQueue.ts:256-302 | State and answer of enqueue, with its tick |
| `MatchmakingQueues.MatchmakingQueue.Enter` | src/ygopro/matchmaking/application/MatchmakingQueue.ts:257-297 | The part of enqueue before its tick |
| `MatchmakingQueues.MatchmakingQueue.Poll` | src/ygopro/matchmaking/application/MatchmakingQueue.ts:310-329 | Refreshes the heartbeat and reports the record |
| `MatchmakingQueues.MatchmakingQueue.Cancel` | src/ygopro/matchmaking/application/MatchmakingQueue.ts:331-339 | State and answer of cancel |
| `MatchmakingQueues.MatchmakingQueue.AbortRoom` | src/ygopro/matchmaking/application/MatchmakingQueue.ts:348-357 | State and number of records removed |
| `MatchmakingQueues.MatchmakingQueue.Tick` | src/ygopro/matchmaking/application/MatchmakingQueue.ts:389-392 | The pool's tick, then reconciliation |
| `MatchmakingQueues.MatchmakingQueue.Reconcile` | src/ygopro/matchmaking/application/MatchmakingQueue.ts:403-418 | The reconciliation loop over the records as they were |
| `MatchmakingQueues.MatchmakingQueue.Release` | src/ygopro/matchmaking/application/MatchmakingQueue.ts:351-354 | Removes one ticket from pool and records |
| `MatchmakingQueues.MatchmakingQueue.Deliver` | src/ygopro/matchmaking/infrastructure/PollParticipantChannel.ts:31-39 | FOUND changes the record bound to the channel it is sent on |
| `CardStorages.CardStorage.ReadCard` | src/ygopro/ygopro/card-storage.ts:85-96 | For every id, the payload of the first card with that code, and nothing exactly when there is none or the id is no card id |
| `CardStorages.FromCards` | src/ygopro/ygopro/card-storage.ts:47-79 | Builds such a storage from any list with at most 3*2^28 distinct valid codes, unless a kept card's payload has the wrong size |
| `CardTable.CapacityLoopEnds` | src/ygopro/ygopro/card-storage.ts:124-131 | The doubling loop on 32-bit words ends if and only if there are at most 3*2^28 cards |
| `CardTable.DoubledOverflows` | src/ygopro/ygopro/card-storage.ts:127-129 | After 26 doublings the shift gives -2^31 and then 0 for good |
| `CardStorages.ComputeHashCapacity` | src/ygopro/ygopro/card-storage.ts:124-131 | A power of two, above the count, the smallest from 16 up that meets the load factor |
| `CardStorages.UniqueCards` | src/ygopro/ygopro/card-storage.ts:48-57 | Keeps the first card of every valid code |
| `CardTable.FirstCardsAreFirst` | src/ygopro/ygopro/card-storage.ts:48-57 | For every valid id, a kept card has that code if and only if some card has, and it is the first such card |
| `CardTable.SomeFirst` | src/ygopro/ygopro/card-storage.ts:47-57 | A search finds a card exactly when one has the code as an unsigned word |
| `CardTable.FirstWithMeans` | src/ygopro/ygopro/card-storage.ts:47-57 | What it finds is the first such card |
| `CardTable.FirstCardsDistinct` | src/ygopro/ygopro/card-storage.ts:50-57 | The codes kept are valid and pairwise different |
| `CardStorages.CardStorage.FindEntryIndex` | src/ygopro/ygopro/card-storage.ts:210-226 | Ends, with the entry of the id or -1 when the table lacks it |
| `CardStorages.CardStorage.InsertHash` | src/ygopro/ygopro/card-storage.ts:191-208 | Ends, with the id added under its entry number, or nothing changed if it is there |
| `CardTable.FreeWithinReach` | src/ygopro/ygopro/card-storage.ts:196-207 | A probe from anywhere meets a free cell within one turn |
| `CardTable.FreeMeansAbsent` | src/ygopro/ygopro/card-storage.ts:215-219 | A free cell met while probing proves the id absent |
| `CardTable.FillKeepsTable` | src/ygopro/ygopro/card-storage.ts:196-201 | Filling the cell a probe ended at makes the id findable and leaves every other id findable |
| `CardTable.ProbeNext` | src/ygopro/ygopro/card-storage.ts:206 | Stepping under the power-of-two mask is stepping modulo the capacity |
| `CardTable.ProbeCovers` | src/ygopro/ygopro/card-storage.ts:206 | Stepping from any cell reaches every cell within one turn |
| `CardTable.HashInRange` | src/ygopro/ygopro/card-storage.ts:133-135 | The hash is a cell of the table |
| `Bits.AndMask` | src/ygopro/ygopro/card-storage.ts:134 | AND with a power of two less one is the remainder |
| `CardStorages.CardStorage.StoreCard` | src/ygopro/ygopro/card-storage.ts:73-76 | One card more: its payload in its stretch and its code in the index, everything else kept |
| `CardTable.EntryWritten` | src/ygopro/ygopro/card-storage.ts:184 | Writing one entry leaves every other entry as it was |
| `CardTable.SlotsApart` | src/ygopro/ygopro/card-storage.ts:153-156 | Stretches of different entries do not overlap |
| `CardStorages.CardStorage.WriteEntry` | src/ygopro/ygopro/card-storage.ts:158-185 | Writes one payload into its stretch and keeps the others |
| `SeededShuffle.ShuffleIsExact` | src/ygopro/utils/shuffle-decks-by-seed.ts:60-65 | Choice vectors and orderings of distinct cards correspond one to one: exactly the permutations are reached, each by one vector |
| `SeededShuffle.AcceptedDrawsAreFair` | src/ygopro/utils/shuffle-decks-by-seed.ts:52-57 | Below the bound every remainder occurs equally often, and the bound is the largest multiple not above 2^32 |
| `SeededShuffle.EveryOrderingEquallyOften` | src/ygopro/utils/shuffle-decks-by-seed.ts:48-65 | Every ordering of distinct cards is the outcome of equally many vectors of accepted outputs, as many as the product of the draws per remainder |
| `SeededShuffle.AcceptedIsFirst` | src/ygopro/utils/shuffle-decks-by-seed.ts:52-56 | The output drawn is the first from there on below the bound, if there is one |
| `SeededShuffle.KnownShuffle` | src/ygopro/utils/shuffle-decks-by-seed.ts:48-74 | Known answer: five cards a, b, c, d, e under the seed 1 to 8 come out as e, c, b, a, d |
| `SeededShuffle.NoOrderingTwice` | src/ygopro/utils/shuffle-decks-by-seed.ts:60-65 | Different choices give different orderings |
| `SeededShuffle.EveryOrderingReached` | src/ygopro/utils/shuffle-decks-by-seed.ts:60-65 | Every ordering is reached, repeated cards included |
| `SeededShuffle.ShuffledKeepsCards` | src/ygopro/utils/shuffle-decks-by-seed.ts:60-65 | A shuffle is a permutation, whatever the choices |
| `SeededShuffle.NextInt` | src/ygopro/utils/shuffle-decks-by-seed.ts:48-58 | Returns the first accepted output from here on, reduced; takes no output for a choice among one |
| `SeededShuffle.ShuffleMainDeck` | src/ygopro/utils/shuffle-decks-by-seed.ts:60-65 | In place, the main deck becomes the shuffle by the generator's choices, and the generator has moved past exactly the outputs drawn |
| `SeededShuffle.OnlyMainOrderChanges` | src/ygopro/utils/shuffle-decks-by-seed.ts:67-74 | Extra and side stay, and main keeps its cards |
| `SeededShuffle.ShuffleDecksBySeed` | src/ygopro/utils/shuffle-decks-by-seed.ts:67-74 | One generator serves the decks in turn |
| `SeededRng.UnmixInverts` | src/ygopro/utils/shuffle-decks-by-seed.ts:6-11 | SplitMix64 has an inverse |
| `SeededRng.SplitMixInjective` | src/ygopro/utils/shuffle-decks-by-seed.ts:6-11 | SplitMix64 is injective on 64-bit words |
| `SeededRng.PreviousInverts` | src/ygopro/utils/shuffle-decks-by-seed.ts:35-46 | The generator's step has an inverse on 256-bit states |
| `SeededRng.NextInjective` | src/ygopro/utils/shuffle-decks-by-seed.ts:35-46 | The step is injective |
| `SeededRng.NeverZero` | src/ygopro/utils/shuffle-decks-by-seed.ts:30-31 | A live state never reaches the all-zero state |
| `SeededRng.SeededNeverZero` | src/ygopro/utils/shuffle-decks-by-seed.ts:17-34 | A seeded generator never reaches the all-zero state |
| `SeededRng.SeedsCollide` | src/ygopro/utils/shuffle-decks-by-seed.ts:18-34 | Two seeds give the same starting state if and only if their eight words agree or both are among the two seeds the fallback makes collide |
| `SeededRng.TwoSeedsCollide` | src/ygopro/utils/shuffle-decks-by-seed.ts:18-34 | Those two seeds, written out |
| `SeededRng.KnownMix` | src/ygopro/utils/shuffle-decks-by-seed.ts:6-11 | Known answer: SplitMix64 of 0 |
| `SeededRng.KnownSeed` | src/ygopro/utils/shuffle-decks-by-seed.ts:18-29 | Known answer: the lanes and the starting state of the seed 1 to 8 |
| `SeededRng.KnownOutputs` | src/ygopro/utils/shuffle-decks-by-seed.ts:35-45 | Known answer: the first four outputs of the seed 1 to 8 |
| `SeededRng.Rng.NextU32` | src/ygopro/utils/shuffle-decks-by-seed.ts:35-46 | Output n of the generator, after n steps |
| `Achievements.ReplayEqualsLive` | src/plugins/achievements/domain/replayAchievements.ts:16-70 | Replaying a history equals what the live awarder granted match by match, restricted to the catalog, if and only if the catalog lacks the code of the ladder without a name or the history has no win under a list that feeds it |
| `Achievements.NamelessExactly` | src/plugins/achievements/domain/replayAchievements.ts:39-57 | A replay awards the code of the ladder without a name if and only if some match was won under a list that feeds it |
| `Achievements.LaddersAre` | src/plugins/achievements/domain/laddersForBanList.ts:14-21 | A ladder is fed if and only if there is a ban list and the ladder is the name its alias stands for or a group listed under that name; that name comes first |
| `Achievements.AwardedMeans` | src/plugins/achievements/domain/replayAchievements.ts:16-70 | For every history a code is awarded if and only if some match earned it by the wins, matches, streak or ladder wins up to and with it, and its season is that of the first such match |
| `Achievements.LoadedReplayEqualsLive` | src/shared/rank/infrastructure/RankGroupsConfigLoader.ts:36-54 | With a configuration the loader lets through, which has no empty alias target and no empty group name, a replay is what was awarded live, for every history and catalog |
| `Achievements.LoadedFeedsNoNameless` | src/shared/rank/infrastructure/RankGroupsConfigLoader.ts:36-54 | Under such a configuration no match feeds a ladder without a name |
| `Achievements.NamelessWinDiffers` | src/plugins/achievements/application/AchievementAwarder.ts:189-193 | Concrete failure for a resolver handed over directly, which no loaded configuration gives: one win under an alias of the empty name is labelled with the empty name when replayed and not at all when awarded live |
| `Achievements.ReplayIsLive` | src/plugins/achievements/domain/replayAchievements.ts:16-70 | The same codes, the same first season, and the same labels but for that one code |
| `Achievements.LadderWinsAgree` | src/plugins/achievements/application/AchievementAwarder.ts:195-199 | Wins summed over the ban lists feeding a ladder are the wins counted match by match |
| `Achievements.CountersAgree` | src/plugins/achievements/domain/replayAchievements.ts:26-67 | The running counters, including the incremental streak, are the totals of the history so far |
| `Achievements.WindowedStreak` | src/plugins/achievements/domain/currentStreak.ts:5-9 | A streak seen through a window is the streak cut at the window |
| `Achievements.StreakCutShort` | src/plugins/achievements/infrastructure/postgres/MatchHistoryPostgresReader.ts:31-38 | Cutting a streak at the window changes no award |
| `Achievements.EvaluateMeans` | src/plugins/achievements/domain/evaluateAchievements.ts:37-65 | A code is given if and only if its total was reached or passed |
| `Achievements.EvaluateAchievements` | src/plugins/achievements/domain/evaluateAchievements.ts:37-65 | The threshold loops push exactly the codes specified, in order |
| `Achievements.LaddersDistinct` | src/plugins/achievements/domain/laddersForBanList.ts:14-21 | A ban list feeds each of its ladders once |
| `Achievements.LabelsAre` | src/plugins/achievements/application/AchievementAwarder.ts:189-193 | A code carries its ladder as label, but none when the ladder has no name |
| `Achievements.GrantedAtOnce` | src/plugins/achievements/domain/replayAchievements.ts:39-57 | Granting evaluation by evaluation is granting all codes of the match at once |
| `Achievements.ReplayAchievements` | src/plugins/achievements/domain/replayAchievements.ts:22-70 | The fold over the history |
| `Achievements.AwardPlayer` | src/plugins/achievements/application/AchievementAwarder.ts:67-105 | One match as the live awarder sees it |
| `Achievements.AwardCodes` | src/plugins/achievements/application/AchievementAwarder.ts:83-105 | The held-check loop awards each catalogued code not yet held, once |
| `Sequences.Dedup` | src/plugins/achievements/application/AchievementAwarder.ts:186 | Keeps exactly the elements |
| `Sequences.DedupDistinct` | src/plugins/achievements/domain/laddersForBanList.ts:20 | Keeps each once |
| `Framing.ChunkingLaw` | src/shared/messages/MessageProcessor.ts:26-54 | How a stream is cut into chunks never matters if and only if reading it never comes to a size of 0 or 0x8000 and above with more bytes behind it |
| `Framing.ReframingLaw` | src/shared/messages/MessageEmitter.ts:28-87 | However a stream of frames is cut, exactly the frames are delivered, each with the latest earlier non-empty payload, and the incomplete tail stays |
| `Framing.ZeroSizeDependsOnChunks` | src/shared/messages/MessageProcessor.ts:46-54 | Concrete failure: the bytes 00 00 05 are read or fail depending on the cut |
| `Framing.DrainSplits` | src/shared/messages/MessageEmitter.ts:28-36 | Reading two pieces one after the other is reading them joined |
| `Framing.StopAtBadPrefix` | src/shared/messages/MessageProcessor.ts:39-43 | Every stream that meets a bad size has a cut that fails |
| `Framing.LatestIsOneOf` | src/shared/messages/MessageProcessor.ts:34-37 | The remembered payload is one of the earlier frames' |
| `Framing.MessageProcessor.Read` | src/shared/messages/MessageProcessor.ts:26-28 | Appends to the buffer |
| `Framing.MessageProcessor.IsMessageReady` | src/shared/messages/MessageProcessor.ts:46-54 | Judges readiness by the size read as signed |
| `Framing.MessageProcessor.Take` | src/shared/messages/MessageProcessor.ts:30-44 | Takes one frame by the size read as unsigned, or fails where no command byte is there |
| `Framing.MessageEmitter.HandleMessage` | src/shared/messages/MessageEmitter.ts:28-31 | Delivers what one chunk completes |
| `Framing.MessageEmitter.ProcessMessage` | src/shared/messages/MessageEmitter.ts:33-87 | The recursion ends and announces every frame it took |
| `Framing.MessageEmitter.Announce` | src/shared/messages/MessageEmitter.ts:47-84 | Calls the listener of the two room commands and then emits exactly the frames of the known commands |
| `Framing.NoticesMean` | src/shared/messages/MessageEmitter.ts:8-14 | Exactly the frames of player info, creating, joining, reconnecting and the five matchmaking commands are emitted, behind the listener call of creating or joining |
| `CoreMessages.CoreConserves` | src/edopro/room/domain/states/dueling/DuelingState.ts:274-371 | However chunks and deferred turns interleave, messages handled followed by those buffered are the messages of everything that arrived |
| `CoreMessages.MessagesRecovered` | src/edopro/messages/JSONMessageProcessor.ts:17-37 | Length-prefixed messages come back out, and an incomplete tail stays |
| `CoreMessages.MessagesSplit` | src/edopro/messages/JSONMessageProcessor.ts:17-37 | Reading on from the tail of what came before loses and repeats nothing |
| `CoreMessages.ProcessMessages` | src/edopro/room/domain/states/dueling/DuelingState.ts:299-371 | One turn handles up to its limit and reports whether more is ready |
| `CoreMessages.JSONMessageProcessor.Read` | src/edopro/messages/JSONMessageProcessor.ts:17-19 | Appends to the buffer |
| `CoreMessages.JSONMessageProcessor.IsMessageReady` | src/edopro/messages/JSONMessageProcessor.ts:30-37 | True if and only if a whole message is buffered |
| `CoreMessages.JSONMessageProcessor.Process` | src/edopro/messages/JSONMessageProcessor.ts:21-28 | Takes the first message, or changes nothing |
| `CoreMessages.JSONMessageProcessor.Clear` | src/edopro/messages/JSONMessageProcessor.ts:59-63 | Empties the processor |
| `ChannelModel.NothingLostOrReordered` | src/edopro/room/domain/CoreChannel.ts:67-155 | Over any run without re-attaching an awaited core, the lines the core accepted since it was attached followed by those pending are the lines sent since, in order, and a channel not waiting has nothing pending |
| `ChannelModel.NewProcessesLoseNothing` | src/edopro/room/domain/Room.ts:494-496 | Over any run that attaches each process once, as a room does, the same holds without looking at any drain |
| `ChannelModel.AttachKeeps` | src/edopro/room/domain/CoreChannel.ts:67-78 | Attaching keeps the channel sound if and only if no drain of that very core is still awaited |
| `ChannelModel.SendKeeps` | src/edopro/room/domain/CoreChannel.ts:80-87 | Sending keeps the channel sound, and writes nothing while a drain is awaited |
| `ChannelModel.DrainedKeeps` | src/edopro/room/domain/CoreChannel.ts:139-150 | A drain keeps the channel sound, and a replaced core's drain changes nothing |
| `ChannelModel.FlushKeeps` | src/edopro/room/domain/CoreChannel.ts:115-155 | Flushing ends with nothing pending or waiting for a drain, touches no other core, and counts every write |
| `ChannelModel.ReattachedListensTwice` | src/edopro/room/domain/CoreChannel.ts:67-70 | Concrete failure: a core attached again while awaited is soon listened to twice |
| `ChannelModel.ListenedTwiceIsRushed` | src/edopro/room/domain/CoreChannel.ts:139-150 | Its one drain then writes a second line although the first asked to wait |
| `ChannelModel.ReattachedIsRushed` | src/edopro/room/domain/CoreChannel.ts:67-155 | From any awaited core: attached again, it asks to wait, and its one drain then writes the first two lines queued since, the second although the first asked to wait |
| `ChannelModel.RushedRun` | src/edopro/room/domain/CoreChannel.ts:67-155 | The same as one concrete run from a new channel |
| `CoreChannels.CoreChannel.Attach` | src/edopro/room/domain/CoreChannel.ts:67-78 | State after attach |
| `CoreChannels.CoreChannel.Send` | src/edopro/room/domain/CoreChannel.ts:80-87 | State after send |
| `CoreChannels.CoreChannel.Flush` | src/edopro/room/domain/CoreChannel.ts:115-155 | State after flush |
| `CoreChannels.CoreChannel.WriteLine` | src/edopro/room/domain/CoreChannel.ts:128-133 | One line leaves the queue for the core |
| `CoreChannels.CoreChannel.OnDrain` | src/edopro/room/domain/CoreChannel.ts:139-150 | State after a drain of any core |
| `DeckChecks.Deck.IsSideDeckValid` | src/shared/deck/domain/Deck.ts:44-68 | True if and only if the new main and side are together the deck's cards as a multiset |
| `DeckChecks.SameMultiset` | src/shared/reserved-duel/domain/DeckLock.ts:12-20 | True if and only if the piles are equal as multisets |
| `DeckChecks.LengthDecides` | src/shared/reserved-duel/domain/DeckLock.ts:13-19 | Equal lengths and one-sided counts decide multiset equality |
| `DeckChecks.KeysDecide` | src/shared/deck/domain/Deck.ts:57-67 | Equal key counts and one-sided counts decide multiset equality |
| `DeckChecks.DeckHonoursLock` | src/shared/reserved-duel/domain/DeckLock.ts:24-44 | True if and only if the lock's multisets agree, by section or together |
| `DeckChecks.ExactImpliesRegistered` | src/shared/reserved-duel/domain/DeckLock.ts:24-44 | A deck honouring an exact lock honours the registered one |
| `DeckChecks.MovingACard` | src/shared/reserved-duel/domain/DeckLock.ts:27-28 | Moving a card from main to side honours the registered lock and breaks the exact one |
| `DeckChecks.CountsOf` | src/shared/reserved-duel/domain/DeckLock.ts:3-10 | Counts every code |
| `RankGroups.CurrencyAgrees` | src/shared/rank/domain/RankGroupResolution.ts:149-180 | A loaded name resolves to an enabled current-only group if and only if it is listed as current for it, or feeds another group of the same name |
| `RankGroups.NewestStaysCurrent` | src/shared/rank/domain/RankGroupResolution.ts:66-76 | Every server's newest matching list not after today stays current whatever newer lists other servers loaded |
| `RankGroups.FutureAndUndated` | src/shared/rank/domain/RankGroupResolution.ts:152-155 | A future list is never current, an undated one always, unless its name is no list |
| `RankGroups.ListsAre` | src/shared/rank/domain/RankGroupResolution.ts:157-180 | What is matched and what is current, name by name |
| `RankGroups.MaxIsNewest` | src/shared/rank/domain/RankGroupResolution.ts:132-147 | The greatest key of the matching dated names not after today, if any |
| `RankGroups.FloorIsLowest` | src/shared/rank/domain/RankGroupResolution.ts:118-130 | The floor is no later than any server's newest list |
| `RankGroups.FloorMeans` | src/shared/rank/domain/RankGroupResolution.ts:118-130 | A key is at or above the floor if and only if some server has a list that counts and none that counts and is newer; there is no floor if and only if nothing counts anywhere |
| `RankGroups.FloorIsReached` | src/shared/rank/domain/RankGroupResolution.ts:118-130 | The floor, when there is one, is the newest key of some server |
| `RankGroups.CurrentMeans` | src/shared/rank/domain/RankGroupResolution.ts:149-180 | A list is current for a group if and only if it is loaded, matches, is groupable, and is undated or not after today with some server that counts it among its newest |
| `RankGroups.ResolvesMeans` | src/shared/rank/domain/RankGroupResolution.ts:77-116 | A name resolves to a group name if and only if it is groupable and matches an enabled group of that name that is not current-only, or for which it is current in that sense, or for which nothing counts on any server |
| `RankGroups.MemberMeans` | src/shared/rank/domain/RankGroupResolution.ts:30-36 | A starred member takes the names ending in a space and its word; any other takes its own name |
| `RankGroups.DatesRead` | src/shared/rank/domain/RankGroupResolution.ts:38-49 | A name has a date if and only if it starts with that date written out, alone or before white space |
| `RankGroups.FedGroups` | src/shared/rank/domain/RankGroupResolution.ts:91-97 | Exactly the names of the groups fed |
| `RankGroups.KeysOrderDates` | src/shared/rank/domain/RankGroupResolution.ts:51-54 | Keys order dates as calendars do |
| `ReplayBuffers.RecordingRecovered` | src/edopro/replay/Replay.ts:213-247 | A reader of a serialised duel gets every message back, and out of the last one the whole duel |
| `ReplayBuffers.RecordDuel` | src/edopro/replay/Replay.ts:112-127 | A duel recorded message by message and response by response: a reader of the stream recovers the messages, and from the last one names, rules, decks and the responses that had bytes |
| `ReplayBuffers.RecordingIs` | src/edopro/replay/Replay.ts:116-123 | Recording appends the messages and the non-empty responses, each in their order |
| `ReplayBuffers.Replay.AddMessage` | src/edopro/replay/Replay.ts:116-118 | Appends one message |
| `ReplayBuffers.Replay.AddResponse` | src/edopro/replay/Replay.ts:120-123 | Appends the bytes of one response text |
| `ReplayBuffers.Replay.SetSeed` | src/edopro/replay/Replay.ts:112-114 | Replaces the seed |
| `ReplayBuffers.Replay.AddPlayers` | src/edopro/replay/Replay.ts:125-127 | Replaces the players |
| `ReplayResponses.ResponseRecovered` | src/edopro/room/domain/states/dueling/DuelingState.ts:777-786 | The text a response is sent to the replay as reads back as its bytes; an empty response, which is skipped, would read back as a zero byte |
| `Texts.SplitLast` | src/edopro/replay/Replay.ts:121 | A piece without the separator, put behind one, is split off whole |
| `ReplayBuffers.Replay.Serialize` | src/edopro/replay/Replay.ts:213-236 | Fills both buffers exactly and appends the old-style replay to the messages |
| `ReplayFormat.SizesAreExact` | src/edopro/replay/Replay.ts:129-173 | Both sizes computed in advance are the lengths written |
| `ReplayReader.YrpxRecovered` | src/edopro/replay/Replay.ts:232-236 | A reader of the stream gets back both teams' names, the flags, and the messages in order |
| `ReplayReader.YrpRecovered` | src/edopro/replay/Replay.ts:215-227 | A reader of an old-style replay that follows the counts gets back header and seed, both teams' names, starting points, draw counts and flags, each player's main and extra codes in order, team 0 before team 1, and the responses |
| `ReplayReader.DecksRead` | src/edopro/replay/Replay.ts:344-369 | Each player's main and extra codes come back, in order |
| `ReplayReader.PlayersRead` | src/edopro/replay/Replay.ts:371-388 | Both teams' names come back, cut to twenty characters |
| `ReplayReader.TeamIs` | src/edopro/replay/Replay.ts:345-346 | A team is the players of that number, in the order they sit |
| `ReplayReader.MessagesRecovered` | src/edopro/replay/Replay.ts:328-335 | Message after message comes back |
| `ReplayReader.ResponsesRecovered` | src/edopro/replay/Replay.ts:337-342 | Response after response comes back |
| `ReplayFormat.NumberRecovered` | src/edopro/replay/Replay.ts:56-64 | Little-endian numbers come back |
| `ReplayFormat.NameField` | src/utils/UTF8ToUTF16.ts:1-10 | A name takes its field of 40 bytes |
| `ReplayBuffers.ReplayBuffer.WriteBuffer` | src/edopro/replay/Replay.ts:66-69 | Appends bytes in bounds |
| `ReplayBuffers.ReplayBuffer.WriteUInt32` | src/edopro/replay/Replay.ts:56-59 | Appends four bytes |
| `ReplayBuffers.ReplayBuffer.WriteUInt64` | src/edopro/replay/Replay.ts:61-64 | Appends eight bytes |
| `ReplayBuffers.ReplayBuffer.WritePlayers` | src/edopro/replay/Replay.ts:371-388 | Appends both teams' names |
| `ReplayBuffers.ReplayBuffer.WriteDecks` | src/edopro/replay/Replay.ts:344-369 | Appends the decks of a team |
| `ReplayBuffers.ReplayBuffer.WriteResponses` | src/edopro/replay/Replay.ts:337-342 | Appends the responses |
| `ReplayBuffers.ReplayBuffer.WriteMessages` | src/edopro/replay/Replay.ts:328-335 | Appends the messages |
| `ReplayBuffers.ReplayBuffer.WriteHeader` | src/edopro/replay/Replay.ts:306-326 | Appends the extended header |
| `ReplayBuffers.BuildYrp` | src/edopro/replay/Replay.ts:215-227 | The old-style replay fills its buffer |
| `ReplayBuffers.BuildYrpx` | src/edopro/replay/Replay.ts:232-236 | The stream fills its buffer |
| `WireProtocol.EnterIsUnambiguous` | src/ygopro/matchmaking/protocol/matchmaking-protocol.ts:129-166 | A body parses to a request if and only if it is that request written in one of the four layouts |
| `WireProtocol.PrefixedTexts` | src/ygopro/matchmaking/protocol/matchmaking-protocol.ts:117-127 | AUTH, ACCEPT and DECLINE take exactly the length-prefixed texts within their limits |
| `WireProtocol.StatusRecovered` | src/utils/matchmaking-harness.ts:189-199 | The client takes any STATUS off the stream and reads it as it was meant |
| `WireProtocol.FoundRecovered` | src/utils/matchmaking-harness.ts:201-216 | The client reads a FOUND as it was meant if and only if the match id has fewer than 256 bytes |
| `WireProtocol.BuildFound` | src/ygopro/matchmaking/protocol/matchmaking-protocol.ts:202-218 | A FOUND frame shows the longest prefix of the opponent's name that fits |
| `WireProtocol.ClientEnters` | src/utils/matchmaking-harness.ts:92-105 | The client's ENTER reaches the parser intact |
| `WireProtocol.FramesRecovered` | src/utils/matchmaking-harness.ts:164-187 | Frames in, frames out, and what is not a whole frame stays |
| `WireProtocol.TakeFrames` | src/utils/matchmaking-harness.ts:171-187 | The loop over the read buffer |
| `WireProtocol.CodesInvert` | src/utils/matchmaking-harness.ts:58-64 | The client's code tables invert the server's |
| `Utf8.TruncateUtf8` | src/ygopro/matchmaking/protocol/matchmaking-protocol.ts:246-258 | Keeps the longest prefix of whole code points within the limit |
| `Utf8.Boundaries` | src/ygopro/matchmaking/protocol/matchmaking-protocol.ts:253 | A byte is no continuation byte if and only if whole code points lie before it |
| `Utf8.LongestIsUnique` | src/ygopro/matchmaking/protocol/matchmaking-protocol.ts:246-258 | There is one longest such prefix |
| `Utf8.TextRecovered` | src/ygopro/matchmaking/protocol/matchmaking-protocol.ts:248 | Decoding undoes encoding |

## Left out

- Sockets, HTTP controllers, Redis, Postgres, timers, metrics output and log wording: input and output around the cores.
- Room creation, bot spawning and room reaping behind the match handler; the handler that seats players in shared rooms, including its closing of a participant without player info, is seen only through whom it tells and whom it puts back.
- Several clock readings within one pool or facade call: they are taken as one.
- The pool handing the same participant object to several holders; participants are values, and a record bound to a channel is found by its channel.
- MatchmakingQueues.MatchmakingQueue.Poll: reports the room of a matched ticket without password, opponent, opponent name and rated flag, because the injected match handler makes those up; the room decides matched or searching.
- MatchmakingQueues.MatchmakingQueue.Deliver: sets the room of a record and none of those fields, nor the time of matching, which no code reads.
- Starting and stopping the tick timers, and the facade's singleton accessors.
- CardStorages.CardStorage.ReadCard: gives the payload bytes of a card; decoding them into fields is another class's work, and so is the copy `toCardReader` makes.
- CardStorages.FromCards: a card carries its payload, of any size; encoding its fields is not part of this model.
- CardStorages.CardStorage.WriteEntry: writes a payload it is given, where the program first encodes the card's fields.
- Sharing the storage's buffers between threads, and the engine binary kept beside them.
- SeededShuffle.NextInt: asks that the generator gives an output below the bound sometime from here on; without one the program would draw forever, and no argument excludes such an orbit of the generator.
- SeededShuffle.ShuffleMainDeck: asks the same of every draw it makes, and of no other.
- SeededShuffle.OnlyMainOrderChanges: asks the same of the draws for these decks.
- SeededShuffle.ShuffleDecksBySeed: asks the same of the draws for these decks.
- Seed words beyond 32 bits: a seed here is already reduced to 32-bit words, as the program's own reduction leaves it.
- The order in which replayed awards are listed, and awards that fail or a ladder map that changes while a history is played.
- Achievements.AwardPlayer: computes what is awarded with season and labels; saving it, announcing it and notifying the player are left out.
- Utf8.TextRecovered: decoding is shown to undo encoding; rejecting malformed bytes is not modelled, because the server decodes leniently with replacement characters.
- The PROPOSED frame and the CANCEL parser, whose layouts add nothing to those proved.
- CoreMessages.ProcessMessages: hands on the payloads; parsing each as JSON and what the duel does with it are left out, and so are handlers that throw.
- CoreMessages.JSONMessageProcessor.Process: gives the payload's bytes and not the text they decode to.
- CoreChannels.CoreChannel.Attach: registers no listener for write errors and starts no metrics report.
- CoreChannels.CoreChannel.Flush: keeps no drain count and no time waited; a write that fails with an error event is not modelled.
- ReplayBuffers.Replay.Serialize: ends with the stream; its compression and the header put before the compressed bytes, timestamp included, are left out.
- ReplayBuffers.Replay.AddResponse: numbers beyond 2^53, which the language rounds, are read exactly; no response the server makes has one.
- Deck validation rules other than the two multiset checks, ban lists and their loading.
