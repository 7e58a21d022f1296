# PulsePoll: a verified model of counting and showing votes

PulsePoll takes votes over HTTP, stores them in MongoDB, counts them in Redis hashes, publishes every new result
over Redis Pub/Sub and shows it live in the browser over WebSockets. Nothing in that path is one atomic operation.
This project models the path in Dafny and proves what it does and does not guarantee.

## How the model is built

**Votes and counters.** `VoteProtocol` is a state machine whose every step is one MongoDB or Redis command of one
call in flight: any number of `Cast`, `GetResults`, `Update`, `Close`, `Delete` and `InitRedisCounters` calls
interleave, and each command may fail. Its history fields (successful inserts, when their increments applied or that
they were lost, the last rebuild write of each hash field, the reads answered) are read by no step. `VoteLinks`,
`VoteCounts`, `VoteResults`, `VoteUnique` and `VoteEvents` are invariants of it, `VoteTheorems`, `VotePurges` and
`PollLifecycle` the results, `VoteDrift` how a counter stays off, `VoteRaces` the duplicate-key error, `LateVotes`
the votes that land after Close, and `VoteWitnesses` runs in which a condition, and the guarantee with it, fails.
`VoteServices` and `VoteCalls` are the repositories and services as classes: each call runs its commands in the
source's order over stores it updates in place, is proved against what it must answer and store, and is shown to be
a run of the state machine. `RedisStrings` keeps the hashes as the decimal strings they are.

**Hub and sockets.** `HubMachine` has one step per channel operation of the hub goroutine, `ServeWS`, the read pumps
and the write pumps, with the three bounded queues and the bounded send channels; `select` may take any ready queue.
`HubInvariants`, `HubOrigin`, `HubSteps`, `HubTheorems` and `HubBlocking` prove the results for every interleaving.
`HubService` has the cases of `Hub.Run` as methods with their loops, `WritePump` the batching loop of the write pump
over text.

**Subscriber, browser and the whole.** `RealtimeService` is the subscriber loop, `Reconnect` the hook
`useRealtimePoll` as a class and a state machine, and `EndToEnd` the product of all of these: votes, channel,
subscriber, hub, sockets and hooks step in any order. `PageResults` says what a page then shows, and `PageWitness`
is a run from a vote to the page.

**Validation.** `Validators`, `OptionIds` and `Texts` are the request validators, with an independent definition of
the option IDs (`OptionIds.IdOf`) that uses no seen map.

Names: in the state machine `lossy` holds the polls that lost an increment, both reads of one Cast or a publish,
`rebuilt` those whose hash a rebuild has written, `purged` those whose votes Delete removed; `Clean` means in none
of the three.

## What is proved, and what turned out false

- Counters: in every run without a rebuild, counter + Casts between insert and increment + lost increments = inserts
  ever made; with Delete, inserts ever made = stored votes + removed votes. With any number of rebuilds, the drift
  of a poll that is not purged is exactly the votes counted twice minus the votes forgotten, relative to the last
  write of that field, and a purge adds the votes it removed since that write's snapshot
  (`VoteDrift.DriftWithDelete`). "A rebuild makes Redis equal MongoDB" is false while a Cast straddles it:
  `VoteWitnesses.StraddleDrifts` ends one too high, and increments still due or lost aside it stays one too high
  until a rebuild next writes the field or the poll is purged (`VoteWitnesses.StraddleStays`).
- One vote per token: at most one stored vote, always. "At most one counter increment per token" is false once
  Delete has purged the votes of a poll that a Cast had read earlier (`VoteWitnesses.PurgeAdmitsAgain`); a token's
  inserts are exactly its stored and removed votes, and so are its increments with the pending and lost ones
  (`VotePurges.TokenIncrements`).
- Results: Redis results of a poll not rebuilt form a chain; some event is exact once all Casts on a clean poll have
  returned; no event of a poll not rebuilt claims more votes than were accepted, and that survives Pub/Sub loss, the
  hub, the sockets and the hook. After a rebuild a straddling Cast can publish more
  (`VoteWitnesses.StraddleOvercounts`).
- A page shows the last single-message frame of its socket, so the exact result may reach the socket and not be
  shown: `PageResults.ExactShownIff` says exactly when it is.
- The loser of a race between two Casts of one token gets the duplicate-key error exactly when the other inserted
  after its duplicate check, unless the poll is purged (`VoteRaces.DuplicateKeyIff`).
- Close is no barrier: a vote can land after it (`VoteWitnesses.VoteAfterClose`). How many can is exactly the number
  of tokens without a stored vote among the Casts that had read the poll as active (`LateVotes.LateVotesExactly`).
- Hub: no send on, and no second close of, a closed channel, in any order of the queues. An unregistration taken
  before its registration does nothing, and leaves a client nobody reads in the room
  (`HubTheorems.UnregisterFirst`). The hub is the only reader of its unregister queue, so evicting while that queue
  is full blocks it for ever, and one client that nobody drains is enough for that
  (`HubBlocking.DeadlockWithOneClient`). `HubBlocking.BlocksExactly` says exactly when a broadcast blocks, with
  everything else running, and `HubBlocking.FinishesUnlessBlocked` that it finishes otherwise.
- Option IDs are not always distinct, whether generated (`OptionIds.SharedId`) or brought by the request
  (`OptionIds.SuppliedId`): they are exactly when no two requests bring one ID, none brings an ID another is given,
  and no suffixed slug meets an earlier plain one (`OptionIds.IdsDistinctIff`). Different texts can be refused as
  duplicates (`OptionIds.FalseDuplicate`); `OptionIds.BuiltExactly` says exactly when a list is accepted and what it
  becomes.

Where the repository's documentation and its code disagree the model follows the code: the documentation promises
exponential backoff, the hook waits `min(2000 n, 30000)` ms; the comment on `InitRedisCounters` says it is called at
startup, nothing calls it; the loser of a race between two Casts of one token gets the store's duplicate-key error,
not `ErrAlreadyVoted` (`VoteWitnesses.RaceLoser`).

## Assumptions

- The unique index on (pollId, voterToken) exists; the error of creating it is dropped by the code.
- A command reported as failed did not apply. The state machine does not wipe Redis; a rebuild is also proved from
  arbitrary hashes (`VoteCalls.Service.InitRedisCounters`).
- New object IDs are fresh, and a poll ID is spelled in one hexadecimal case. A malformed poll ID is a failed find.
- Lower-casing is a parameter; the proofs that need it ask only that spaces and the dash have no other case.
- A published event is read back as it was, and its encoding holds no raw newline.
- No more than 2^63 - 1 votes are stored; HINCRBY fails rather than overflow, and that is modelled.

## Model

| member | source | states |
|---|---|---|
| VoteTheorems.RunKeepsInvariant | backend/services/vote_service.go:50-228 | every run of interleaved calls keeps the six invariants that tie calls, stores and history together |
| VoteTheorems.Conservation | backend/services/vote_service.go:89-104 | without rebuild: counter + Casts between insert and increment + lost increments = inserts ever made; without a purge that is the stored count |
| VoteTheorems.PendingAreBetween | backend/services/vote_service.go:95-102 | the inserts with a pending increment are, one to one, the Casts between insert and HINCRBY |
| VotePurges.InsertsAccounted | backend/services/poll_service.go:152-155 | in every run, Deletes included, inserts ever made = stored + removed votes, whatever is counted |
| VotePurges.ConservationWithDelete | backend/services/vote_service.go:89-104 | conservation with Delete: counter, pending and lost add up to stored and removed votes of the option |
| VotePurges.TokenIncrements | backend/services/vote_service.go:79-104 | a token's increments with its pending and lost ones are its stored and removed votes on the poll, and so are its inserts; at most one is stored |
| VotePurges.PurgeAccounts | backend/repositories/vote_repository.go:97-102 | DeleteMany splits the votes of every kind into those removed and those left |
| VoteTheorems.RebuildDrift | backend/services/vote_service.go:201-228 | at any moment of any run without purge, counter minus stored votes = inserts counted twice minus inserts forgotten, relative to the last rebuild write |
| VoteTheorems.SettledDrift | backend/services/vote_service.go:201-228 | once no Cast is between insert and increment, the forgotten ones are those inserted after the snapshot whose increment ran before the HSET or was lost |
| VoteDrift.DriftWithDelete | backend/services/vote_service.go:201-228 | in every run, Deletes included: the same drift plus the votes removed since the snapshot of the last rebuild write; and against the inserts ever made, less the votes removed before it |
| VoteDrift.DriftStays | backend/services/vote_service.go:89-104 | until a rebuild next writes the field, conservation stays off by the same number in every run |
| VoteTheorems.BaseIsLastWrite | backend/services/vote_service.go:216-226 | the base of a field is moved by the DEL and by the field's own HSET of a rebuild, to what they write, and by no other step of any call |
| VoteTheorems.SnapshotIsStored | backend/services/vote_service.go:208-211 | the aggregate a rebuild takes is the stored count at its time |
| VoteTheorems.NoStraddleNoDrift | backend/services/vote_service.go:201-228 | no drift when insert and increment of every Cast fall on the same side of the rebuild |
| VoteWitnesses.StraddleDrifts | backend/services/vote_service.go:208-226 | a straddling Cast does leave the counter at 2 with one stored vote, nothing failed and no Cast under way |
| VoteWitnesses.StraddleStays | backend/services/vote_service.go:208-226 | and one too high it stays, in every continuation without a rebuild write or a purge |
| VoteWitnesses.StraddleOvercounts | backend/services/vote_service.go:106-130 | the event of that Cast claims two votes where one was ever accepted |
| VoteWitnesses.PurgeAdmitsAgain | backend/services/poll_service.go:152-155 | after a purge one token can raise the counter a second time |
| VoteWitnesses.VoteAfterClose | backend/services/vote_service.go:55-97 | from a reachable state whose poll is closed the next step stores a vote on it |
| VoteWitnesses.RaceLoser | backend/services/vote_service.go:95-97 | two Casts of one token race, and the loser ends with the duplicate-key error |
| VoteRaces.DuplicateKeyIff | backend/services/vote_service.go:79-97 | the insert of a Cast that passed its duplicate check fails with the duplicate-key error if and only if another Cast of its token inserted in between, in every run that does not purge the poll, and succeeds otherwise |
| VoteRaces.TakenIff | backend/repositories/vote_repository.go:28-33 | while a poll is not purged its keys are taken exactly by the inserts made on it |
| VoteTheorems.SnapshotChain | backend/services/vote_service.go:136-153 | without rebuild any two Redis results of a poll are comparable over exactly its option IDs, and equal totals mean equal counts |
| VoteTheorems.OwnVoteSeen | backend/services/vote_service.go:99-125 | a Cast whose own increment was applied sees its own vote in a Redis answer on a poll not rebuilt, and any Cast in a fallback answer on a poll not purged, whatever other calls met |
| VoteTheorems.OneVotePerToken | backend/repositories/vote_repository.go:28-33 | at most one stored vote per (poll, token) always; without purge at most one insert and one increment too |
| VoteTheorems.FallbackTotal | backend/services/vote_service.go:155-165 | the fallback's total is CountByPoll and the number of distinct tokens |
| VoteUnique.MongoSum | backend/repositories/vote_repository.go:61-95 | the per-option aggregate over the option list adds up to CountByPoll |
| VoteUnique.TokensCounted | backend/repositories/vote_repository.go:28-33 | with distinct keys there are as many votes of a poll as tokens |
| VoteUnique.StepKeepsUnique | backend/repositories/vote_repository.go:24-45 | every step keeps (poll, token) unique among stored votes, and inserts of one poll from different tokens until a purge |
| VoteTheorems.NoOvercount | backend/services/vote_service.go:106-130 | without rebuild a published event totals its own counts and claims at most the accepted votes of its poll |
| VoteTheorems.StoredIsTop | backend/services/vote_service.go:106-130 | the stored counts of a clean poll are pointwise at least those of every event |
| VoteTheorems.EventKeys | backend/services/vote_service.go:143-151 | the keys of an event of a clean poll are exactly its option IDs |
| VoteTheorems.SomeEventExact | backend/services/vote_service.go:99-130 | once every Cast on a clean poll has returned, some published event equals the stored counts and tops every other, whatever the publish order |
| VoteEvents.StepKeepsExactness | backend/services/vote_service.go:99-113 | every step keeps: when no Cast of a clean poll is past its insert and short of its read, some Cast has read the exact counts |
| VoteEvents.ReadIsExact | backend/services/vote_service.go:106-111 | a read with no other Cast past its insert gets exactly the stored counts |
| VoteLinks.StepKeepsLinks | backend/services/vote_service.go:50-134 | every step keeps the link between a call's program point, its vote and its mark, and the options it read |
| VoteCounts.StepKeepsNumbers | backend/services/vote_service.go:89-104 | every step keeps each counter equal to its last rebuild write plus the increments applied since |
| VoteCounts.CountByOptionIs | backend/repositories/vote_repository.go:68-95 | the grouped aggregate looked up at any option is the number of its votes |
| VoteResults.StepKeepsResults | backend/services/vote_service.go:106-111 | every step keeps the read log a chain and every answer bounded by the accepted votes |
| PollLifecycle.StatusAbsorbing | backend/services/poll_service.go:113-178 | a closed poll never becomes active again and a deleted one never reappears, in any run |
| PollLifecycle.StepMovesPolls | backend/repositories/poll_repository.go:109-138 | no step changes a poll's options or creator, reopens it or recreates it |
| PollLifecycle.BoundedOvershoot | backend/services/poll_service.go:140-178 | after Close's write or Delete's DeleteOne, stored votes + Casts that had read the poll as active never grows |
| LateVotes.LateVotesExactly | backend/services/vote_service.go:55-97 | from then on at most the late tokens add a vote, in some run they all do, and a vote lands late in some run if and only if some Cast past its read and short of its insert has a token with no stored vote |
| LateVotes.VotersKept | backend/services/vote_service.go:79-97 | the tokens that have voted or still may never gain a member once the poll is closed or deleted, in any run |
| PollLifecycle.VotesNameOptions | backend/services/vote_service.go:67-77 | every stored vote names an option of the poll it was cast on |
| PollLifecycle.OnlyCreatorWrites | backend/services/poll_service.go:121-123 | in any run only a call of the poll's creator changes or removes its document |
| RedisStrings.ScanPrint | backend/services/vote_service.go:147-151 | scanning undoes printing for every 64-bit integer |
| RedisStrings.HIncrByRefines | backend/services/vote_service.go:102-104 | HINCRBY on strings adds one to the integer counter and fails only on overflow |
| RedisStrings.HSetRefines | backend/services/vote_service.go:221-223 | HSET of a printed count sets exactly that integer counter |
| RedisStrings.KeysDiffer | backend/services/vote_service.go:101 | different polls have different hash keys |
| VoteServices.VoteRepository.Create | backend/repositories/vote_repository.go:36-45 | inserts the vote unless its (poll, token) is taken |
| VoteServices.VoteRepository.HasVoted | backend/repositories/vote_repository.go:47-59 | tells whether the (poll, token) key is taken |
| VoteServices.VoteRepository.CountByOption | backend/repositories/vote_repository.go:68-95 | the aggregate loop computes the grouped counts |
| VoteServices.VoteRepository.CountByPoll | backend/repositories/vote_repository.go:61-66 | the number of votes of the poll |
| VoteServices.CountPush | backend/repositories/vote_repository.go:72-93 | one more vote raises its own option's entry and no other |
| VoteServices.PollRepository.Write | backend/repositories/poll_repository.go:109-138 | a named title or description becomes the given one and everything else of the document stays; Close changes the status only; Delete removes it; no other document changes and a missing one is not created |
| VoteCalls.IncrMirrors | backend/services/vote_service.go:99-104 | HINCRBY on the poll's string hash keeps every hash in step with its integer counters, and fails exactly on overflow |
| VoteServices.FillRedisCounts | backend/services/vote_service.go:143-151 | zero for every option, overlaid with every field read |
| VoteServices.FillMongoCounts | backend/services/vote_service.go:160-163 | the stored count of every option, and of nothing else |
| VoteServices.HasOption | backend/services/vote_service.go:67-77 | the search loop finds exactly the poll's option IDs |
| Tallies.Total | backend/services/vote_service.go:113-116 | the loop over a counts map adds up all its values, in any order |
| Tallies.Overlay | backend/services/vote_service.go:147-151 | the loop over the fields overwrites exactly their entries |
| Tallies.SumTallies | backend/services/vote_service.go:113-116 | counts that tally disjoint keys add up to the tally of all |
| VoteCalls.Service.Cast | backend/services/vote_service.go:50-134 | each refusal if and only if its cause is the first; the accepted vote stored and counted once; the answer is the counters, else exactly the stored votes per option with the poll's vote count as total, and the nil map only when both reads fail; it is what gets published |
| VoteCalls.MongoTotal | backend/services/vote_service.go:107-116 | in every reachable state the stored counts of a poll's options add up to its stored votes |
| VoteCalls.Service.Find | backend/services/vote_service.go:55-77 | the poll must be found, active and hold the option, each with its own error, and the call is then past its first read |
| VoteCalls.Service.CheckAndVote | backend/services/vote_service.go:79-97 | the duplicate check and the insert, with the error of each |
| VoteCalls.Service.Tell | backend/services/vote_service.go:99-130 | increment, then the counters, else the stored votes per option, else nothing; published as answered |
| VoteCalls.Service.GetResults | backend/services/vote_service.go:167-199 | counters, else exactly the stored votes per option, else an error; a missing poll and a failed read told apart; the stores stay as they are |
| VoteCalls.Service.InitRedisCounters | backend/services/vote_service.go:201-228 | from any hashes at all, field by field: the stored count wherever an HSET got through, gone if only the DEL did, and otherwise what it was; back in step with the counters once the DEL did, and no other hash touched |
| RedisStrings.FieldSet | backend/services/vote_service.go:217-225 | a field some delivered HSET names holds its printed count, whatever the order and repetitions, and any other is what it was |
| RedisStrings.AllSetsRebuild | backend/services/vote_service.go:217-225 | one HSET per option onto an emptied hash leaves exactly the option IDs with their printed counts |
| VoteCalls.RestMirrors | backend/services/vote_service.go:213-227 | one hash back in step among others in step puts all of them in step |
| VoteCalls.RebuiltReadsStored | backend/services/vote_service.go:136-165 | a rebuilt hash reads as the MongoDB read, on exactly the option IDs |
| VoteCalls.Service.CreatePoll | backend/services/poll_service.go:43-67 | succeeds exactly when the option check passes, the creator is an ID and the insert gets through, each failure told apart; adds that active poll only, its creator's digits in lower case, so the creator later passes the ownership check |
| VoteCalls.Service.Change | backend/services/poll_service.go:113-138 | Update and Close: missing poll, wrong owner and failed command told apart; only the owner's write that gets through changes anything, and of the poll just the fields it names |
| VoteCalls.Service.Delete | backend/services/poll_service.go:140-158 | for the owner exactly the poll's votes go, then the document, even when removing the votes failed; each refusal has its own reason and changes nothing |
| HubInvariants.RunKeeps | backend/websocket/hub.go:34-83 | every run of hub, servers, pumps and subscriber keeps the structure and delivery invariants |
| HubTheorems.ChannelLifeCycle | backend/websocket/hub.go:37-79 | no send on a closed channel, no second close, and closed exactly when the client has left, in every interleaving |
| HubTheorems.InOrderDelivery | backend/websocket/hub.go:62-80 | a client's messages are an in-order subsequence of its room's broadcasts since its registration, contiguous up to its first full buffer |
| HubTheorems.MissedIsLeaving | backend/websocket/hub.go:72-78 | a client that ever missed a broadcast has left or its removal is queued or being queued |
| HubTheorems.RoomsAreClients | backend/websocket/hub.go:38-58 | the nested map is the live clients grouped by their own poll, with no empty room |
| HubTheorems.UnregisterRemovesIff | backend/websocket/hub.go:48-60 | an unregistration not preceded by its registration changes nothing, nor does a second one |
| HubTheorems.UnregisterFirst | backend/websocket/hub.go:37-60 | a client whose unregistration was taken first stays in the room though nobody reads it |
| HubTheorems.SlowClient | backend/websocket/client.go:29 | an undrained client gets at most the rest of its 256 slots and is being removed by the 257th broadcast |
| HubSteps.AdmitsExactly | backend/websocket/hub.go:38-44 | a taken registration puts its client, open and with nothing delivered, in the room of its own poll, which keeps everyone else; nobody else is touched |
| HubSteps.DismissesExactly | backend/websocket/hub.go:48-60 | a taken unregistration closes and removes its client if it is in the room, else changes nothing; nobody else is touched |
| HubSteps.AdmissionCounts | backend/websocket/hub.go:38-44 | the client count of a poll goes up by one with each registration for it, and for no other |
| HubSteps.StartsExactly | backend/websocket/hub.go:62-70 | a broadcast is taken from the front for exactly the clients of its room, each once |
| HubSteps.SendsExactly | backend/websocket/hub.go:72-78 | a client with fewer than 256 messages waiting gets the next one at the end; at 256 it gets nothing and is evicted; nobody else is touched |
| HubSteps.EvictsExactly | backend/websocket/hub.go:77 | an eviction joins the end of the queue as soon as fewer than 256 are pending |
| HubSteps.ReceivesExactly | backend/websocket/client.go:71-83 | a waiting pump takes the oldest message; closed and empty it sends the close frame and returns |
| HubSteps.BatchesExactly | backend/websocket/client.go:85-93 | a batch is the message received, then as many as were waiting, oldest first, and goes out as one frame |
| HubSteps.QueuesExactly | backend/websocket/hub.go:25-32 | the queues take 256 registrations, 256 unregistrations and 1024 broadcasts, in order, and no more |
| HubBlocking.DeadlockWithOneClient | backend/websocket/hub.go:72-78 | one admitted client that nobody drains is enough: a reachable state in which the hub is blocked, in every continuation |
| HubBlocking.FullQueueBlocks | backend/websocket/hub.go:77 | a hub evicting with a full unregister queue stays as it is, whatever else runs |
| HubBlocking.BlocksExactly | backend/websocket/hub.go:62-80 | with readers and pumps running beside it, the hub has blocked in a broadcast if and only if pending unregistrations + full buffers met + readers that ended exceed 256 |
| HubBlocking.BroadcastAccounts | backend/websocket/hub.go:62-80 | during a broadcast nothing leaves the unregister queue, and it grows by one for each full buffer and each reader that ends |
| HubBlocking.FinishesUnlessBlocked | backend/websocket/hub.go:72-79 | a broadcast that never blocks is over after at most two hub steps a target and one more, in every interleaving |
| HubBlocking.HubMovesOn | backend/websocket/hub.go:72-79 | each hub step of a broadcast that is not blocked uses up the measure, and no other step moves the broadcast |
| HubTheorems.WritePumpRefines | backend/websocket/client.go:69-94 | frames flattened, then the batch in hand or lost to a write error, then the buffer, are all the hub enqueued; the flush loop always finds its items |
| HubTheorems.CloseFrameLast | backend/websocket/client.go:73-77 | a close frame comes after every enqueued message was written, once, and last |
| HubTheorems.StoppedIsSilent | backend/websocket/client.go:76-83 | a pump that returned writes nothing more |
| HubOrigin.IncomingStep | backend/websocket/hub.go:93-95 | broadcasts processed, then those queued, are the accepted ones in order |
| HubOrigin.WireFrom | backend/websocket/hub.go:62-75 | every message on a socket was broadcast to that client's own poll |
| HubService.Hub.HandleRegister | backend/websocket/hub.go:38-46 | the client is in its room, open, and its poll's client count is one higher; no other client or count changes |
| HubService.Hub.HandleUnregister | backend/websocket/hub.go:48-60 | a client of the room leaves for good with its channel closed, and its poll's count is one lower; anyone else's unregistration changes nothing |
| HubService.Hub.ClientCount | backend/websocket/hub.go:97-101 | the number of live clients watching the poll |
| HubService.Hub.Targets | backend/websocket/hub.go:64-69 | lists every client of the room once |
| HubService.Hub.HandleBroadcast | backend/websocket/hub.go:62-80 | with nothing else running meanwhile: finishes if and only if pending unregistrations + full buffers fit the queue, and then queues exactly the full ones in order; else ends blocked |
| HubService.Hub.Offer | backend/websocket/hub.go:73-78 | one target: the message goes into its buffer, or its eviction is queued or blocks |
| HubService.FullCount | backend/websocket/hub.go:72-79 | as many evictions as full buffers in the room, whatever the map order |
| WritePump.Client.OnReady | backend/websocket/client.go:71-94 | one batch: everything buffered as one frame joined by newlines, or the close frame, or nothing after a write error |
| WritePump.BatchIsPumpRun | backend/websocket/client.go:79-94 | that batch is the machine's receive, sample, flushes and finish |
| WritePump.SplitJoin | backend/websocket/client.go:85-90 | splitting a frame at newlines gives back its messages when none holds a newline |
| WritePump.LinesDelivered | backend/websocket/client.go:69-94 | in every run the lines on a socket, then the batch in hand or lost, then the buffer, are all the hub gave the client |
| RealtimeService.Subscriber.RegisterHandler | backend/services/realtime_service.go:23-25 | whatever messages come, the new handler gets every parsed one and the other handlers' calls are what they would have been |
| RealtimeService.RegisterAddsCalls | backend/services/realtime_service.go:23-25 | a new handler gets every parsed message from its registration on, and no other handler's calls change |
| RealtimeService.Subscriber.Receive | backend/services/realtime_service.go:56-70 | every handler is called once per parsed message, messages and handlers in order, unparsable ones skipped |
| RealtimeService.HandlerGetsArrived | backend/services/realtime_service.go:56-70 | a handler registered once gets exactly the events that arrive, in publish order |
| EndToEnd.HubHandlerFeedsHub | backend/cmd/server/main.go:56-63 | in every run of the whole, the hub's handler was called for exactly what the broadcast queue has taken in |
| EndToEnd.TakenNeverOvercounts | frontend/src/hooks/useRealtimePoll.ts:36-46 | whatever fails or is lost, an event a hook takes was published, is for its poll, totals its counts and claims at most the accepted votes |
| EndToEnd.ShownWasTaken | frontend/src/hooks/useRealtimePoll.ts:36-66 | in every run a page shows the last event it took, whether its socket is open, closed or gone, and nothing exactly when it took none |
| PageWitness.PageShowsVote | backend/services/vote_service.go:50-134 | and it does happen: a run from one vote through store, counter, channel, hub, pump and socket to the page that shows it |
| EndToEnd.HubGetsPublished | backend/services/realtime_service.go:45-72 | the hub gets the published events that were not lost, in publish order, each once |
| EndToEnd.CarriedWasPublished | backend/websocket/hub.go:62-79 | every message a socket carried was published, for that client's poll |
| EndToEnd.CaughtUpHasAll | backend/websocket/hub.go:62-79 | once all is delivered, the socket of a client present from the start carried every event of its poll, in publish order |
| EndToEnd.ExactResultArrives | backend/services/vote_service.go:127-130 | then the exact stored result is on that socket and tops everything else on it |
| PageResults.ShownIsLastSingle | frontend/src/hooks/useRealtimePoll.ts:36-46 | in every run a page whose socket is open shows the last single-message frame it has read from it, or what it showed when the socket opened |
| PageResults.ExactShownIff | frontend/src/hooks/useRealtimePoll.ts:36-46 | once all is delivered and read, the exact result was on the socket, and the page shows it if and only if the last single-message frame carries it, or there was none and it was shown before |
| PageResults.UnbatchedShowsLast | backend/websocket/client.go:85-90 | when no messages were batched, the page ends up with the last event of its poll in publish order |
| Reconnect.RealtimePoll.Connect | frontend/src/hooks/useRealtimePoll.ts:20-27 | opens a socket only while mounted on a poll, with the status of a first or later attempt |
| Reconnect.RealtimePoll.Effect | frontend/src/hooks/useRealtimePoll.ts:69-71 | mounting connects at once |
| Reconnect.RealtimePoll.OnOpen | frontend/src/hooks/useRealtimePoll.ts:29-34 | an open resets the attempts |
| Reconnect.RealtimePoll.OnMessage | frontend/src/hooks/useRealtimePoll.ts:36-46 | takes a frame of a single message for this poll, ignores any other |
| Reconnect.RealtimePoll.OnClosed | frontend/src/hooks/useRealtimePoll.ts:52-66 | keeps the results, and sets a timer of min(2000 n, 30000) ms or gives up after ten attempts |
| Reconnect.RealtimePoll.OnTimer | frontend/src/hooks/useRealtimePoll.ts:61 | a fired timer connects again, and is no longer pending |
| Reconnect.RealtimePoll.Cleanup | frontend/src/hooks/useRealtimePoll.ts:73-80 | unmounting clears timer and socket |
| Reconnect.OnlyFramesShow | frontend/src/hooks/useRealtimePoll.ts:29-81 | only a single message for the hook's poll on a live socket changes the results; no open, close, timer, mount or unmount does |
| Reconnect.ShowsLast | frontend/src/hooks/useRealtimePoll.ts:36-46 | in every run the results are the last such message |
| Reconnect.ExactlyOne | frontend/src/hooks/useRealtimePoll.ts:20-81 | in every run a hook mounted on a poll has exactly one of socket, pending timer and disconnected, the status agrees, and unmounted it has none |
| Reconnect.ConsecutiveFailure | frontend/src/hooks/useRealtimePoll.ts:56-65 | in every run the n-th close in a row waits min(2000 n, 30000) ms up to n = 10, and a later one gives up |
| Reconnect.NoSocketUnmounted | frontend/src/hooks/useRealtimePoll.ts:73-80 | after unmount nothing happens until the next mount |
| Reconnect.Terminates | frontend/src/hooks/useRealtimePoll.ts:52-66 | while nothing opens, effective signals use up a measure on the attempts left |
| Reconnect.NeverOpensBound | frontend/src/hooks/useRealtimePoll.ts:52-66 | from any hook with k attempts that has not given up: while nothing opens, at most 11 - k sockets and 110000 ms less the first k waits, and it ends disconnected exactly when these are used up |
| Reconnect.ZeroAttemptsBound | frontend/src/utils/constants.ts:9-10 | from a zero attempt count, however reached: the socket at hand and 10 more, 110000 ms, then disconnected |
| Reconnect.FirstMountBound | frontend/src/utils/constants.ts:9-10 | after a first mount that is 11 sockets in all |
| OptionIds.CreatePollRequest.Validate | backend/validators/poll_validator.go:26-81 | accepts exactly the requests within the limits whose every option is admissible, gives the expected options, and refuses with the limit broken or the reason of the first bad option |
| Validators.BuildOptions | backend/validators/poll_validator.go:46-80 | the loop with its one seen map computes the specified options or error, and each option has its trimmed text and the ID brought or one that spells the text in lower case |
| Validators.ValidateOptions | backend/services/poll_service.go:69-85 | no error exactly for 2 to 10 options with distinct texts |
| Validators.SeenIs | backend/validators/poll_validator.go:57-72 | the seen map holds exactly the lower-cased texts and the marked generated IDs so far |
| OptionIds.BuiltExactly | backend/validators/poll_validator.go:46-80 | any list is accepted exactly when each text fits and is claimed by no earlier request, and becomes exactly the expected options |
| OptionIds.AcceptedExactly | backend/validators/poll_validator.go:49-61 | with no text starting with "id:", accepted exactly when all fit and the lower-cased texts are distinct |
| OptionIds.AcceptedByLetters | backend/validators/poll_validator.go:49-61 | the same letter by letter: accepted exactly when every text fits and no two of one length have the same letters in lower case |
| OptionIds.SameLettersRefused | backend/validators/poll_validator.go:57-60 | a text with the letters of an earlier one is refused as a duplicate |
| OptionIds.AcceptedPassesService | backend/services/poll_service.go:69-85 | an accepted request has its trimmed texts in order and passes the service's own check |
| OptionIds.FalseDuplicate | backend/validators/poll_validator.go:58-71 | "foo" then "id:foo" is refused as a duplicate |
| OptionIds.IdIs | backend/validators/poll_validator.go:64-72 | the generated ID is the slug, suffixed exactly when the slug is taken |
| OptionIds.GeneratedIdSpells | backend/validators/poll_validator.go:64-72 | a generated ID is its trimmed text letter by letter in lower case with dashes for spaces, alone or with a dash and its place's run of x |
| OptionIds.SameIdIff | backend/validators/poll_validator.go:63-72 | two options of any accepted list have one ID exactly when both requests brought it, one brought what the other was given, or the later generated one was suffixed onto the earlier plain slug |
| OptionIds.IdsDistinctIff | backend/validators/poll_validator.go:63-78 | the IDs of any accepted list, brought or generated, are pairwise distinct if and only if no two requests meet in that way |
| OptionIds.PlainSlugsDistinct | backend/validators/poll_validator.go:63-72 | they are distinct when no slug ends in a dash and one or more x |
| OptionIds.SharedId | backend/validators/poll_validator.go:63-72 | "a-b-xx", "a b", "a-b" get a shared ID |
| OptionIds.SuppliedId | backend/validators/poll_validator.go:64 | "foo" and "bar", both brought under the ID "x", are accepted under it |
| OptionIds.CastVoteRequest.Validate | backend/validators/vote_validator.go:13-27 | both fields lose exactly the spaces at their ends; accepted exactly with some option and a token of 8 to 128 bytes left; which field an error is about |
| OptionIds.GeneratedIdFound | backend/services/vote_service.go:67-77 | a vote naming a generated ID survives the trim and is found among the options |
| OptionIds.VotableIff | backend/validators/vote_validator.go:14-19 | an option can be voted for exactly when its ID is non-empty and has no space at its ends |
| Texts.TrimDropsSpaces | backend/validators/poll_validator.go:50 | trimming drops only spaces, only at the ends |
| Texts.TrimmedOnce | backend/validators/poll_validator.go:27-28 | a text has one trimmed form only |
| Texts.ByteLenIs | backend/validators/poll_validator.go:30-56 | lengths are counted in UTF-8 bytes: one per character and one more past each of 0x80, 0x800 and 0x10000 |
| Texts.TightTrim | backend/validators/vote_validator.go:14-15 | trimming leaves a text with no space at its ends unchanged |
| Texts.SuffixTells | backend/validators/poll_validator.go:69 | the run of x at the end tells which request was suffixed |

## Left out

- VoteCalls.Service.Cast: as a method it runs without interruption, like the other calls of the class; interleaved
  calls are runs of the state machine the method follows.
- HubService.Hub.HandleBroadcast: as a method it runs with no reader or pump beside it; `HubBlocking.BlocksExactly`
  is the same condition for every interleaving.
- VoteTheorems.OneVotePerToken: one increment per token is stated for polls Delete has not purged, because it fails
  after a purge; `VotePurges.TokenIncrements` gives the exact count.
- Encoding: events are values from the Cast to the hook, so JSON text, its escapes and unparsable payloads are only
  a lost message.
- The `initial` results the page passes to the hook, and which status text it shows for them.
- Timestamps, write deadlines, ping and pong timeouts: a write or read may fail at any time instead.
- What MongoDB and Redis do inside one command, driver retries and timeouts; votes are a sequence and counts are
  read from it at once.
- The hub as concurrent memory: goroutines are steps of one machine and clients are places in a sequence, so
  references, mutexes and races in memory are not modelled.
- Listing polls, share codes, sign-up, login, tokens' randomness, HTTP routing and responses: plumbing or rests on
  libraries not shown.
- UpdatePollRequest: its fields go to `Update` unchecked; nothing to prove.
- Percentages and the leading flag on the page: one-line expressions over floating point.
