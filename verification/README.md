# Verification of the collaboration server

A Dafny model of the server's core, with proofs. Between a row change in Postgres and a message to a browser lie
these stages, and each has its modules here:

| stage | modules |
|---|---|
| the pgoutput decoder | `Utf8`, `ByteReading`, `PgOutputWire`, `PgOutputFormat`, `PgOutput` |
| the WAL reader: transactions, hints, routing, acknowledgement | `WalTypes`, `HintGenerator`, `Router`, `WalLog`, `Replication`, `WalTheorems` |
| rooms: command queue, coordinator, client channels, sessions | `Channels`, `Rooms`, `RoomsProtocol`, `WebSocket`, `RoomsSteps`, `RoomsSessions`, `RoomsInvariants`, `RoomsFifo`, `RoomsSeats`, `RoomsDepartures` |
| reader and rooms joined at the sink | `Sink`, `EndToEnd` |
| the load test that measures loss end to end | `LoadTest` |
| the subscription index and the shared metrics | `SubscriptionIndexing`, `ResourceMetrics` |

**Decoder.** `PgOutputWire` describes payloads of section 55.9 of the PostgreSQL 16 documentation as a syntax
tree that keeps everything on the wire (flags, type OIDs, `n` against `u`, `t` against `b`, `K` against `O`,
repeated old tuples), with a printer; `PgOutputFormat` has the same format field by field and letter by letter,
and what becomes of bytes that are not in it. The imperative parser of `PgOutput` returns what that tree is after
erasure. It accepts exactly the printed trees, no byte string prints two trees, messages form a prefix code,
payloads may be concatenated and cut at message boundaries, and each decoded message holds, column for column,
what stood on the wire.

**WAL reader.** `WalLog` flattens the events to one log of row changes, begins and commits and says in terms of
positions in it what a transaction calls for; begins, commits and changes of the log are the events' own. The event loop, on objects, is proved to leave every field, every
counter and every effect as that log prescribes, in whatever order hash tables are walked. `WalTheorems` draws the
conclusions: LSNs are applied in commit order; between one acknowledgement and the next lies exactly one attempt
for each touched document, and every attempt of the reader lies there.

**Rooms.** `RoomsProtocol` is a transition system; every scheduling choice is in a step's label, and every list of
steps is a run. A broadcast is one step for each entry, so that sends, relays and closings may come in between.
`Rooms.RoomsCoordinator` and `WebSocket.ClientSession` are the same steps as code on objects. `RoomsSessions` tells
from the steps of a run what commands and replies it sends, and proves that the run has just these. All runs keep: a live
session is a member of its room, what has left stays out, accepted broadcasts are processed once and in order. For
every client in every run, what it was sent from rooms is what its channel took of its record of answers, in
order, with one answer for each of its entries; for a room it joined once, that record has no gap
(`RoomsSeats`). `RoomsDepartures` says exactly which entries outlive a client. `LoadTest` carries this through to
the subscriber's gap counter.

**Joined.** The reader's sink offers its invalidations to the rooms in the midst of any run of theirs. Each document
that an acknowledged commit touches has its invalidation turned away and counted, or queued, or broadcast with
one answer for each entry its room had (`EndToEnd`).

**Index and metrics.** The two maps of the index stay converses of each other, so that each answer is a scan of
the live subscriptions. The compare-and-exchange loop keeps a saturated sum under every interleaving, and a
snapshot's average is at most its maximum under an exact condition on what happens between its loads.

Run `dafny verify dfyconfig.toml` in this directory.

## Where the code differs from what is written about it

- A full channel drops the newest item (`src/rooms.rs:144-147`, `docs/architecture.md:49-52`); criterion AC-6.2 of
  `specs/postgres-wal-integration/requirements.md:82` asks for the oldest. The model drops the newest.
- Criterion AC-5.2 (`specs/postgres-wal-integration/requirements.md:70`) ties the LSN to a successful enqueue. The code advances
  it after the attempt, successful or not (`src/wal/replication.rs:262-279`), and so does the model.
- An update of a comment whose new `document_id` is not text yields no hint, not even for the old document
  (`src/wal/hint_generator.rs:11-86`). This happens to an unchanged TOASTed value, which is decoded to null:
  `HintGenerator.AnOldDocumentIsLost` gives the bytes, `HintGenerator.AffectedIsNamedOrLost` shows that nothing else
  is missed.
- Cutting a payload at a message boundary is visible in one case: when the second part does not decode and the first
  holds a message, the whole payload is lost in one piece but only the second part in two
  (`WalLog.BatchingIsInvisible`).
- Splitting a key `table:column:value` at its first two colons gives the hint back exactly when table and column have
  no colon (`WalTypes.KeyInvertible`). Such a hint may still share its key with one whose table or column has a
  colon (`WalTypes.KeysCollideOverColons`). The hints that are generated have none.
- On disconnect only the current room is left (`src/websocket.rs:221-228`). An entry in an earlier room stays, and so
  does that of a join that timed out and of a leave that a full command channel turned away, until a broadcast to
  the room finds the channel closed: `RoomsDepartures.EarlierRoomIsNotLeft`, `TimedOutJoinIsNotLeft` and
  `RejectedLeaveIsLost` are the runs, `SeatsClearExactly` and `LeavingIsComplete` the exact condition.
- A snapshot may report an average above the maximum: in the middle of a call, between its addition and its raise
  (`ResourceMetrics.AverageMayExceedMaximum`), and also when a whole call falls between two of its loads
  (`ResourceMetrics.SnapshotMayExceedMaximum`). `ResourceMetrics.WellLoadedIsExact` is the condition.

## Model

| member | source | states |
|---|---|---|
| ByteReading.ByteReader.ReadBytes | src/wal/byte_reader.rs:57-65 | reads exactly the next bytes or reports truncation without moving; the cursor never passes the end |
| ByteReading.ByteReader.ReadU16 | src/wal/byte_reader.rs:28-31 | reads the next two bytes as a big-endian number, or fails and stays |
| ByteReading.ByteReader.ReadU32 | src/wal/byte_reader.rs:33-36 | reads the next four bytes as a big-endian number, or fails and stays |
| ByteReading.ByteReader.ReadI32 | src/wal/byte_reader.rs:38-41 | reads the next four bytes in two's complement, or fails and stays |
| ByteReading.ByteReader.ReadCString | src/wal/byte_reader.rs:43-55 | reads up to the first NUL and past it; consumes the string even when its UTF-8 is bad, and nothing when there is no NUL |
| ByteReading.CStringComplete | src/wal/byte_reader.rs:43-55 | a NUL-free valid string is read back from its printed form |
| ByteReading.CStringSound | src/wal/byte_reader.rs:43-55 | a string that is read is NUL-free, valid, and stood there with its terminator |
| PgOutput.EraseTuple | src/wal/pgoutput.rs:172-195 | each column in its place: text and binary become text, null and unchanged become null |
| PgOutput.ParseTuple | src/wal/pgoutput.rs:168-199 | the column loop yields these values of the wire tuple at the cursor, or its exact error, and leaves the cursor behind it |
| PgOutput.MessageHolds | src/wal/pgoutput.rs:81-166 | a decoded message holds the id, names and tuples of its wire message |
| PgOutput.ParseRelation | src/wal/pgoutput.rs:81-110 | the same for a relation message: id, namespace, name and column names |
| PgOutput.ParseInsert | src/wal/pgoutput.rs:112-126 | the same for an insert |
| PgOutput.ParseUpdate | src/wal/pgoutput.rs:128-149 | the same for an update, for any number of old tuples, of which the last is kept |
| PgOutput.ParseDelete | src/wal/pgoutput.rs:151-166 | the same for a delete |
| PgOutput.ParsePgOutputMessages | src/wal/pgoutput.rs:63-79 | the message loop returns the erasure of the wire-level reading, or its exact error |
| PgOutputWire.MessagesComplete | src/wal/pgoutput.rs:63-199 | every list of well-formed wire messages is read back from its printed form |
| PgOutputWire.MessagesSound | src/wal/pgoutput.rs:63-199 | whatever is read is well-formed and prints the input |
| PgOutputWire.ReadsExactlyThePrinted | src/wal/pgoutput.rs:63-199 | reading yields a list of messages if and only if the input is that list's printed form |
| PgOutputWire.Unambiguous | src/wal/pgoutput.rs:63-199 | two lists of messages with the same bytes are the same list |
| PgOutputWire.MessageExtend | src/wal/pgoutput.rs:68-75 | more input behind a message changes neither the message nor any error but truncation |
| PgOutputWire.Concatenation | src/wal/pgoutput.rs:63-79 | reading two payloads joined yields the first one's messages and then the second one's outcome, error included |
| PgOutputWire.PrefixCode | src/wal/pgoutput.rs:63-199 | a prefix of a readable payload reads as the first messages exactly at their boundary and is truncated everywhere else |
| PgOutputWire.MessagesSize | src/wal/pgoutput.rs:63-199 | a payload has at least eight bytes for each message and one for each value |
| PgOutputFormat.PrintsTheFormat | src/wal/pgoutput.rs:63-199 | what is printed is the documented format: letters, big-endian numbers, terminated strings, counted columns |
| PgOutputFormat.UnknownTagRejected | src/wal/pgoutput.rs:74 | a message with another tag is rejected with that tag |
| PgOutputFormat.UnknownKindRejected | src/wal/pgoutput.rs:115-160 | a wrong letter before a tuple is rejected as an unknown tag, in an update also behind any old tuples |
| PgOutputFormat.BadValueRejected | src/wal/pgoutput.rs:174-194 | unknown value kinds, negative lengths and bytes that are not UTF-8 are rejected, each with its error |
| PgOutputFormat.BadStringRejected | src/wal/byte_reader.rs:53 | a terminated string that is not UTF-8 is rejected as such |
| PgOutputFormat.RelationContexts | src/wal/pgoutput.rs:82-89 | a relation message that ends early is truncated, and the error names the field |
| PgOutputFormat.ColumnContexts | src/wal/pgoutput.rs:94-99 | the same for a column |
| PgOutputFormat.RowContexts | src/wal/pgoutput.rs:113-183 | the same for rows, tuples and values |
| Utf8.ValidExactly | src/wal/byte_reader.rs:53 | a byte string counts as UTF-8 if and only if it is the encodings of Unicode scalar values, one after the other |
| PgOutput.DecodeExactlyThePrinted | src/wal/pgoutput.rs:63-199 | decoding succeeds exactly on printed payloads, and then yields, message for message and column for column, the ids, names and values that were printed, of old tuples the last |
| PgOutput.DecodeConcatenation | src/wal/pgoutput.rs:63-79 | the concatenation law for decoded messages |
| PgOutput.DecodePrefix | src/wal/pgoutput.rs:63-199 | a prefix decodes to a prefix of the messages or is reported as truncated, and nothing else |
| PgOutput.DecodedSize | src/wal/pgoutput.rs:63-199 | eight times the messages plus the values returned is at most the length of the input |
| WalTypes.BuildTuple | src/wal/types.rs:42-51 | the loop builds the row of names zipped with values |
| WalTypes.RowHoldsLastValues | src/wal/types.rs:42-51 | a row has exactly the relation's columns, and each holds the value at the position where its name stands last, null when there are fewer values |
| WalTypes.KeyInvertible | src/wal/types.rs:11-13 | splitting a key gives its hint back if and only if table and column have no colon; the value may have any |
| WalTypes.KeyIsSpelled | src/wal/types.rs:11-13 | a key is table, column and value in this order, with colons between |
| WalTypes.KeysCollideOverColons | src/wal/types.rs:11-13 | two different hints with the same key, by colons in table and column |
| HintGenerator.GeneratesExactly | src/wal/hint_generator.rs:11-86 | a hint is generated for a change if and only if the values at the named columns call for it |
| HintGenerator.NamesAreSpelled | src/wal/hint_generator.rs:18-81 | the tables are `comments` and `documents`, the columns `document_id` and `id` |
| HintGenerator.EventCarriesChange | src/wal/pgoutput.rs:231-288 | a row event names its relation and carries the old and the new row, each column with its value |
| HintGenerator.GeneratorFailsExactly | src/wal/hint_generator.rs:88-101 | the generator fails if and only if the document of the change is not given as text, and names table and column |
| HintGenerator.GeneratesInOrder | src/wal/hint_generator.rs:42-57 | at most two hints, never one twice; of two, the old document comes first |
| HintGenerator.AffectedIsNamedOrLost | src/wal/hint_generator.rs:11-86 | a document a change affects is named by a hint or lost by an update without a new text `document_id`, which yields no hint at all |
| HintGenerator.HintsNameAffectedDocuments | src/wal/hint_generator.rs:11-86 | the hints name exactly the affected documents if and only if the change loses no document |
| HintGenerator.AnOldDocumentIsLost | src/wal/hint_generator.rs:35-40 | for every document there are bytes that decode to an update which affects it and yields no hint: the new `document_id` comes as an unchanged TOASTed value |
| Router.TransactionBuffer.AddAll | src/wal/transaction.rs:11-13 | the buffer becomes the union |
| Router.TransactionBuffer.Take | src/wal/transaction.rs:15-17 | hands over all hints and leaves none |
| Router.Route | src/wal/router.rs:9-19 | each document with a hint has a bucket of just its hints, each once, in any order |
| Router.RoutedExactly | src/wal/router.rs:9-27 | a hint is in the bucket of a document if and only if it is of one of the two kinds and the document is its value |
| Router.RoutingConserves | src/wal/router.rs:9-27 | every generated hint lands in exactly one bucket; buckets hold one or two hints and removing duplicates leaves them alone |
| Router.DedupeRoutedHints | src/wal/router.rs:30-35 | each bucket becomes its first occurrences; the documents stay |
| Router.RetainFirsts | src/wal/router.rs:32-33 | `retain` with a seen set keeps the first occurrences |
| Router.DedupeKeepsFirsts | src/wal/router.rs:30-35 | removing duplicates keeps the elements, in the order of their first positions |
| Router.DedupeHasNoDuplicates | src/wal/router.rs:30-35 | the result has no duplicates |
| Router.DedupeIsIdempotent | src/wal/router.rs:30-35 | doing it twice is doing it once |
| WalLog.ProcessedIsLongestConflictFree | src/wal/replication.rs:218-221 | the reader acts on the longest prefix of the log without a changed relation |
| WalLog.RelationsAreStable | src/wal/pgoutput.rs:206-229 | in such a log all relation messages of an id are equal, and rows are read with the first |
| WalLog.PendingIsCalled | src/wal/replication.rs:227-251 | a hint is buffered at a position if and only if some change since the latest begin, with no commit between, calls for it |
| WalLog.BatchingIsInvisible | src/wal/replication.rs:212-247 | cutting a payload behind a decodable part leaves the log the same if and only if the second part decodes or the first is empty |
| WalLog.LogIsHeard | src/wal/replication.rs:210-296 | the begins and commits of the log are the Begin and Commit events before the one that ends the stream, in order, with LSN and time; its changes are the messages of the payloads that decode |
| WalLog.EventAdds | src/wal/replication.rs:212-283 | what each event adds to the log; a keepalive nothing |
| WalLog.KeepAliveIsInvisible | src/wal/replication.rs:281-283 | dropping a keepalive anywhere leaves the log the same |
| WalLog.EndCutsOff | src/wal/replication.rs:284-295 | an event that ends the stream adds nothing, and nothing behind it does |
| WalLog.ProcessedCommits | src/wal/replication.rs:252-280 | without a changed relation the commits acted upon are all Commit events heard; with one, those before it |
| WalLog.KnownRowsCounted | src/wal/replication.rs:227 | the count of events consumed counts each row of a known relation once |
| Replication.CacheHoldsFirst | src/wal/pgoutput.rs:206-229 | the cache holds for each id the first relation message of the log, and no more |
| Replication.CacheIsFirstInLog | src/wal/pgoutput.rs:206-229 | an id is cached if and only if a relation message names it, with the relation of the first such message of the log |
| Sink.Outside.SendInvalidation | src/wal/sink.rs:30-42 | one broadcast command with the keys of the hints, in their order, among any other steps of the rooms; the outcome is the command channel's answer |
| Sink.SendKeepsCoupled | src/wal/sink.rs:30-42 | the invalidations offered to the rooms stay the attempts of the reader, in order and with their outcomes |
| Sink.OwnStepsKeepCoupled | src/websocket.rs:41-137 | whatever the rooms do by themselves offers no invalidation |
| Replication.WalReader.PgOutputToWalEvent | src/wal/pgoutput.rs:201-296 | the event of a row of a known relation, nothing for unknown ones and repeated relations, and a stop with the cache unchanged on a changed one |
| Replication.WalReader.HandleMessage | src/wal/replication.rs:217-242 | one message moves the reader to the log with that message, or stops it where the log conflicts |
| Replication.WalReader.HandleRow | src/wal/replication.rs:227-241 | a row event is counted, and its hints join those of the open transaction, if there is one |
| Replication.WalReader.HandleXLogData | src/wal/replication.rs:212-248 | a payload moves the reader over its messages up to a conflict; one that does not decode moves nothing |
| Replication.WalReader.HandleCommit | src/wal/replication.rs:252-280 | a commit makes the attempts of the open transaction, closes it and then applies the LSN |
| Replication.WalReader.HandleBegin | src/wal/replication.rs:249-251 | a begin opens an empty transaction and forgets an open one |
| Replication.WalReader.Deliver | src/wal/replication.rs:258-273 | one attempt for each destination of the hints, in any order, and full answers counted |
| Replication.WalReader.DeliverOne | src/wal/replication.rs:262-272 | one attempt with the routed hints; a full channel is counted, a closed one is not |
| Replication.FullCounted | src/wal/replication.rs:266-268 | the count of events dropped counts each attempt that a full channel turned away once |
| Replication.WalReader.HandleEvent | src/wal/replication.rs:211-296 | each event moves the reader as its items do, and the ending ones stop it |
| Replication.WalReader.Run | src/wal/replication.rs:147-299 | after any stream: cache, open transaction, applied LSN, both counters and the whole trace of effects are those of the processed log |
| WalTheorems.AppliesCommitsInOrder | src/wal/replication.rs:252-280 | the applied LSNs are the commit LSNs of the log, in its order |
| WalTheorems.BlockOfCommit | src/wal/replication.rs:252-280 | every commit has its block: all that lies between its acknowledgement and the one before it, and the earlier ones are those of the commits before |
| WalTheorems.CommitInvalidatesTouched | src/wal/replication.rs:258-273 | between the two acknowledgements each touched document is attempted exactly once and no other is; the keys are those of its hints, each once |
| WalTheorems.CommitOfAttempt | src/wal/replication.rs:258-273 | every attempt of the reader lies in the block of a commit |
| WalTheorems.LogIsDelivered | src/wal/replication.rs:212-280 | the three together: commits acknowledged in order, each with the attempts it calls for, and no other attempts |
| WalTheorems.ReadLog | src/wal/replication.rs:147-299 | the same for the reader on every stream of events, from a fresh start and with any rooms at the other end; the LSNs it applies are those of the Commit events heard, all of them when no relation changes |
| WalTheorems.GeneratedKeyInvertible | src/wal/sink.rs:36-41 | the key of every generated hint determines the hint |
| WalTheorems.AffectedIsTouchedOrLost | src/wal/hint_generator.rs:11-86 | a document is affected by some change of the transaction if and only if it is touched or an update of the losing kind names it |
| Rooms.RoomsCoordinator.HandleJoin | src/rooms.rs:93-110 | adds one entry at the end of the room, made if need be, and answers |
| Rooms.RoomsCoordinator.HandleLeave | src/rooms.rs:111-130 | removes all entries of the client from that room, and the room with its last entry |
| Rooms.RoomsCoordinator.OfferTo | src/rooms.rs:142-152 | one entry is offered the message, and a full channel is counted |
| Rooms.RoomsCoordinator.DropFailed | src/rooms.rs:155-165 | the clients that failed lose their entries, and an empty room goes |
| Rooms.RetainKeepsTheOthers | src/rooms.rs:113 | retaining keeps just the entries of the other clients, in their order |
| Rooms.OtherRoomsStay | src/rooms.rs:111-165 | a leave and the end of a broadcast change that room alone, by retaining the others, and leave no empty room |
| Rooms.RoomsCoordinator.HandleBroadcast | src/rooms.rs:131-166 | when nothing else touches the channels: offers the message to each entry in order, counts the full ones and drops the clients that failed |
| Rooms.RoomsCoordinator.Handle | src/rooms.rs:87-170 | each command changes rooms, channels, answers and the counter as specified |
| Rooms.FanoutFillsChannels | src/rooms.rs:141-152 | in a fan-out that nothing interrupts, each channel gets one copy for each entry that names it, as far as it has room; other channels get none |
| Rooms.OutcomesAreAnswers | src/rooms.rs:141-152 | in such a fan-out an entry is answered closed, or full when the entries before it used the room up, or sent |
| Rooms.BroadcastDropsClosed | src/rooms.rs:155-165 | after such a fan-out, with one channel for each client, exactly the entries with closed channels go, in order, and no other room changes |
| RoomsProtocol.CoordinateWith | src/rooms.rs:91-167 | the coordinator object does what each step of the coordinator says: take a command, offer to an entry, drop who failed |
| RoomsProtocol.UninterruptedCommand | src/rooms.rs:91-167 | the steps of a command, with no other step between them, amount to the one call on the object |
| WebSocket.AppState.TrySendCommand | src/rooms.rs:23-67 | a command is queued, or turned away as full or closed with the queue unchanged |
| WebSocket.AppState.SendCounted | src/websocket.rs:60-73 | a command lost to a full channel is counted once and reported as a failed send |
| WebSocket.ClientSession.HandleClientMessage | src/websocket.rs:41-137 | a client message moves the objects as the step of the transition system does, up to the error report; the session waits exactly when its join was accepted |
| WebSocket.ClientSession.Receive | src/websocket.rs:169-204 | one turn of the receive loop is the receive step, errors told to the client included |
| WebSocket.ClientSession.FinishJoin | src/websocket.rs:75-93 | the end of a join is the answer step or the timeout step |
| WebSocket.ClientSession.LeaveAtEnd | src/websocket.rs:221-228 | the end of the connection is the leave step |
| RoomsProtocol.StepKeepsConsistent | src/rooms.rs:87-170 | no step breaks the structure: rooms are not empty, entries name their client's channel, queues keep their bounds |
| RoomsProtocol.CountAfterDrop | src/rooms.rs:155-156 | the end of a broadcast takes a client's entries away if and only if it failed, and in no other room |
| RoomsSessions.QueueIsOfCommands | src/rooms.rs:23-67 | in every run the command channel holds, in order, the commands it took that the coordinator has not taken up; joins, texts, leaves and invalidations are spelled out |
| RoomsSessions.OffersAreBroadcasts | src/websocket.rs:96-135 | the broadcasts offered are those the frames and the sink call for, with sender, room and text, and whether they were taken |
| RoomsSessions.LossesAreCounted | src/websocket.rs:61-66 | the counter of lost commands is, modulo 2^64, the number of session commands that found the channel full, leaves included |
| RoomsSessions.RepliesAreThoseCalledFor | src/websocket.rs:41-204 | in every run, what a client was told other than by rooms are the replies its steps call for, in order, as far as its channel had room: Joined, SendFailed, NotInRoom, InvalidMessage |
| RoomsSessions.RelayHandsOver | src/websocket.rs:150-164 | a relay appends exactly the oldest message of the channel to what the client received, takes it off, and touches no other client |
| RoomsSessions.OnlyRelayHandsOver | src/websocket.rs:150-164 | no other step brings a client a message or takes one from its channel |
| RoomsSessions.SessionsAreAsTold | src/websocket.rs:139-229 | in every run a client has session and channel from its connection on, 256 places in each channel, an open channel until it is closed, and as current room that of its latest answered join |
| RoomsInvariants.EveryRunIsGood | src/rooms.rs:87-170 | every reachable state is consistent, keeps membership and departures, and loses or repeats no accepted broadcast |
| RoomsInvariants.LiveSessionsAreMembers | src/websocket.rs:52-87 | in every reachable state a live session with an open channel whose current room is d has an entry in room d, rejected and timed-out joins notwithstanding |
| RoomsInvariants.LeftRoomsStayLeft | src/websocket.rs:221-228 | once a leave was carried out, no later state has an entry of that client in that room |
| RoomsInvariants.CoordinateKeepsConserved | src/rooms.rs:131-166 | accepted broadcasts are the processed ones followed by the queued ones, in order, and the drop counter counts the full answers |
| RoomsInvariants.FullDeliveriesCounted | src/rooms.rs:144-147 | the drop counter counts each full answer once |
| EndToEnd.OffersAreAccounted | src/rooms.rs:55-67 | every offered broadcast of every run was turned away, or is queued in its turn, or was taken up with one answer for each entry its room had |
| EndToEnd.CommitReachesRooms | src/wal/replication.rs:252-280 | each document an acknowledged commit touches has its invalidation, with the keys of its hints, turned away as full, queued, or broadcast to its room |
| EndToEnd.RunServer | src/wal/replication.rs:147-299 | the same for reader and rooms from a fresh start, on every stream of events |
| RoomsFifo.EveryClientIsServed | src/rooms.rs:131-166 | for every client in every run: the room messages it was sent are those its channel took, in the order of the broadcasts, one answer for each of its entries, and closed answers last |
| RoomsSeats.EveryEntryAnswers | src/rooms.rs:141-152 | when a broadcast is over, each client has answered once for each entry it had when the broadcast was taken up |
| RoomsSeats.EverySeatIsKept | src/rooms.rs:93-130 | every entry stems from an accepted join that was carried out; since its latest join a client that is once not in the audience is out for good |
| RoomsSeats.RoomDeliveryIsFifo | src/rooms.rs:91-152 | for a room joined at most once, whatever else the client joined: its answers are for different broadcasts of the room, in order, since the join; none is missing while it has its entry; all are sent or full while its channel is open |
| RoomsDepartures.SeatsClearExactly | src/rooms.rs:111-165 | in every run, a client has no entry in a room if and only if no join of it was carried out, or its leave was, or a broadcast since the latest join found its channel closed |
| RoomsDepartures.LeavingIsComplete | src/websocket.rs:221-228 | once its leave of d is carried out, a client has no entry anywhere if and only if each room it joined is d or was broadcast to since, with the channel found closed |
| RoomsDepartures.BroadcastAfterClosingClears | src/rooms.rs:148-156 | a broadcast taken up after the channel closed clears the client's entries of its room |
| RoomsDepartures.EarlierRoomIsNotLeft | src/websocket.rs:221-228 | a run of a client that joined two rooms and is gone: its entry in the first one stays |
| RoomsDepartures.TimedOutJoinIsNotLeft | src/websocket.rs:75-85 | a run of a client whose join timed out and was carried out all the same: it leaves no room, and its entry stays |
| RoomsDepartures.RejectedLeaveIsLost | src/websocket.rs:221-228 | a run in which the full command channel turns the leave away: the client is gone, no leave is queued, its entry stays |
| LoadTest.CountGaps | src/bin/loadtest.rs:270-312 | the receive loop counts the numbered messages and the sum of the jumps between them |
| LoadTest.NumbersListPayloads | src/bin/loadtest.rs:285-296 | the numbers counted are those of the payload messages, each once, in their order, and of no others |
| LoadTest.GapsCountMissing | src/bin/loadtest.rs:298-303 | for ascending numbers that sum is the count of the numbers missing between first and last |
| LoadTest.EachNumberOffered | src/bin/loadtest.rs:342-363 | every number below the producer's count was offered once, and either taken or turned away |
| LoadTest.NumbersBetween | src/rooms.rs:60-66 | between two numbers the client was sent, a number was sent unless the command channel or the client's channel was full for it |
| LoadTest.LossIsAccountedFor | src/bin/loadtest.rs:298-303 | in any stretch of what the client received, numbers ascend and a number is missing if and only if one of the two full channels dropped it |
| LoadTest.GapsAreDrops | src/bin/loadtest.rs:298-303 | for every run with one producer, and a subscriber that joined its room once: the gaps in any stretch it received sum up to the number of messages lost between its first and its last |
| LoadTest.RunSubscriber | src/bin/loadtest.rs:270-312 | the receive loop on such a stretch reports just that number |
| SubscriptionIndexing.SubscriptionIndex.Subscribe | src/edge/subscription_index.rs:73-93 | registers a new subscription in both maps; a known one is an error that changes nothing |
| SubscriptionIndexing.SubscriptionIndex.Unsubscribe | src/edge/subscription_index.rs:100-113 | removes a subscription from both maps and returns its hints; an unknown one changes nothing |
| SubscriptionIndexing.SubscriptionIndex.UpdateHints | src/edge/subscription_index.rs:124-158 | replaces the hints of a known subscription by removing and adding the differences; an unknown one is an error that changes nothing |
| SubscriptionIndexing.SubscriptionIndex.SubscriptionsForHint | src/edge/subscription_index.rs:164-166 | the lookup is the scan of all subscriptions for the hint |
| SubscriptionIndexing.SubscriptionIndex.IsEmpty | src/edge/subscription_index.rs:172-174 | empty exactly when no subscription is left |
| SubscriptionIndexing.SubscriptionIndex.PerformAll | src/edge/subscription_index.rs:73-166 | after any run, the lookup of a hint is the live subscriptions whose last registered hints contain it |
| SubscriptionIndexing.LastIsKept | src/edge/subscription_index.rs:73-158 | what is kept for a subscription is what its own operations registered last |
| SubscriptionIndexing.RegisterKeepsConverse | src/edge/subscription_index.rs:84-89 | adding one hint keeps the maps converses of each other |
| SubscriptionIndexing.UnregisterKeepsConverse | src/edge/subscription_index.rs:103-110 | removing one hint keeps them so, with no empty set left behind |
| SubscriptionIndexing.ConverseIsUnique | src/edge/subscription_index.rs:57-62 | the subscriptions determine the inverted map |
| SubscriptionIndexing.UpdateIsResubscribe | src/edge/subscription_index.rs:124-158 | updating gives both maps as unsubscribing and subscribing anew does |
| SubscriptionIndexing.UnsubscribeUndoesSubscribe | src/edge/subscription_index.rs:73-113 | subscribing and unsubscribing restores both maps |
| SubscriptionIndexing.LinksAreCountedTwice | src/edge/subscription_index.rs:73-158 | both maps hold the same number of links and no hint is kept for nobody, so the index cannot leak |
| ResourceMetrics.EveryRunIsAccounted | src/metrics.rs:72-87 | in every state of every interleaving the sums are the saturated sums of the completed additions, the maxima those of the completed raises, the last values stored ones, and samples the count modulo 2^64 |
| ResourceMetrics.AdvanceKeepsAccounts | src/metrics.rs:72-87 | one atomic access: an exchange that succeeds adds its reading once, stale loads and failed exchanges add nothing, a raise raises, and the other fields stay |
| ResourceMetrics.InterleavingIsInvisible | src/metrics.rs:121-130 | two finished runs with the same readings in any orders end with the same sum, which is the capped total, and the same maximum |
| ResourceMetrics.AverageIsFloor | src/metrics.rs:94-95 | the average is the quotient rounded down, and 0 without samples |
| ResourceMetrics.SnapshotReportsFloor | src/metrics.rs:89-95 | the average a snapshot of any run reports is the capped total of the readings added, over the samples counted, rounded down |
| ResourceMetrics.AverageWithinMaximum | src/metrics.rs:89-95 | whatever happens between the loads of a snapshot: if every call added by the load of the sum is raised by the load of the maximum, and they are no more than the samples loaded, the average is at most the maximum |
| ResourceMetrics.WellLoadedIsExact | src/metrics.rs:89-95 | that condition is exact: it holds if and only if the average is at most the maximum for all readings, below 2^32 calls |
| ResourceMetrics.SettledWithinMaximum | src/metrics.rs:89-95 | when all loads see one state with no call between its addition and its raise, and the count has not wrapped, the average is at most the maximum |
| ResourceMetrics.AverageMayExceedMaximum | src/metrics.rs:80-82 | a run that ends between the two shows an average above the maximum |
| ResourceMetrics.SnapshotMayExceedMaximum | src/metrics.rs:89-116 | two whole calls with the reading 5, the second between the loads: an average of 10 and a maximum of 5, with no call under way at any load |

## Left out

- Postgres connections, setup SQL, slot polling and its gauges, URLs and environment: the model starts at the stream of replication events.
- The libraries below (`pgwire_replication`, `tokio`, `axum`, JSON): replication events, bounded FIFO channels with sent, full and closed outcomes, and an ordered relay to the socket stand for them.
- The clock: timestamps are parameters, and the 250 ms wait of a join may end at any time.
- Reconnect and backoff, the cache and the refetch of queries: the repository describes them and does not implement them.
- Logging, error display, the static page, latency histograms, the sampling of CPU and memory.
- Text as anything but bytes: strings are UTF-8 byte sequences, checked by section 4 of RFC 3629.
- The unsynchronised abort in `handle_socket` (`src/websocket.rs:215-218`): a session leaves after its receive loop ended, or while it waits for a join with its channel closed.
- Sessions as one object with awaits: the stretches between awaits are methods and the waiting itself is a phase of the transition system.
- Channels as shared objects: they are entries of a table by name, and the last handle's closing of the command channel, which ends the coordinator, is not a step.
- A negative value length is reported as truncated although more bytes do not help; the model keeps the code's error.
- LoadTest.CountGaps: counts without bound, because 64-bit counters cannot wrap in a run of the load test.
- ResourceMetrics.WellLoadedIsExact: says nothing of 2^32 calls and more, where the sum of equal readings may saturate.
- ResourceMetrics.EveryRunIsAccounted: takes each call's accesses in program order; what another thread may see of their order under relaxed ordering is not modelled. That the exchange loop ends is not claimed.
- RoomsSeats.RoomDeliveryIsFifo: is for a room the client joined at most once, as two joins bring each message twice; `RoomsFifo.EveryClientIsServed` is for all others.
- Rooms.RoomsCoordinator.HandleBroadcast: is the broadcast without interruption, on one thread; `RoomsProtocol` has it entry by entry.
