# Chirp: a verified model of its core protocols

Chirp is a serverless LAN messenger. Every node keeps a bbolt store and talks to
its peers over encrypted sessions that can die at any moment. This project models
the protocols that the delivery and trust promises rest on, and proves those
promises for every run, every reachable state and every input.

| part | files | main results |
|---|---|---|
| One-to-one delivery | `Delivery*.dfy` | `StoredIsAPrefixOfQueued`, `EverythingArrives`, `UnforcedFlushBreaksOrderIff`, `DeliveredIsStored`, `CanFinishIffEncodable`, `HandledIffWithinTheLimit` |
| Store indexes and history | `ByteOrder`, `Keys`, `Cursor`, `Sorting`, `MessageDb`, `Conversation`, `MessageStore` | every transaction keeps three buckets in agreement; a byte-key cursor walk is the last rows of one peer |
| Resumable files | `File*.dfy` | `FileDataIsVerified`, `OverlappingIsVerified`, `ResumeOffsetIsCorrect`, `ResumedTransfer` |
| Rooms, one handler after the other | `Members`, `RoomDb`, `RoomRows`, `RoomRules`, `RoomEffects`, `RoomTwins` | what every event and command does; `OutsidersCannotTouchARoom`, `OutsidersSpareMessages`, `JoinedByConsent`, `RunGood` |
| Rooms, overlapping handlers | `RoomRaces`, `RoomConflicts`, `RoomDelivery`, `RoomSends`, `RoomEarly`, `RoomDelays`, `RoomTraffic`, `Reactions`, `RoomStore` | `RacesKeepGood`, `UndisturbedIsSerial`, `LateOutsiderIff`, `LateCreatorIff`, `DeliveredMeansAckedIff`, `TooEarlyIff`, `MembersShowTheSame` |
| Session and framing | `Session`, `Framing`, `Envelopes`, `Encodings`, `Names` | `ReceivedIsPrefixOfSent`, `StreamReadsBack`, `MsgTextDetermines`, everything sent fits a frame |
| Sessions, trust, rate | `Links`, `Peers`, `RateLimit` | `OneOpenLinkPerName`, `NewestWins`, `PinFollowsHistory`, `RateIsBounded` |

State that the source changes in place is a class (`Store`, `Files`, `Link`,
`Rooms`, `Registry`, `Pins`, `Conn`, `Pipe`) whose methods are proved equal to
functions on values; the theorems about runs are stated on those functions. A
protocol is a state machine: a list of steps by either end, by the user, by third
parties and by the network, in any order. A room handler is two steps, the lookup of
the room and the write, with anything in between; a send goes on to queue its message
for one member after the other. In `FileRaces` a file call is taken apart in the same
way, into its single reads and writes.

## What is assumed

- Ids generated by a node are fresh, and unguessable by others. Where outbox keys
  matter they are 32 bytes long, which the wire format enforces.
- Names have passed `ValidateName`: trimmed, not empty, no control characters, so
  no NUL. Case folding and trimming are those of ASCII.
- A store holds fewer than 2^64 - 2 rows over its lifetime.
- Each bbolt transaction is atomic. File writes are separate steps; a crash may fall
  between any two, or inside the temp write of a chunk. Encryption at rest and
  JSON storage are the identity.
- The cipher is ideal: only the two ends can make a ciphertext that opens under
  the session key, and it opens under one nonce only.
- File calls: `FileSafety` and `FileTransfer` take them one at a time, each a list of
  writes that the calls of other links do not enter. `FileRaces` drops that: there calls
  overlap at every read and write, and complete files are verified as long as no two
  calls are at work on the same file. That condition is needed, see below.
- SHA-256 is an arbitrary function. Where the sender is honest, `lib` is the file
  that a hash names.
- Send order: at most one open link per pair of nodes, nobody deletes messages, a
  session's forced flush starts before any unforced one on it, and a flush left over
  from an earlier link records attempts from then on only on messages that a flush of
  this session has had in its snapshot, or on those of other peers. Both last
  conditions are needed, see below.
- Room authorisation: no peer carries our own display name. What is proved for
  handlers that run one after the other holds for overlapping ones when each write
  lands on the record its handler looked up (`UndisturbedIsSerial`).

## Where the code falls short of its description

- **Send order is conditional.** The documentation promises send order outright
  (docs/PROTOCOL.md:192). An unforced flush skips what is still in backoff
  (internal/node/node.go:544). `UnforcedFlushBreaksOrderIff` gives the exact condition
  under which such a flush can break the order: it finds a message that was tried
  before, that the receiver will not hold, and that a later one can be sent past. Two
  ways lead there. A new message's own flush can run before the session's forced one
  (node.go:463, 524): `UnforcedFlushReorders`. And forced flush first is not enough: a
  flush picks its link before it waits for the link's lock (node.go:531-537), which a
  file transfer may hold (node.go:640-672), so one that waited on a replaced link can
  record an attempt on a newer message and fail on the dead connection:
  `LateAttemptReorders`.
- **Overlapping room handlers undo each other.** A handler saves the record it looked
  up, whatever has become of the room since (internal/node/rooms.go:704-829). A create
  that looked before we held the room and is written after the owner's takes the room
  over, creator and all (`RoomIsSeized`). A leave that looked before the creator removed
  somebody brings them back (`RemovedMemberReturns`), one that looked before the creator
  removed us brings the deleted room back as joined (`DeletedRoomReturns`), one that
  looked before we accepted makes the room pending again (`AcceptanceIsLost`), and a
  message that was checked before the room was deleted is stored without one
  (`MessageWithoutARoom`). For each of these the condition is exact, over every event
  and whatever it looked up: `LateCreatorIff` for the creator, `LateOutsiderIff` for
  what somebody other than the creator may do to the record (`LateLeaveIff` for leaves),
  `LateStateIff` for a room that is joined, `RevivesIff` for one that is not,
  `LateSaveIff` and `LatePostIff` for messages being in joined rooms.
- **A room's messages go with a room of another's.** Records are kept under the id as it
  is spelled, messages and outbox entries under its lower-case form
  (internal/store/store.go:1126-1150), and `checkID` admits upper-case digits
  (internal/proto/proto.go:334-342). So whoever invites us to a room with the same id in
  other letter case, and removes us from it, erases the messages of a room in which they
  never were: `TwinErasesMessages`. `OutsiderSparesIff` and, for late writes,
  `EventSparesIff` give the exact condition, and without such twins outsiders leave the
  messages alone (`OutsidersSpareMessages`).
- **A malformed quoted id blocks a conversation.** `SendReply` checks the body but
  not `replyTo` (internal/node/node.go:499-518); `Encode` then refuses the message,
  and the flush closes the link on every session (node.go:551-555).
  `BadQuoteNeverFinishes` is the run. `CanFinishIffEncodable` gives the exact
  condition under which everything pending can be delivered, and
  `UnencodableBlocks` shows that nothing queued behind such a message arrives.
- **A full partial never completes.** When the resume offset equals the file size the
  sender sends no chunk, and the receiver verifies only on a chunk.
  `ResumedTransfer` states completion if and only if the offset is below the size;
  `FullPartialIsReachable` reaches the other case with one crash.
- **A room message is called delivered too early.** `MarkRoomDelivered` looks for waiting
  members in the room the ack names, not in the message's room
  (`AckForAnotherRoomDelivers`). And it looks for entries, while the send is still
  putting them in, one transaction per member (internal/node/rooms.go:213-229): an ack
  that comes in between delivers, and the entries put afterwards stay for good, because
  an ack for a delivered message returns before the delete (internal/store/store.go:1277):
  `AckDuringSendDelivers`. If the send dies in between, members are never sent to:
  `AckAfterDeadSendDelivers`. `TooEarlyIff` gives the exact condition, the sends at work
  included. For acks that name the message's own room, `DeliveredMeansAckedIff` says
  exactly when delivered means that everybody it was sent to has acked.
- **A completion can be overtaken.** `CompleteFile` reads the record, hashes, and sets the
  status in separate transactions (internal/store/files.go:211-253). A header from
  another link under the same id in between leaves a complete file whose bytes are not
  those its hash names: `CompletionIsOvertaken`. `LandKeepsHashedIff` and
  `LateCompletionIff` give the exact condition.
- **An acked room message can stay undelivered.** The same check looks for any entry of
  a member, not for one of the message acked (internal/store/store.go:1293-1298).
  `ConfirmDelivers` gives the exact condition, and `AckedButNotDelivered` a run after
  which every ack has come, the outbox is empty, and a message is still not delivered.
- **The rate limit is per window, not per second.** A window admits 100 messages, and
  one second can touch two windows. The exact bound for a closed second is 199
  (`RateIsBounded`, `BoundIsReached`).

## Model

| member | source | states |
|---|---|---|
| `DeliveryTheorems.StoredIsAPrefixOfQueued` | internal/node/node.go:530-558 | In every run with arbitrary session drops, rate limits and restarts, under the send-order conditions above, what each end has stored from the other is a duplicate-free prefix, in order, of what the other queued. |
| `DeliveryTheorems.DeliveredIsStored` | internal/node/link.go:146-165 | In every run, with any flush order, loss, repetition or deletion, a message marked delivered has been stored by its addressee, who still holds it exactly once unless it deleted something. |
| `DeliveryTheorems.LogIsHeld` | internal/node/link.go:146-153 | A receiver that deletes nothing holds exactly what it ever stored, in order of arrival. |
| `DeliveryTheorems.ArrivedDistinct` | internal/store/store.go:631-635 | A consistent store never lists two inbound messages with one id. |
| `DeliveryReordering.UnforcedFlushBreaksOrderIff` | internal/node/node.go:530-558 | From every state in which the receiver is in step: some walk of an unforced flush, read in some way, ends out of order if and only if the snapshot holds a message that was tried before and that the receiver will not hold, before one that can be encoded, with everything before that one tried or encodable. |
| `DeliveryReordering.FlushedNeverBreaks` | internal/node/node.go:543-546 | In a disciplined run, once the forced flush of the session has begun, no unforced flush can break the order. |
| `DeliveryReordering.UnforcedFlushReorders` | internal/node/node.go:543-546 | For any two message ids: a disciplined run from the start after which an unforced first flush of the session can break the order. |
| `DeliveryReordering.LateAttemptReorders` | internal/node/node.go:531-547 | For any two message ids: a disciplined run with the forced flush first, after which one late attempt by a flush of a replaced link is what lets the next unforced flush break the order. |
| `DeliveryCompletion.EverythingArrives` | internal/node/node.go:460-464 | Every disciplined run whose pending messages can be encoded can be continued, in the same discipline and without new messages, until what the receiver has stored equals what was queued. |
| `DeliveryCompletion.NothingPendingMeansAllStored` | internal/store/store.go:786-809 | After every disciplined run with nothing pending, stored equals queued, in order. |
| `DeliveryOrder.RunOrderly` | internal/node/node.go:460-464 | The order invariant (no gap on the wire, everything else still in the flush snapshot or untried) holds in every disciplined run. |
| `DeliveryOrder.ActOrderly` | internal/node/node.go:530-558 | Every permitted step of one end keeps the order invariant in both directions. |
| `DeliveryOrder.HeadIsNext` | internal/node/node.go:537-551 | The head of the flush snapshot is a message the receiver has, or will have once the wire is drained, or exactly the next one it lacks. |
| `DeliverySafety.RunSafe` | internal/store/store.go:693-727 | In every run acks are sent and believed only for messages the acking end has stored. |
| `DeliverySafety.ActSafe` | internal/node/link.go:134-165 | Every step, including crashes of the session, deletions and traffic with third parties, keeps that agreement. |
| `DeliveryRate.OpenWithinTheLimit` | internal/node/link.go:122-145 | Every run, either end: a session is still open only if the read loop, given the times at which messages were read in it, would be, and its counter and window are the loop's; a new session starts afresh. |
| `DeliveryRate.HandledIffWithinTheLimit` | internal/node/link.go:134-160 | Every run, either end: a message that is read is stored and owed an ack if and only if the read loop, after what was read before it in the session, lets it through; otherwise the link is closed and the store is as it was. |
| `DeliveryRate.SessionIsSparse` | internal/node/link.go:122-145 | With a clock that does not go back, no closed second of an open session holds more than 199 messages read. |
| `DeliveryEvents.ComposeQueues` | internal/node/node.go:499-519 | A message is queued, and recorded as sent to the peer, if and only if its id is new and its body is 1 to 4096 bytes of UTF-8; nothing else changes. |
| `DeliveryEvents.AckIsRead` | internal/node/link.go:161-165 | The ack read marks the message it names delivered if it is ours to that peer, up to case, and touches no other message. |
| `DeliveryEvents.TryRecords` | internal/store/store.go:730-749 | An attempt on the head of a flush is counted and dated on that message alone; a deleted message is passed by. |
| `DeliveryEvents.ErasedAre` | internal/store/store.go:812-864 | Each way of deleting takes away exactly the messages it is about: one id, one queued id, the settled ones before a cutoff, those with a peer, or all. |
| `DeliveryEvents.ForeignIsStored` | internal/store/store.go:625-663 | A message with a third party is stored under the next number and disturbs no other. |
| `DeliveryEvents.ForeignAckIsTaken` | internal/store/store.go:693-727 | The ack of a third party marks delivered only what is ours to them. |
| `DeliveryEvents.WireFits` | internal/node/node.go:547-556 | Every run: a message on the wire has a text that, with its tag, is at most 65535 bytes long. |
| `DeliveryProgress.OneSessionDelivers` | internal/node/node.go:460-464 | From any consistent state whose pending messages can be encoded, one reconnection with a forced flush, read within the rate limit and acked, leaves nothing pending. |
| `DeliveryBlocking.CanFinishIffEncodable` | internal/node/node.go:499-526 | After every run: some continuation without deletions leaves nothing pending if and only if every pending message has an empty or well-formed quoted id. |
| `DeliveryBlocking.FinishedMeansStored` | internal/node/node.go:530-558 | When such a continuation has finished, every message that was addressed to the peer has been stored there. |
| `DeliveryBlocking.UnencodableStays` | internal/proto/proto.go:142-147 | In every run a message with a malformed quoted id stays pending as long as it exists. |
| `DeliveryBlocking.UnencodableBlocks` | internal/node/node.go:551-555 | In every disciplined run nothing queued at or after such a message ever arrives. |
| `DeliveryBlocking.BadQuoteNeverFinishes` | internal/node/node.go:516-519 | A first message with any id, quoting anything that is no id, can never be delivered. |
| `MessageDb.AddKeeps` | internal/store/store.go:625-663 | Storing keeps rows, id index and outbox in agreement, stores under the next number, makes no other id known and disturbs no other row; a known id changes nothing. |
| `MessageDb.DeliverKeeps` | internal/store/store.go:693-727 | An ack keeps the agreement and turns delivered exactly the message it names, if that is outbound and addressed to the acking peer, up to case. |
| `MessageDb.AttemptKeeps` | internal/store/store.go:730-749 | Recording an attempt keeps the agreement and every message up to its attempt count and time. |
| `MessageDb.DropKeeps` | internal/store/store.go:922-948 | Deleting rows together with their index and outbox entries keeps the agreement and exactly the other messages. |
| `MessageDb.DeleteWhereKeeps` | internal/store/store.go:828-832 | Deleting by predicate keeps the agreement and exactly the messages outside the predicate. |
| `MessageDb.DeleteOneKeeps` | internal/store/store.go:854-864 | Deleting one message keeps the agreement, removes exactly that id and leaves every other message as it was. |
| `MessageDb.UnqueueKeeps` | internal/store/store.go:812-825 | Taking a message out of the outbox deletes it if and only if it is outbound and not delivered, and no other. |
| `MessageDb.AboutKeeps` | internal/store/store.go:601-611 | Deleting what is about a peer removes exactly the messages with that name, up to case; the others stay as they are. |
| `MessageDb.PruneKeepsUnsent` | internal/store/store.go:836-851 | Pruning removes exactly the messages before the cutoff that are not still to be sent, and leaves the others and the outbox as they were. |
| `Conversation.SelectMeans` | internal/store/store.go:786-809 | The selection of a peer's rows holds exactly the rows it describes, in strictly increasing order. |
| `Conversation.HistoryMeans` | internal/store/store.go:752-783 | The history with a peer holds exactly the messages under that name, trimmed and up to case, in strictly increasing order. |
| `Sorting.IncreasingUnique` | internal/store/store.go:950-956 | Strictly ordered lists with the same messages are equal, so any correct sort yields the selection. |
| `Conversation.AddTalks` | internal/store/store.go:643-662 | A stored message is appended to the sent or the arrived list of its own peer and to no other list. |
| `MessageStore.Store.AddMessage` | internal/store/store.go:625-663 | The transaction on the store object: keeps its invariant, reports a duplicate, otherwise stores the message under the next sequence number. |
| `MessageStore.Store.MarkDelivered` | internal/store/store.go:693-727 | Succeeds exactly for a known outbound message addressed to the acking peer, up to case, reports whether the status changed, and leaves the state `Deliver` describes. |
| `MessageStore.Store.RecordAttempt` | internal/store/store.go:730-749 | Counts the attempt on a known message and keeps the invariant; unknown ids change nothing. |
| `MessageStore.Store.DeleteMessages` | internal/store/store.go:922-948 | The collect-then-delete loops remove exactly the matching messages from all three buckets. |
| `MessageStore.Store.PruneOlder` | internal/store/store.go:836-851 | Removes exactly the delivered or inbound messages older than the cutoff, counts them, and leaves the outbox unchanged. |
| `MessageStore.Store.DeleteMessage` | internal/store/store.go:854-864 | Removes one message from all three buckets, or reports it unknown. |
| `MessageStore.Store.DeleteFromOutbox` | internal/store/store.go:812-825 | Removes a message if and only if it is outbound and undelivered, and no other. |
| `MessageStore.Store.Messages` | internal/store/store.go:752-783 | The cursor walk returns the end of that peer's history, oldest first: as many messages as asked for if that is 1 to 1000, otherwise 200, or all there are. |
| `MessageStore.Store.PendingMessages` | internal/store/store.go:786-809 | Returns exactly the undelivered outbound messages of the peer, or of all peers, sorted and without repetition. |
| `ByteOrder.BigEndianOrder` | internal/store/store.go:615-620 | Byte order of fixed-width big-endian counters is numeric order. |
| `ByteOrder.BigEndianRoundTrip` | internal/store/store.go:615-620 | A counter that fits is read back from its bytes. |
| `ByteOrder.PrefixBlock` | internal/store/store.go:767 | Keys that share a prefix are adjacent in byte order. |
| `ByteOrder.LessMeans` | internal/store/store.go:615-620 | The order of keys is decided by the first byte in which they differ, and a proper prefix comes first. |
| `Names.EqualFoldMeans` | internal/store/store.go:368 | Two names fold to one another exactly when they have the same length and differ in nothing but the case of letters. |
| `Names.LowerMeans` | internal/store/store.go:368 | Folding changes the case of letters alone, and leaves no capitals. |
| `Names.TrimMeans` | internal/store/store.go:368 | Trimming takes exactly the blanks at either end. |
| `Names.IdMeans` | internal/proto/proto.go:334-342 | A string is an id if and only if it is the hexadecimal text of sixteen bytes, in either case. |
| `Keys.UpperIsLastKey` | internal/store/store.go:759-766 | The eight 0xff bytes a walk seeks to are the key of the last possible sequence number. |
| `Keys.PrefixIsolates` | internal/store/store.go:759-767 | A NUL-terminated prefix matches the keys of one name only, whatever follows it. |
| `Keys.KeyBytesInjective` | internal/store/store.go:615-620 | Different rows have different keys on disk. |
| `Cursor.BucketKeys` | internal/store/store.go:757-758 | A bucket yields each of its keys once, in strictly increasing byte order. |
| `Cursor.WalkBack` | internal/store/store.go:761-776 | Stepping back while the prefix matches takes consecutive keys of that name and stops at the limit, a foreign key or the start. |
| `Cursor.NothingBehind` | internal/store/store.go:767-776 | A walk that stopped at a foreign key has passed every key of the name. |
| `Cursor.WalkIsTail` | internal/store/store.go:757-783 | What was walked over is the end of the name's keys in sequence order. |
| `Cursor.Recent` | internal/store/store.go:752-783 | Seek, walk back and reverse give the last limit keys of the name, oldest first. |
| `Sorting.InsertionSort` | internal/store/store.go:950-956 | The in-place sort leaves a sorted rearrangement. |
| `Sorting.ReverseInPlace` | internal/store/store.go:779-781 | The two-ended swap loop leaves the array reversed. |
| `FileSafety.FileDataIsVerified` | internal/store/files.go:211-273 | With file calls taken one at a time: whoever sends on however many links and wherever the process dies, a complete file has data, and the data returned hashes as recorded and is at least as long as recorded. Overlapping calls: `FileRaces.OverlappingIsVerified`. |
| `FileRaces.OverlappingIsVerified` | internal/store/files.go:110-253 | However the reads and writes of file calls interleave, over any number of links and the user's commands, with failures, crashes and torn writes: if no two calls are at work on the same file, a complete file has data and the data returned hashes as recorded. |
| `FileRaces.LandKeepsHashedIff` | internal/store/files.go:211-253 | Any single read or write of any file call keeps complete files verified if and only if it does not set the status over data that is missing or hashes otherwise, replace the data of a complete file by data that does, or remove the directory of a complete file. |
| `FileRaces.LateCompletionIff` | internal/store/files.go:211-253 | Every interleaving: a completion whose bytes are still in place sets the status rightly if and only if the record, should there be one, still names the hash that was checked. |
| `FileRaces.CompletionIsOvertaken` | internal/store/files.go:211-253 | For any content and any other hash: a run in which another link's header comes between the check and the status, and the file is complete under the other hash. |
| `FileRaces.AloneIsStep` | internal/store/files.go:110-253 | Run to its end without interruption, the reads and writes of a call do what the event does as one step: same disk, same state of the link. |
| `FileRaces.HandledAlone` | internal/node/link.go:182-237 | From any state in which the link is free, with whatever other calls pending, some run handles an event exactly as that one step. |
| `FileSafety.RunSound` | internal/store/files.go:110-253 | With file calls taken one at a time: in every run complete files are verified, and for every link in the middle of a file the temp file is at least as long as the record says. |
| `FileSafety.ResumeOffsetIsCorrect` | internal/store/files.go:110-155 | After every run of honest headers, chunks, retransmits, refused chunks, reconnects and crashes, a resume offset counts bytes that are on disk and are the file's own. |
| `FileSafety.RunPartials` | internal/store/files.go:158-199 | In every such run the first min(received, temp length) bytes of a receiving file are those of the file its hash names. |
| `FileSafety.WriteSlice` | internal/store/files.go:158-165 | Writing a slice of the file keeps the bytes that were right and makes the slice right. |
| `FileTransfer.SendChunks` | internal/node/node.go:666-710 | The sender loop emits the chunks from the answered offset on, starting from zero when the answer is out of range. |
| `FileTransfer.ChunksJoinUp` | internal/node/node.go:686-710 | The chunks from an offset on follow one another without gap, join up to the rest of the file, and have 32768 bytes each but for the last. |
| `FileTransfer.FeedCompletes` | internal/node/link.go:210-237 | Chunks from any offset up to the high-water mark, short of the end, finish with the file complete and equal to the original. |
| `FileTransfer.ResumedTransfer` | internal/node/node.go:666-713 | From every reachable partial, resuming completes the file intact if and only if the resume offset is below its size. |
| `FileTransfer.UnresumedTransfer` | internal/node/node.go:666-713 | Without the resume capability every non-empty file completes intact from every reachable partial. |
| `FileTransfer.FullPartialIsReachable` | internal/node/link.go:226-231 | One crash between recording the last chunk and verifying leaves a partial whose resume offset is the file size. |
| `FileStore.Files.BeginReceive` | internal/store/files.go:110-155 | Reuses a partial only for the same hash and size while receiving, and leaves the state after its last write. |
| `FileStore.Files.WriteChunk` | internal/store/files.go:158-199 | Writes first, refuses a chunk beyond the high-water mark, otherwise advances the mark to at most the size. |
| `FileStore.Files.CompleteFile` | internal/store/files.go:211-253 | Succeeds exactly when the file is receiving, full and hashes as advertised, and then the temp bytes are its data. |
| `FileStore.Files.ReadFile` | internal/store/files.go:391-400 | Returns data only of a complete file. |
| `FileStore.Files.AddOutboundFile` | internal/store/files.go:74-99 | Stores data, then record and outbox entry. |
| `FileStore.Files.MarkFileSent` | internal/store/files.go:317-335 | Takes the file out of the outbox, marks its record sent in full, and changes nothing else. |
| `FileStore.Files.CancelReceive` | internal/store/files.go:276-294 | Removes exactly a receiving file, record first and bytes after. |
| `FileEffects.OutboundIsQueued` | internal/store/files.go:74-99 | A file to be sent has its bytes, a queued record that describes them, and a place in the outbox; no other file is touched. |
| `FileEffects.SentIsMarked` | internal/store/files.go:317-335 | A file that was sent is not in the outbox, its record says sent and counts all of it, and nothing else changes. |
| `FileEffects.AttemptIsMarked` | internal/store/files.go:408-425 | An attempt resets what was sent; a queued file turns sending, any other status stays. |
| `FileEffects.OutboxIsLeft` | internal/store/files.go:338-355 | A file taken out of the outbox is queued again in its record and keeps its bytes. |
| `FileEffects.DeletedIsGone` | internal/store/files.go:428-440 | Nothing is left of a deleted file, and everything of the others. |
| `FileEffects.CancelledIsGone` | internal/store/files.go:276-294 | Cancelling removes record and bytes of a file that is being received, and changes nothing otherwise. |
| `FileEffects.HeaderTakes` | internal/store/files.go:110-155 | A header makes the link take the file; it reuses exactly the bytes that are both counted and on disk, if hash and size match and they do not exceed the size, and otherwise starts over. |
| `FileEffects.WriteAtMeans` | internal/store/files.go:158-165 | A write at an offset puts its bytes there, keeps the others, and fills a hole with zeros. |
| `FileEffects.ChunkCounts` | internal/store/files.go:158-199 | A chunk at or before the high-water mark is written at its place, moves the mark to its end if that is further, at most to the size, and changes nothing else. |
| `FileEffects.GapEndsTheTransfer` | internal/node/link.go:210-222 | A chunk beyond the mark, or without a record, ends the transfer and leaves records and data as they are. |
| `FileEffects.LastChunkSettles` | internal/store/files.go:211-253 | The chunk that fills a file has it either complete and readable as the bytes received, if they hash as recorded, or failed with its partial discarded. |
| `FileStore.Link.TakeHeader` | internal/node/link.go:182-207 | A header makes the link take the file and answers the resume offset. |
| `FileStore.Link.TakeChunk` | internal/node/link.go:210-237 | Ignores chunks of another file, closes the link exactly on a refused chunk, and completes the file when it is full. |
| `Session.ReceivedIsPrefixOfSent` | internal/session/session.go:160-188 | Whatever the network drops, repeats, reorders or alters, the envelopes received are a prefix of those sent (sections 3 and 5.1 of the Noise Protocol Framework). |
| `Session.RunLockstep` | internal/session/session.go:160-188 | In every run frame i on the wire seals message i and a living receiver has read as many messages as its counter says. |
| `Session.GapIsFatal` | internal/session/session.go:174-188 | Any frame but the next one kills the receiver and yields nothing. |
| `Session.DeadStaysSilent` | internal/node/link.go:126-131 | After an error nothing more is ever received. |
| `Session.InOrderDeliversAll` | internal/session/session.go:160-188 | An undisturbed network delivers every message, so the prefix is not empty for lack of runs. |
| `Session.Conn.Send` | internal/session/session.go:160-172 | Seals under the next nonce and advances the sending counter alone. |
| `Session.Conn.Recv` | internal/session/session.go:178-188 | Opens only what carries the expected nonce, advances the receiving counter alone, and is dead after any failure. |
| `Framing.StreamReadsBack` | internal/proto/proto.go:55-84 | Any list of frames written back to back reads back as that list, whatever incomplete tail follows. |
| `Framing.OnlyReading` | internal/proto/proto.go:70-84 | Every byte string is exactly the frames it reads as followed by the leftover: there is no other parse. |
| `Framing.StreamInjective` | internal/proto/proto.go:55-84 | Two frame lists with the same bytes are the same list. |
| `Framing.CutStream` | internal/proto/proto.go:70-84 | A stream cut at any byte yields a prefix of the frames, never a wrong one. |
| `Framing.FrameIs` | internal/proto/proto.go:55-67 | A payload can be framed if and only if it has 1 to 65535 bytes, and its frame is two bytes that say how many, the higher one first, and the payload. |
| `Framing.Pipe.WriteFrame` | internal/proto/proto.go:55-67 | Refuses exactly empty and oversized payloads, and otherwise appends header and payload in one write. |
| `Framing.Pipe.NextFrame` | internal/proto/proto.go:70-84 | Consumes exactly one frame when a whole one is there; a failed read consumes the header of an empty frame, or all there is. |
| `Envelopes.EscapeGrowth` | internal/proto/proto.go:142-147 | JSON escaping costs at most six bytes per byte, for any byte string (section 7 of RFC 8259). |
| `Envelopes.Base64Length` | internal/proto/proto.go:29-36 | The exact length of a base64 text (section 4 of RFC 4648). |
| `Envelopes.MsgFits` | internal/node/node.go:551 | Every message `flush` builds fits a frame, tag included. |
| `Envelopes.RoomMsgFits` | internal/node/rooms.go:574-581 | Every room message `flushRoomMember` builds fits a frame. |
| `Envelopes.ChunkFits` | internal/proto/proto.go:29-36 | A chunk fits a frame exactly when its base64 text leaves room for the rest of the envelope and the tag: all that the format admits do, and none of 48 KB or more. |
| `Encodings.BodyIsText` | internal/node/node.go:499-503 | A body may be queued if and only if it is 1 to 4096 bytes long and the UTF-8 of some Unicode characters (section 3 of RFC 3629). |
| `Encodings.EscapeReadsBack` | internal/proto/proto.go:142-147 | An escaped text, read as a JSON string, gives the text back and stops at its closing quote, whatever follows (section 7 of RFC 8259). |
| `Encodings.Base64ReadsBack` | internal/proto/proto.go:29-36 | Base64 reads back as the bytes encoded (section 4 of RFC 4648). |
| `Encodings.MsgTextDetermines` | internal/node/node.go:551 | The text of a message determines its id, time, body and quoted id. |
| `Encodings.RoomMsgTextDetermines` | internal/node/rooms.go:574-581 | The text of a room message determines its id, time, body, room and number. |
| `Encodings.ChunkTextDetermines` | internal/node/node.go:686-710 | The text of a chunk determines its file, its place and its bytes. |
| `RateLimit.RateIsBounded` | internal/node/link.go:122-145 | For nondecreasing clocks what is accepted is a prefix of what arrived, and no closed second, of 1000000000 nanoseconds, holds more than 199 of it. |
| `RateLimit.BoundIsReached` | internal/node/link.go:122-145 | Some clock lets 199 messages through within one second. |
| `RateLimit.HundredPass` | internal/node/link.go:122-145 | A hundred messages are let through however fast they come. |
| `RateLimit.HundredAndFirstCloses` | internal/node/link.go:136-145 | Of more than a hundred within a second of the first, a hundred pass and the next one closes the link. |
| `RateLimit.NextWindowOpens` | internal/node/link.go:136-141 | A message more than a second after the first of a window opens the next one, however full the last one is. |
| `RateLimit.ReadLoop` | internal/node/link.go:122-145 | The loop accepts and closes as the step-by-step specification says. |
| `Links.OneOpenLinkPerName` | internal/node/node.go:446-474 | Under every interleaving of establishing, breaking, cleaning up and stopping, at most one registered link per folded name is open, and it is the live one. |
| `Links.OnlyItselfRemoves` | internal/node/node.go:466-471 | A live entry goes only by the end of that very link or by a newer session with the same name. |
| `Links.RunRegistered` | internal/node/node.go:446-474 | In every run each open link is the live one of its name, and each live entry is registered under its name. |
| `Links.NewestWins` | internal/node/node.go:446-453 | In every run the newest session wins: it is open and the live one of its name, the one that was live before it is closed, and no other entry or link changes. |
| `Links.EndedIsGone` | internal/node/node.go:466-471 | In every run a session that ends is closed, and its name has no live link unless a newer one has taken over, which stays. |
| `Links.BrokenIsClosed` | internal/node/node.go:464-466 | A connection that breaks is closed at once and stays registered until its session ends. |
| `Links.StopClosesAll` | internal/node/node.go:174-193 | Stopping the node closes every open link and no entry goes by that. |
| `Links.Registry.Register` | internal/node/node.go:446-453 | Registering makes the new link open and live, closes the one it replaces, and is the step of the specification. |
| `Links.Registry.EndSession` | internal/node/node.go:466-471 | Ending a session closes it, removes its live entry only if that is still its own, and leaves the entries of others alone. |
| `Peers.PinFollowsHistory` | internal/store/store.go:529-611 | Over any history the pinned key is the first key since the last forget, or the key last seen when the user last accepted; fingerprint, pending key and verified mark follow the history too. |
| `Peers.DatesFollowHistory` | internal/store/store.go:529-566 | Over any history the name and first date are those of the first handshake since the last forget, the last date is that of the latest handshake with the pinned key, and a pending key carries the date of its handshake. |
| `Peers.VerifiedIsAboutThisKey` | internal/store/store.go:568-598 | A record is verified only if the user's last verification said yes while the key pinned now was pinned. |
| `Peers.PinStays` | internal/store/store.go:529-566 | No handshake moves a pin: only an accept that replaces it does. |
| `Peers.Pins.Handshake` | internal/store/store.go:529-566 | Accepts exactly the pinned key, pins an unknown name, and never replaces a pinned key. |
| `Peers.Pins.AcceptPendingKey` | internal/store/store.go:581-598 | Replaces key and fingerprint by the pending ones and clears the verified mark; fails without a pending key. |
| `Peers.Pins.MarkVerified` | internal/store/store.go:568-577 | Changes the mark of a known peer only. |
| `Peers.Pins.ForgetPeer` | internal/store/store.go:601-611 | Removes exactly that peer's pin; if there was one, exactly the messages with that name, up to case, go too and the others stay as they are; if not, nothing changes. |
| `RoomRules.OutsidersCannotTouchARoom` | internal/node/rooms.go:704-829 | Any sequence of room events from peers other than the recorded creator, one handled after the other, leaves a held room's name, creator and state, and all members but senders who left. Late writes: `RoomConflicts.LateOutsiderIff`; messages: `RoomTwins.OutsidersSpareMessages`. |
| `RoomRules.OutsiderEvent` | internal/node/rooms.go:704-829 | One such event changes nothing but, for a leave, the sender's own membership. |
| `RoomRules.CreatorIsFixed` | internal/node/rooms.go:704-829 | No remote event, handled at once, changes the creator of a room that stays held. Late writes: `RoomConflicts.LateCreatorIff`. |
| `RoomRules.CreatorIsFixedThroughout` | internal/node/rooms.go:722-752 | Over any sequence of remote events, each handled at once, a room that stays held keeps its creator. |
| `RoomRules.JoinedByConsent` | internal/node/rooms.go:486-511 | In every run of handlers one after the other a joined room was accepted or created by the user at some step and has been held as joined ever since. |
| `RoomRules.GuestsOnlyLeave` | internal/node/rooms.go:248-404 | In a room somebody else created, no local command changes its name or creator, or its members except by leaving it. |
| `RoomRules.LeavingHandsOver` | internal/node/rooms.go:329-370 | A creator who leaves hands the room to the first remaining member and removes nobody else; without others the room is deleted. |
| `RoomEffects.CreatorRenames` | internal/node/rooms.go:817-827 | The creator's rename gives a held room that name and changes nothing else. |
| `RoomEffects.CreatorAdds` | internal/node/rooms.go:757-785 | The creator's join makes the members exactly the old ones and the newcomer, sorted, unless they are there up to case, are the creator, or there are 32; nothing else changes. |
| `RoomEffects.CreatorRemoves` | internal/node/rooms.go:786-802 | The creator's remove makes the members exactly the old ones without that one, up to case; of us it deletes the room. |
| `RoomEffects.CreatorRecreates` | internal/node/rooms.go:704-735 | The creator's repeated create sets name and people to those given, if we are among them and they are at most 32 up to case; nothing else changes. |
| `RoomEffects.CreateInvites` | internal/node/rooms.go:735-752 | A create of a room not held makes it its sender's, with the people given, and pending. |
| `RoomEffects.PeerLeaves` | internal/node/rooms.go:803-814 | A leave takes its sender off the list, up to case, and nobody else. |
| `RoomEffects.NobodyElseMatters` | internal/node/rooms.go:704-829 | Any other event from somebody who is not the creator, or about a room not held, changes nothing at all. |
| `RoomEffects.MakesRoom` | internal/node/rooms.go:34-83 | A new room needs a name and 1 to 31 others, and then has that name, exactly us and those people, and is ours and joined. |
| `RoomEffects.OwnerAdds` | internal/node/rooms.go:248-286 | The owner, and nobody else, adds somebody who is not a member while there are fewer than 32. |
| `RoomEffects.OwnerDrops` | internal/node/rooms.go:288-326 | The owner, and nobody else, drops a member other than themselves; found up to case, but taken off by exact spelling. |
| `RoomEffects.OwnerRetitles` | internal/node/rooms.go:377-404 | The owner, and nobody else, gives the room another name that is not empty. |
| `RoomEffects.AcceptJoins` | internal/node/rooms.go:486-511 | Accepting turns a pending room we are in into a joined one, and changes nothing else. |
| `RoomEffects.DeclineDeletes` | internal/node/rooms.go:515-534 | Declining deletes a pending room and leaves a joined one alone. |
| `RoomEffects.GuestQuits` | internal/node/rooms.go:329-370 | A guest who leaves is taken off the list and the room kept for the others; with nobody left it is deleted. |
| `RoomEffects.MessageArrives` | internal/node/rooms.go:624-661 | A peer's message is stored, as theirs and received, if and only if both of us are in the room and we have joined it; nothing else changes. |
| `RoomEffects.MessageLeaves` | internal/node/rooms.go:169-219 | Our message is stored, queued, if and only if it has 1 to 4096 bytes and we are in the room and have joined it. |
| `RoomEffects.EntryPut` | internal/store/store.go:1417-1421 | Queueing for a member puts one entry under room, member and message, folded and parted by colons. |
| `RoomEffects.AckCounts` | internal/node/rooms.go:681-695 | An ack from a member of the room it names, for a message not delivered yet, removes that member's entry, marks the message delivered if nobody of that room has an entry left, and changes nothing else; any other ack changes nothing. |
| `RoomEffects.ReactionArrives` | internal/node/rooms.go:450-468 | A peer's reaction flips its own pair, and nothing else, if and only if both of us are in the joined room, the message is of that room, and the pair is there or there are fewer than 128. |
| `RoomEffects.WeReact` | internal/node/rooms.go:408-447 | Our reaction does the same under the same conditions, if it has an emoji. |
| `RoomRules.RunGood` | internal/node/rooms.go:34-83 | In every such run each room has at most 32 members, sorted and distinct up to case, rows and index agree, and every room message belongs to a held, joined room. |
| `RoomRules.DecideGood` | internal/node/rooms.go:831-870 | Whatever good record a handler looked up, the record it saves has at most 32 members, sorted and distinct up to case. |
| `RoomRules.RemoteKeepsCreator` | internal/node/rooms.go:722-752 | Whatever a remote event looked up, it saves the creator and the state it found; a room it did not find is its sender's and pending. |
| `RoomRules.OnlyConsentJoins` | internal/node/rooms.go:486-500 | Whatever a handler looked up, it saves a joined record only if it found one, or the user accepts or creates the room. |
| `RoomRows.WritesIndexed` | internal/store/store.go:1153-1188 | Any room writes in any order keep the message index a bijection between ids and rows. |
| `RoomRows.AddRowMeans` | internal/store/store.go:1153-1188 | A new message becomes known as it is, under the next number, and disturbs no other; a known id changes nothing. |
| `RoomRows.DropMeans` | internal/store/store.go:1126-1150 | Deleting a room removes its record, and exactly the messages and entries under its folded id. |
| `RoomRows.WriteKeepsHeldIff` | internal/store/store.go:1114-1188 | A write keeps every message inside a joined room if and only if it posts into a room that is joined now, and saves no room with messages as pending. |
| `RoomRaces.RacesKeepGood` | internal/node/rooms.go:704-829 | Every interleaving of lookups, writes and failures: at most 32 members, sorted, distinct up to case, and rows and index in agreement. |
| `RoomRaces.JoinedOnlyAfterConsent` | internal/node/rooms.go:486-511 | Every interleaving: a joined room, or a handler holding one as joined, implies that the user accepted or created it at some earlier time. |
| `RoomRaces.CreatorHasFounded` | internal/node/rooms.go:735-752 | Every interleaving: the creator of a room is a peer who sent us that room, or we who made it, or the first other member of a record of ours that we looked up to leave. |
| `RoomRaces.LookedEarlier` | internal/node/rooms.go:624-629 | A handler about to write holds the record of the moment it looked, at some earlier tick. |
| `RoomRaces.UndisturbedIsSerial` | internal/node/rooms.go:704-829 | If every write lands on the record its handler looked up, the interleaving ends in the state of the handlers run one after the other, in the order of their writes. |
| `RoomRaces.UndisturbedIsHeld` | internal/node/rooms.go:624-661 | In such an interleaving every message is in a held, joined room. |
| `RoomRaces.UndisturbedConsent` | internal/node/rooms.go:486-511 | In such an interleaving a joined room was accepted or created at some write and has been joined ever since. |
| `RoomRaces.OverlappingOutsiders` | internal/node/rooms.go:704-829 | However outsiders' events overlap, if each write lands on the record its handler saw, a held room keeps name, creator, state and all members but the senders who leave. |
| `RoomConflicts.LatePostIff` | internal/node/rooms.go:624-661 | A message stored late keeps every message in a joined room if and only if its room is still joined then. |
| `RoomConflicts.LateSaveIff` | internal/store/store.go:1114-1123 | A record saved late keeps every message in a joined room if and only if the room has none, or was joined when looked up, or the user is accepting or creating it. |
| `RoomConflicts.LateStateIff` | internal/store/store.go:1114-1150 | With or without messages: a joined room is joined after any late write if and only if the write does not drop it, and what it saves was joined when looked up or is the user's consent. |
| `RoomConflicts.LateCreatorIff` | internal/node/rooms.go:704-829 | Any remote event, whatever it looked up: a held room keeps its creator through the late write if and only if the write does not drop it, and what it saves names that creator, who is the one looked up or else the sender. |
| `RoomConflicts.LateOutsiderIff` | internal/node/rooms.go:704-829 | Any late event of somebody who is not the creator now: the room stays as it is but for that peer if and only if nothing is written, or it is a leave and nothing else about the room has changed since it looked. |
| `RoomConflicts.RevivesIff` | internal/store/store.go:1114-1123 | A late write makes a room joined without consent if and only if it saves a record that was joined when looked up. |
| `RoomConflicts.LateLeaveIff` | internal/node/rooms.go:803-814 | A late leave leaves the room as it is but for the leaver if and only if nothing else about the room has changed since it looked. |
| `RoomConflicts.MessageWithoutARoom` | internal/node/rooms.go:624-661 | For any four people: a run that ends with a stored message whose room is not held. |
| `RoomConflicts.RemovedMemberReturns` | internal/node/rooms.go:786-814 | For any four people: a run in which an outsider's leave brings back the member whom the creator has removed. |
| `RoomConflicts.DeletedRoomReturns` | internal/node/rooms.go:786-814 | For any four people: a run in which an outsider's leave brings back, as joined, the room from which we were removed. |
| `RoomConflicts.AcceptanceIsLost` | internal/node/rooms.go:486-500 | For any four people: a run in which an outsider's leave makes a room pending that the user has accepted. |
| `RoomConflicts.RoomIsSeized` | internal/node/rooms.go:722-752 | For any four people: a run in which a create that looked before the owner's was handled replaces the name and the creator of the held room. |
| `RoomTwins.OutsiderSparesIff` | internal/store/store.go:1126-1150 | An outsider's event leaves the messages and entries of a held room alone if and only if it is not our removal, by its creator, from a room whose id is the same but for letter case, or there are none. |
| `RoomTwins.EventSparesIff` | internal/store/store.go:1126-1150 | The same for any room event, from anybody, whatever it looked up and however late it is written. |
| `RoomTwins.OutsidersSpareMessages` | internal/node/rooms.go:704-829 | Any sequence of outsiders' events, none of them on a twin of the id, leaves every message and entry of a held room as it was. |
| `RoomTwins.DropSparesIff` | internal/store/store.go:1126-1150 | Deleting one room spares the messages and entries of another if and only if the ids differ in more than letter case, or there are none. |
| `RoomTwins.TwinErasesMessages` | internal/node/rooms.go:722-802 | For any three people: a run in which somebody who is not in the room erases its message by way of a room with the same id in other letter case, while the record stays. |
| `RoomTraffic.OnlyMembersPost` | internal/node/rooms.go:624-661 | Every interleaving: a room message appears only through a handler that looked when its author and we were in the room and we had joined it; the author is the authenticated peer, or us, and the content is what was sent. |
| `RoomTraffic.OnlyOwnReactions` | internal/node/rooms.go:450-468 | Every interleaving: reactions change only by a toggle whose author was a member of the joined room when the node looked, and it flips that author's own pair and no other. |
| `RoomTraffic.ReactionsAreToggles` | internal/store/store.go:1344-1387 | Any writes in any order: the reactions of a message are its toggles since it was stored, applied one by one. |
| `RoomTraffic.RunTidy` | internal/store/store.go:1363-1379 | Every interleaving: no message carries a reaction twice or more than 128 of them, and they are its admitted toggles. |
| `RoomTraffic.MembersShowTheSame` | internal/node/rooms.go:408-468 | Two nodes, each with its own interleaving, that have admitted the same toggles of a message in whatever orders and spellings, at most 128 different ones, show the same reactions. |
| `RoomDelivery.DeliveredWhenNobodyWaits` | internal/store/store.go:1260-1317 | Every interleaving: a room message turns delivered only by an ack for it, and only at a moment when no member of the room that ack names, other than the sender, has an outbox entry for it. |
| `RoomDelivery.TooEarlyIff` | internal/store/store.go:1276-1307 | From every node with rows and index in agreement, whatever sends are at work: a tick turns a message delivered while a member of its room has an entry, or has yet to be queued for, if and only if it writes an ack for it under a held room where nobody waits any more, and either that is another room and a member of the own one has an entry left, or a send has not yet got to a member. |
| `RoomDelivery.TooEarlyIffReached` | internal/store/store.go:1276-1307 | The same, stated for every tick after every interleaving. |
| `RoomSends.DeliveredMeansAckedIff` | internal/node/rooms.go:202-229 | Every interleaving: when an ack under its own room turns a message of ours delivered, everybody it was sent to who is in the room has been queued for and has acked since, if and only if the send had got to all of those; where it had not, it was still at work or had died. |
| `RoomSends.DeliveredInTime` | internal/store/store.go:1260-1317 | So unless that is too early, everybody it was sent to who is in the room has acked, or the send has died. |
| `RoomSends.Progress` | internal/node/rooms.go:221-229 | Every interleaving, while the message is there: the send has got to exactly the first k members, and is at work on the rest, or there are none, or it died there. |
| `RoomSends.SentEarlier` | internal/node/rooms.go:202-219 | Every interleaving: a message of ours that is there was sent at some tick and has been there since. |
| `RoomSends.GoneMeansAcked` | internal/store/store.go:1260-1317 | Every interleaving: an entry that is gone, while its message has been there all along, was acked by its own member. |
| `RoomEarly.AckForAnotherRoomDelivers` | internal/store/store.go:1284-1307 | For any three people and two rooms: an interleaving in which an ack naming another room marks a message delivered while a member is still owed it. |
| `RoomEarly.AckDuringSendDelivers` | internal/store/store.go:1276-1281 | For any three people: an interleaving in which one member's ack delivers the message before the send has got to the other, whose entry is put afterwards and outlives its own ack. |
| `RoomEarly.AckAfterDeadSendDelivers` | internal/node/rooms.go:221-229 | For any three people: an interleaving in which the send dies after one member, whose ack then delivers the message; nobody is at work and nothing waits for the other. |
| `RoomDelivery.ConfirmDelivers` | internal/store/store.go:1260-1317 | An undelivered message turns delivered on an ack if and only if the room it names is held and no member of it but the sender has any entry left; nothing else about the message changes, and then no such member has an entry for it. |
| `RoomDelays.AckedButNotDelivered` | internal/store/store.go:1288-1307 | For any two people: a run after which both messages of a room are acked and the outbox is empty, but the first is not delivered. |
| `RoomDelivery.EntriesGoOnlyByAck` | internal/store/store.go:1260-1317 | Every interleaving: an outbox entry that is gone went through its own member's ack, or with its room, or with a room whose id is the same but for letter case. |
| `RoomDelivery.ConfirmIsAck` | internal/node/rooms.go:681-695 | Every confirmation written is the ack of the member it is for, who was in the room when the ack was looked at. |
| `RoomDelivery.OutboxKeyInjective` | internal/store/store.go:1026-1028 | With ids of one length the flat outbox key determines room, member and message, colons in names notwithstanding. |
| `RoomDelivery.SendQueues` | internal/node/rooms.go:169-229 | A send stores the message and, k members on, has added exactly one outbox entry for each of the first k it saw other than us, and holds the others. |
| `Reactions.OddTogglesRemain` | internal/store/store.go:1344-1387 | After toggles that never hit the cap a message carries exactly the (folded sender, emoji) pairs toggled an odd number of times, each once. |
| `Reactions.MembersAgree` | internal/node/rooms.go:408-468 | Members that applied the same toggles in different orders show the same reactions. |
| `Reactions.FewPairsNeverFull` | internal/store/store.go:1372-1375 | With at most 128 different pairs in all, no order of toggles ever hits the cap. |
| `Reactions.MembersAgreeWithin` | internal/store/store.go:1344-1387 | Agreement under that condition alone, which does not depend on the order. |
| `Members.DedupeMeans` | internal/node/rooms.go:850-862 | Deduplication yields a sorted list, distinct up to case, with the same people on it, each in a spelling that was given. |
| `Members.DedupePeople` | internal/node/rooms.go:850-862 | The deduplicated list has the same people, up to case, and is as long as there are. |
| `Members.DedupeKeepsFirst` | internal/node/rooms.go:850-862 | Of several spellings of a name the list keeps the first one given. |
| `Members.AddMemberKeeps` | internal/node/rooms.go:774-783 | Adding a newcomer and sorting keeps a list within its bounds, sorted and distinct, and adds nobody else. |
| `Members.FilterKeeps` | internal/node/rooms.go:840-848 | Removing members keeps order and distinctness. |
| `Members.SortedIsUnique` | internal/node/rooms.go:864-870 | Sorted lists with the same elements are equal. |
| `Members.SortInPlace` | internal/node/rooms.go:864-870 | The swap loop leaves the sorted list of the specification. |
| `Members.DedupeMembers` | internal/node/rooms.go:850-862 | The loop over a set of folded names computes the deduplicated list. |
| `Members.Contains` | internal/node/rooms.go:831-838 | Finds a name up to case exactly when it is on the list. |
| `Members.WithoutPeer` | internal/node/rooms.go:840-848 | The loop computes the list without that name, up to case. |
| `RoomStore.Rooms.AddRoomMessage` | internal/store/store.go:1153-1188 | Keeps the store's invariant, reports a duplicate, otherwise stores under the next sequence number. |
| `RoomStore.Rooms.RoomMessages` | internal/store/store.go:1191-1223 | The cursor walk returns the end of that room's history, oldest first: as many messages as asked for if that is 1 to 1000, otherwise 200, or all there are; for every state the store's methods keep. |
| `RoomStore.RoomHistoryMeans` | internal/store/store.go:1191-1223 | That history holds exactly the messages of the room, in strictly increasing sequence order. |
| `RoomStore.Rooms.MarkRoomDelivered` | internal/store/store.go:1260-1317 | Drops the member's entry and turns the message delivered exactly when no member but the sender waits. |
| `RoomStore.Rooms.EveryoneServed` | internal/store/store.go:1288-1299 | The member loop answers whether nobody but the sender still waits. |
| `RoomStore.AnyWithPrefix` | internal/store/store.go:1293-1298 | One seek decides whether any key of the bucket has the prefix. |
| `RoomStore.SeekDecides` | internal/store/store.go:1293-1298 | The first key at or after a prefix has it if and only if some key does. |
| `RoomStore.PrefixRun` | internal/store/store.go:1129-1147 | From the first key not before a prefix to the first without it lie exactly the keys that have it. |
| `RoomStore.DropRows` | internal/store/store.go:1129-1141 | The cursor loop deletes exactly the messages of the room, with their index entries. |
| `RoomStore.DropEntries` | internal/store/store.go:1143-1147 | The cursor loop deletes exactly the outbox entries with the prefix. |
| `RoomStore.Rooms.RemoveRoom` | internal/store/store.go:1126-1150 | Removes the room, its messages with their index entries, and its outbox entries. |
| `RoomStore.Rooms.ToggleRoomReaction` | internal/store/store.go:1344-1387 | Removes the reaction if it is there, adds it if not, refuses on a foreign room, an unknown message or a full list. |
| `RoomStore.Rooms.UpdateRoom` | internal/store/store.go:1114-1123 | Puts the record it is given, whatever was there. |
| `RoomStore.ChooseCreate` | internal/node/rooms.go:704-753 | An unknown room is saved as pending, an update is taken from the recorded creator alone, and lists without us or too long are ignored. |
| `RoomStore.ChooseMembership` | internal/node/rooms.go:755-829 | Join, remove and rename need the creator; leave concerns the sender alone. What each does to the room is stated by the `RoomEffects` rows. |
| `RoomStore.Rooms.HandleRoomEvent` | internal/node/rooms.go:704-829 | Lookup, decision and write, with nothing in between, are the step whose effects the `RoomEffects` rows state, and keep the invariant. |

## Left out

- `internal/api`, `internal/web`, `cmd`, `e2e`: HTTP plumbing, user interface and demo scripts.
- mDNS, TCP dialling, timers, logging, QR codes: input, output and library wrappers.
- The Noise handshake, Argon2id, HKDF, encryption at rest, JSON decoding: taken as assumptions above.
- `backoff` and its uncapped twin for rooms: an unforced flush may skip anything already tried, which covers every delay.
- Search, `ListFiles`, `FileOutbox`, `Settings`, identity storage: queries and records without a rule to prove.
- Typing, read receipts and one-to-one reactions: emitted and forgotten.
- `NextRoomSenderSeq`: sequence numbers of room senders are carried and never interpreted.
- Unicode case folding and Unicode white space: only ASCII is folded and trimmed.
- Interleaving of two goroutines inside one store transaction, or inside one read or write of a file: each is one step.
- FileRaces.OverlappingIsVerified: the length of the data is not stated; a header that fails half-way can leave a record ahead of its temp file.
- I/O errors of a store call that leave the process running: the session ends, which the run of the model contains as a disconnect.
- The room commands of the local user and `handleRoomMsg`, `handleRoomAck`, `handleRoomReaction` are a lookup, a decision on values and a write; update in place is shown for the store transactions under them, and in full for `handleRoomEvent`.
- Pinned-peer checks of `CreateRoom`, `AddRoomMember` and `SendReply`: a command they refuse is one that is not given.
- Flushing room messages and file outbox retries: which attempts are made, not what they may do.
- Agreement of members on the creator after the creator has left: the handover is local.
- That a complete file stays complete: a repeated header starts it over.
- RoomStore.DropRows: deleting under a cursor is taken not to disturb the keys still to come.
- Envelopes.MsgFits: field names and punctuation as the encoder writes them, numbers as at most 20 characters.
