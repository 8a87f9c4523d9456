# jiuyue: message delivery, recovery and the state machines around them

A Dafny model of how jiuyue stores Messages, gets them to every Device, and recovers what
a Device missed, together with the in-memory state machines beside that path: the login
limiter, the typing throttle, the connection registry and the roles of a Group.
`dafny verify dfyconfig.toml` checks everything.

Code that updates state in place is a class whose methods are proved against a function or
an outright description of the old state; what the system promises is then proved about
runs of those functions.
Concurrency is a state machine over its steps: a step that would wait for a lock is not
enabled, and what is claimed of such a machine is proved for every interleaving.

| module | part of the system | main results |
|---|---|---|
| `MessageLog` | sends as multi-step transactions, any number at once | `EveryInterleavingIsGapless`, `AnswersAgree`, `InterleavingIsSerial`, `EverySendFinishes` |
| `SendOutcomes` | what each of those sends is answered | `EverySendIsAnswered`, `EveryKnownSendIsStored` |
| `ReadState` | unread counts, read markers, receipts | `UnreadIsExact` |
| `History` | pages in both directions over a growing history | `BrowseIsExact` |
| `Bucket`, `Convergence` | the client's list of one Conversation | `EveryOrderConverges`, `EveryMessageIsShownOnce`, `AllHeldIffKeysDiffer`, `SameDeliveriesSameView` |
| `Repair` | closing holes, paging back, cursor reports | `ConversationStore.Walk`, `ConversationStore.RepairConversation` |
| `Replay`, `Connection` | per-connection sequences, the ring, gap detection, reconnects | `TheFramesSent`, `ReplayHeals`, `NoReplayAcrossConnections`, `LaterHandshakesRepair` |
| `GapRepair` | one connection, both sides, over a lossy wire | `EveryReplayHeals`, `NothingDueNothingMissing` |
| `SyncCursors` | Device cursors, coalesced and checkpointed | `NoReportIsLost` |
| `LoginLimiter` | throttle and lockout per source in a bounded map | `DropIsInvisibleIff`, `AnsweredAsIfAlone`, `NeverOverTheCap` |
| `Typing`, `TypingClient` | the server's throttle, the client's refresh and expiry | `EveryKeyIsAlone`, `ContinuousTypingNeverBlinks` |
| `Groups` | roles and ownership under stale reads | `AlwaysOneOwner`, `OwnershipOnlyHandsOver` |
| `GroupEndings` | how a group ends, and by whom | `EndsOnlyWithCause` |
| `GroupLimit` | how many a group may hold | `UndisturbedIsNeverOver`, `NeverOverIff` |
| `Registry` | first and last Device of a User | `ReportsAlternate` |

The parts compose: `RunsAreHistories` and `RunsAreWorlds` turn any interleaved run of
`MessageLog` into the growing gapless history that `History` and `Repair` assume, and
`Repair` merges through the list that `Convergence` is about.

## Where the code and its documentation disagree

The model follows the code; each point is a theorem or a concrete run.

- `stores/chat-messages.ts` merges by Client Message ID alone, while the server keeps that
  id unique per sender only. Every delivered Message is kept if and only if no two share
  one (`AllHeldIffKeysDiffer`); `SharedKeyDropsAMessage` shows the loss.
- The stored unread count of someone who joins late leaves out the Messages already there
  until the first mark_read (`UnreadIsExact`, `LateJoinerUndercounts`). Marker and receipt
  always hold one value.
- `limiter.rs` says a stale record can be freed "without losing a single observable
  decision". That is so if and only if the source had no lockout yet or lockouts never
  lengthen (`DropIsInvisibleIff`); otherwise keeping it is never milder
  (`KeptIsNeverLenient`).
- `limiter.rs` documents the n-th lockout as base times 2^(n-1), capped. Stopping at 16
  doublings breaks this exactly for a base of one whole second (`DocumentedLengthIff`).
- `registry.rs` and `replay.rs` count on the replay buffer for events that a full fan-out queue
  dropped, which happens exactly when an event meets 64 waiting ones (`AllGetThroughIff`,
  `SixtyFifthIsDropped`). The drop comes before the event gets a connection sequence, so nothing
  sent and no replay ever carries it, and the connection layer does not ask (`DropsAreSilent`).
  The Conversation layer asks for a dropped Message exactly when the next newer thing to arrive
  is a live Message (`DropIsNoticedIff`); the acknowledgement of an own Message hides the hole
  (`AckHidesADrop`).
- `chat.ts` keeps waiting bubbles over a reload without matching them against the page: one
  whose acknowledgement was lost is then held twice (`LostAckIsHeldTwice`, `ReloadHoldsIff`).
- `realtime.ts` has a branch for a reopened socket that never delivered anything; it is
  never taken (`LaterHandshakesRepair`).
- `chat.ts` calls a cursor report a promise that nothing at or below it is still needed. It
  holds if and only if the lowest Message held adjoins the stored position
  (`ReportIsSafeIffJoined`); a bucket first filled by a live Message reports too much.
- `service.rs` lets only the owner dissolve, and a leave end only a group nobody else is in.
  Both act on reads that may be stale and the delete has no guard, so a former owner
  (`FormerOwnerCanDissolve`) and a removed member (`RemovedMemberCanDissolve`) can end a
  group that someone else owns. `EndsOnlyWithCause` says for every interleaving exactly when
  the rules hold; run alone they always do (`DissolveAlone`, `LeaveAlone`).
- `service.rs` checks the limit of 500 against a count read once before the inserts, so two
  invitations at once can pass it (`InvitationsCanPassTheLimit`). While no call inserts after
  another call's insert that its own count did not see, no run passes it
  (`UndisturbedIsNeverOver`); with such inserts it is kept exactly when each fits into what
  its call's count left (`InsertKeepsTheLimitIff`, `NeverOverIff`).
- `typing.rs` argues that continuous typing never blinks because the newest broadcast is at
  most one throttle old. With the client's 4 s refresh the second signal is coalesced and a
  broadcast can be almost 10 s old; it stays younger than the TTL if and only if the draft
  changes at least every 1001 ms (`NeverApartIff`).

## Model

| member | source | states |
|---|---|---|
| `MessageLog.Find` | `backend/crates/chat/src/repository.rs:261-264` | the idempotency lookup is by sender and Client Message ID over all Conversations: it finds a row with the key, and none only if no row has it |
| `MessageLog.Rows` | `backend/crates/chat/src/repository.rs:217-255` | what a reader of one Conversation gets: exactly its committed Messages |
| `MessageLog.EveryInterleavingIsGapless` | `backend/crates/chat/src/repository.rs:206-215` | after any interleaving of any sends, racing duplicates and mid-transaction failures included, a Conversation's Messages carry exactly the numbers 1 to next_seq, once each; an idempotency key and an id name at most one row |
| `MessageLog.AnswersAgree` | `backend/crates/chat/src/repository.rs:914-984` | any two sends of one (sender, client_msg_id) that return a Message return the same one, and it is stored |
| `MessageLog.NeverInternal` | `backend/crates/chat/src/repository.rs:964-983` | the read after a lost race always finds the winner, so the internal-error branch is never taken |
| `MessageLog.OnlyIdsCollide` | `backend/crates/chat/src/repository.rs:206-215` | the unique (conversation_id, seq) constraint never refuses an insert; only a reused Message id can |
| `MessageLog.NoDeadlock` | `backend/crates/chat/src/repository.rs:914-984` | in any state, while a send is unfinished, some send can take a step that is not a failure: row locks and uncommitted keys never wait in a circle |
| `MessageLog.EverySendFinishes` | `backend/crates/chat/src/repository.rs:914-984` | from any state, whoever is scheduled when: a schedule without failures of its own has at most five steps for each send under way, and one that cannot go on has finished every send, and only then |
| `MessageLog.EverySendCanFinish` | `backend/crates/chat/src/repository.rs:914-984` | from any state a continuation without failures of its own finishes every send |
| `SendOutcomes.EverySendIsAnswered` | `backend/crates/chat/src/repository.rs:914-984` | in every run without failures of its own and with fresh Message ids, a finished send is refused, as ConversationNotFound, exactly when its key was not stored at its search and its Conversation had not been created when it went for a number. Else it is answered with the stored Message of its key: with its own id, Conversation, sender, key and body when created, an earlier one when not |
| `SendOutcomes.EveryKnownSendIsStored` | `backend/crates/chat/src/repository.rs:914-984` | so once no send can move on, however they interleaved, each one to a Conversation created before it began has its Message stored and is answered with it |
| `SendOutcomes.StoredByASend` | `backend/crates/chat/src/repository.rs:206-255` | the stored Messages are exactly those that some send was answered as having created |
| `MessageLog.StepIsAtomic` | `backend/crates/chat/src/repository.rs:914-984` | the step that answers a send has the effect and the answer of one atomic send; no other step changes what others can read |
| `MessageLog.InterleavingIsSerial` | `backend/crates/chat/src/repository.rs:914-984` | every interleaving leaves the tables that the same sends leave when run one after another, in the order they were answered |
| `MessageLog.ReadsGrow` | `backend/crates/chat/src/repository.rs:206-215` | a later read of a Conversation extends an earlier one, and every read is gapless from 1 |
| `MessageLog.RunKeepsInv` | `backend/crates/chat/src/repository.rs:914-984` | what every step keeps: gapless numbering, one row per key, one lock holder per Conversation, and each send's view of its key |
| `ReadState.ChatTables.SendMessage` | `backend/crates/chat/src/service.rs:1001-1035` | a whole send: refusals for an unknown Conversation or an outsider, a repeated key answered with the stored row, else the new row with everyone else's count raised |
| `ReadState.ChatTables.MarkRead` | `backend/crates/chat/src/service.rs:1049-1089` | a whole read report: a negative position is refused, otherwise marker, receipt and count move together; equal to the function the lemmas below are about |
| `ReadState.ChatTables.AddMember` | `backend/crates/chat/src/repository.rs:522-533` | a new Participant starts with marker, receipt and count at 0 |
| `ReadState.UnreadIsExact` | `backend/crates/chat/src/repository.rs:309-350` | after any run of whole transactions each Participant's stored count plus the Messages missed at joining equals a recount of others' Messages above the marker; receipt equals marker and is at most next_seq |
| `ReadState.EarlyJoinerIsExact` | `backend/crates/chat/src/repository.rs:309-312` | who joins before anyone else has written, and stays, is counted exactly at every moment |
| `ReadState.FirstReadSettles` | `backend/crates/chat/src/repository.rs:335-350` | after any mark_read the count is the exact recount, from then on nothing is missed, every Message up to the named one is read and nothing beyond it; naming the newest makes the count 0 |
| `ReadState.NothingMissedLater` | `backend/crates/chat/src/repository.rs:335-350` | once nothing is missed, nothing is missed again while the Participant stays |
| `ReadState.LateJoinerUndercounts` | `backend/crates/chat/src/repository.rs:309-312` | a concrete run in which a late joiner's count is 0 while one Message is unread |
| `ReadState.PositionsNeverRewind` | `backend/crates/chat/src/repository.rs:335-350` | marker and receipt never decrease while the Participant stays |
| `ReadState.RunKeepsSound` | `backend/crates/chat/src/repository.rs:914-984` | the serial runs of this module keep the gapless numbering of the log |
| `History.PageSize` | `backend/crates/chat/src/service.rs:1271-1275` | the default of 50 when nothing is asked for, else the size nearest to what is asked for among 1 to 100 |
| `History.ListMessagePage` | `backend/crates/chat/src/repository.rs:995-1032` | a backward page, read newest first with a probe row, is the stretch ending right below the cursor; has_more exactly when something older exists |
| `History.ListMessagePageAfter` | `backend/crates/chat/src/repository.rs:1044-1068` | a forward page is the stretch right above the cursor; has_more exactly when something newer exists |
| `History.ListMessages` | `backend/crates/chat/src/service.rs:915-994` | two cursors are refused, then an unknown Conversation, then an outsider; else the page with its next cursor |
| `History.PageIsNearest` | `backend/crates/chat/src/service.rs:935-992` | a page by the Sequence Numbers alone: at most the size and full when something is left out, ascending, only rows on the cursor's side, each one left out further from the cursor than all in it, and the next cursor at its far end exactly when something lies beyond |
| `History.BrowseBelow` | `backend/crates/chat/src/service.rs:969-992` | following next_before from any cursor, with any limits and with Messages appended between the requests, ends and yields exactly the history below the cursor |
| `History.BrowseIsExact` | `backend/crates/chat/src/service.rs:935-992` | the whole backward walk yields exactly the Messages there were at the first request, ascending, no gap, no repeat |
| `History.RunsAreHistories` | `backend/crates/chat/src/repository.rs:995-1032` | reading at later and later moments of any interleaved run of sends gives what the walks assume: gapless and growing |
| `Bucket.MessageBucket.Upsert` | `frontend/src/stores/chat-messages.ts:134-151` | replaces the entry with the same Client Message ID, else the one with the same id, else appends; reports which |
| `Bucket.MessageBucket.MaxSeq` | `frontend/src/stores/chat-messages.ts:51-58` | the highest held Sequence Number; none exactly when nothing is acknowledged |
| `Bucket.MessageBucket.MinSeq` | `frontend/src/stores/chat-messages.ts:61-68` | the lowest held one; none exactly when nothing is acknowledged |
| `Bucket.MessageBucket.RepairStartSeq` | `frontend/src/stores/chat-messages.ts:80-94` | on any unsorted list with bubbles: the largest v such that everything from the lowest held number to v is held; none exactly when nothing is acknowledged |
| `Bucket.RepairStartIsUnique` | `frontend/src/stores/chat-messages.ts:80-94` | that description determines the answer |
| `Convergence.EveryOrderConverges` | `frontend/src/stores/chat-messages.ts:134-151` | after any order of acks, live Messages, pages and repeats, with bubbles composed and refused in between, exactly the delivered Messages are held as acknowledged, each once |
| `Convergence.NewAtMostOnce` | `frontend/src/stores/chat.ts:1044-1066` | upsert reports a Message as new at most once however often it is delivered, so it raises the badge at most once |
| `Convergence.AppendedIffUnknown` | `frontend/src/stores/chat-messages.ts:134-151` | upsert reports new exactly for a Message that is neither held nor awaited by a bubble |
| `Convergence.AllHeldIffKeysDiffer` | `frontend/src/stores/chat-messages.ts:134-141` | every delivered Message is still held at the end if and only if no two delivered Messages share a Client Message ID |
| `Convergence.SharedKeyDropsAMessage` | `frontend/src/stores/chat-messages.ts:135-141` | two senders, one Client Message ID: the bucket is left with the second Message alone |
| `Convergence.Arranged` | `frontend/src/stores/chat.ts:154-158` | the rendered order is sorted by compareMessages and has exactly the bucket's entries |
| `Convergence.ArrangedIsStable` | `frontend/src/stores/chat.ts:154-158` | sorting keeps every entry as often as it was and entries that compare equal in their order, so bubbles stay in the order they were composed |
| `Convergence.ViewIsTheMessages` | `frontend/src/stores/chat-messages.ts:43-48` | the acknowledged part of the view is strictly increasing and is exactly the delivered Messages |
| `Convergence.EveryMessageIsShownOnce` | `frontend/src/stores/chat-messages.ts:108-151` | after any order of deliveries and repeats each delivered Message is shown by exactly one confirmed entry, with its own id, Client Message ID, Conversation, sender, body and number, as sent and without a failure, and no other confirmed entry is there |
| `Convergence.BubbleIsAsComposed` | `frontend/src/stores/chat-messages.ts:134-151` | from its composing until its Message arrives a bubble stays, once, with its key, Conversation, sender and body, in the state it was last marked with |
| `Convergence.SameDeliveriesSameView` | `frontend/src/stores/chat-messages.ts:43-48` | two Devices that got the same Messages in any two orders render the same acknowledged list |
| `Convergence.PendingComesLast` | `frontend/src/stores/chat-messages.ts:43-48` | bubbles on their way are rendered after everything acknowledged |
| `Repair.ConversationStore.Walk` | `frontend/src/stores/chat.ts:889-910` | against a growing history and with live deliveries during each request, the walk stops at the first page that catches up, never by its defensive break, and then holds everything above its start up to the newest Message served |
| `Repair.ConversationStore.RepairConversation` | `frontend/src/stores/chat.ts:874-922` | afterwards the Messages held are acknowledged once each and none is missing from the lowest number held to the newest served; the highest held is the next repair start exactly when what arrived during the last request follows on without a hole; the backward cursor is untouched, or set to the lowest held after a walk seeded by the Device cursor; with neither start the newest page is loaded; the new stretch is queued as a cursor report |
| `Repair.ConversationStore.FetchForward` | `frontend/src/stores/chat.ts:892-898` | one request of up to 100 after the cursor, merged after whatever arrived meanwhile |
| `Repair.ConversationStore.LoadMessages` | `frontend/src/stores/chat.ts:628-662` | the bucket becomes the newest page followed by the bubbles that were waiting, in their order |
| `Repair.ReloadHoldsIff` | `frontend/src/stores/chat.ts:639-645` | a reload keeps each Message once exactly when no bubble still waits for a Message of the page |
| `Repair.LostAckIsHeldTwice` | `frontend/src/stores/chat.ts:639-645` | a concrete reload: a bubble whose acknowledgement was lost and its own Message from the page are both held |
| `Repair.ConversationStore.LoadOlder` | `frontend/src/stores/chat.ts:675-712` | asks only when there is an older page, merges it, and moves the backward cursor |
| `Repair.ConversationStore.ScheduleCursorReport` | `frontend/src/stores/chat.ts:731-746` | queues the end of the unbroken stretch among the reports of all Conversations; a higher queued position stays, and so do the other Conversations' reports |
| `Repair.ConversationStore.ApplyNewMessage` | `frontend/src/stores/chat.ts:1044-1074` | merges a live Message; asks for a repair exactly when it lies more than one beyond everything held; raises the badge exactly for a new Message of somebody else |
| `Repair.ConversationStore.ApplyAck` | `frontend/src/stores/chat.ts:1031-1034` | merges the stored Message over its bubble and queues the position |
| `Repair.ConversationStore.ApplyRejection` | `frontend/src/stores/chat.ts:1077-1090` | marks the bubble of the refused key as failed, if there is one |
| `Repair.AfterTheWalk` | `frontend/src/stores/chat.ts:874-922` | from the Messages held after a walk to the numbers held, and whether the highest is the next start |
| `Repair.AlwaysBehindNeverEnds` | `frontend/src/stores/chat.ts:900-909` | the other half of the walk's end: while it has not caught up there is a further page with an advancing cursor |
| `Repair.OlderPageAdjoins` | `frontend/src/stores/chat.ts:675-712` | a backward page reaches from its new boundary up to the lowest Message held: paging back leaves no hole and does not move the repair start |
| `Repair.ReportIsSafeIffJoined` | `frontend/src/stores/chat.ts:714-735` | a cursor report skips nothing above the stored Device position if and only if the lowest Message held adjoins that position |
| `Repair.LiveFirstBucketOverReports` | `frontend/src/stores/chat.ts:714-735` | a bucket first filled by live Message 50 reports 50 although 40 to 49 never arrived |
| `Repair.GapIffApart` | `frontend/src/stores/chat.ts:1055-1057` | adding one number to an unbroken stretch leaves it unbroken exactly when it adjoins or repeats it |
| `Repair.DropIsNoticedIff` | `frontend/src/stores/chat.ts:1031-1057` | when the Message after the highest held never comes, the client asks for nothing until a newer one does, and then asks exactly when that is a live Message and not the acknowledgement of an own one |
| `Repair.AckHidesADrop` | `frontend/src/stores/chat.ts:1031-1034` | a concrete arrival: an acknowledgement beyond the missing Message asks for nothing, and after it neither does the next live Message |
| `Repair.RunsAreWorlds` | `backend/crates/chat/src/repository.rs:1044-1068` | readings of any interleaved run of sends are what the repair theorems assume, given distinct Client Message IDs |
| `Repair.RunsAreCaughtUpWith` | `frontend/src/stores/chat.ts:889-910` | and the pages of a repair catch up with any such run from any start, so the walk over it has a last page |
| `Replay.ReplayBuffer.constructor` | `backend/crates/realtime/src/replay.rs:45-50` | the capacity is at least 1 |
| `Replay.ReplayBuffer.Record` | `backend/crates/realtime/src/replay.rs:57-62` | appends to the history and keeps the ring its newest part |
| `Replay.RingIsTheNewest` | `backend/crates/realtime/src/replay.rs:35-62` | the ring is the last min(capacity, sent) consecutive sequences |
| `Replay.ReplayBuffer.EnvelopesAfter` | `backend/crates/realtime/src/replay.rs:81-104` | on a ring over any numbered history: exactly the sent envelopes n + 1 to newest, in order, when the ring is not empty, all of them are retained and n was reached; None otherwise |
| `Replay.AfterInRing` | `backend/crates/realtime/src/replay.rs:98-103` | filtering the ring gives the same envelopes as dropping the first n of everything sent |
| `Replay.ConnectionWriter.SendEvent` | `backend/crates/realtime/src/session.rs:370-375` | the next consecutive sequence is recorded and put on the wire; a failing clock or a closed queue ends the connection |
| `Replay.ConnectionWriter.SendPing` | `backend/crates/realtime/src/session.rs:378-392` | the same for a heartbeat that names its connection |
| `Replay.ConnectionWriter.PlanResume` | `backend/crates/realtime/src/session.rs:428-441` | position 0 is fresh; another connection's position or an unprovable one is unavailable; else the missed envelopes are replayed |
| `Replay.ConnectionWriter.AnswerResume` | `backend/crates/realtime/src/session.rs:322-346` | replayed envelopes go out again verbatim with their old sequences, followed by one freshly numbered Resync that counts them |
| `Replay.AnswerIsVerdict` | `backend/crates/realtime/src/session.rs:322-441` | a Resume is owed what was sent after its position exactly when that is a position of this connection that the ring still reaches; then a Resync with the next sequence: fresh for position 0, replayed with the count, or unavailable |
| `Connection.RealtimeStore.ApplyEnvelope` | `frontend/src/stores/realtime.ts:83-185` | the frames sent and repair signals fired for one envelope, and the new bookkeeping; the last frame is the Resume before the hole exactly when the envelope lies beyond the next expected one |
| `Connection.TheFramesSent` | `frontend/src/stores/realtime.ts:83-185` | on any arrival, told by the envelopes alone, exactly which frames each of them makes the client send, and in which order: the handshake for the first heartbeat, an answer for every heartbeat, and a Resume at the highest sequence before the hole, naming this connection, for each envelope beyond the next expected one and for no other; and how many repairs it asks for |
| `Connection.RealtimeStore.OnConnecting` | `frontend/src/stores/realtime.ts:238-247` | opening a socket forgets the old connection but for the consumed position |
| `Connection.GapIsDetectedExactly` | `frontend/src/stores/realtime.ts:93-97` | on any arrival order: a replay is asked for exactly when an envelope lies beyond the next expected one; it names the highest sequence before the hole and fires a repair |
| `Connection.OneHandshakePerConnection` | `frontend/src/stores/realtime.ts:104-136` | on a connection the first heartbeat, and nothing else, is answered with the wake-up handshake; every heartbeat, and nothing else, is answered with one |
| `Connection.EveryHoleIsNamed` | `frontend/src/stores/realtime.ts:174-184` | on an order-keeping lossy wire each hole, and nothing else, is asked for by the sequence just before it |
| `Connection.EveryGapResumesHere` | `frontend/src/stores/realtime.ts:174-184` | on any arrival, once a heartbeat was seen every gap is resumed on this very connection at a sequence received |
| `Connection.ReplayHeals` | `backend/crates/realtime/src/session.rs:322-346` | whatever was received by then, earlier replays included, and whichever hole is resumed before: a retained position is answered with a replay that raises no further gap on its way in, and the sequences received become one interval up to the newest exactly when everything up to that position had arrived |
| `Connection.EveryGapIsHealed` | `frontend/src/stores/realtime.ts:83-185` | the whole exchange for any gap of any arrival, from the client's Resume to the healed interval, under that same exact condition |
| `GapRepair.EveryReplayHeals` | `backend/crates/realtime/src/session.rs:322-346` | over every run of one connection with sends, losses anywhere, deliveries and answers in any order: no envelope of an undamaged replay makes a gap; when a replay completes, the sequences received are one interval exactly when everything up to its start had arrived, and they are whenever each gap Resume so far was answered with a replay that lost nothing |
| `GapRepair.NothingDueNothingMissing` | `frontend/src/stores/realtime.ts:174-184` | in such a run, if every gap Resume so far was answered with a replay and nothing of one was lost: once no replay is on its way and no gap Resume waits, no hole is left |
| `GapRepair.LostResumeLeavesAHole` | `frontend/src/stores/realtime.ts:174-184` | a concrete run without that: the Resume of one gap is lost, the replay of a later gap arrives whole, and the first hole stays |
| `GapRepair.EveryRunIsSound` | `backend/crates/realtime/src/session.rs:350-441` | what every turn keeps: numbering, the high-water mark, replies that continue what was received, Resumes that name what was received |
| `Connection.LinkStaysOk` | `frontend/src/stores/realtime.ts:83-125` | over any number of reconnects: a known connection id is the live one, and the high-water mark is the highest heard on it |
| `Connection.NoReplayAcrossConnections` | `backend/crates/realtime/src/session.rs:428-441` | a position of an earlier connection is never answered with a replay |
| `Connection.LaterHandshakesRepair` | `frontend/src/stores/realtime.ts:106-125` | every handshake after the first names an unprovable position and its answer fires a repair; the extra branch for a reopened silent socket is never taken |
| `Connection.OnlyTheFirstIsFresh` | `frontend/src/stores/realtime.ts:112-117` | a handshake is answered fresh exactly when the client has never received anything |
| `Connection.NothingElseIsLost` | `backend/crates/realtime/src/registry.rs:140-169` | everything offered to a connection is sent, waits, or was dropped, each once; the connection's own heartbeats and answers are all sent, in order, between them |
| `Connection.AllGetThroughIff` | `backend/crates/realtime/src/registry.rs:140-169` | what went out of the queue and what waits is everything offered, in order, exactly when no offer met 64 waiting events |
| `Connection.SixtyFifthIsDropped` | `backend/crates/realtime/src/registry.rs:153-161` | a drop does happen: of 65 events offered before the connection takes one, the last is lost |
| `Connection.DropsAreSilent` | `backend/crates/realtime/src/registry.rs:140-169` | among heartbeats, answers and other events: an event dropped, offered once and none of the connection's own, is carried by nothing sent and by no replay of any position; the connection layer asks only for holes in what was sent, and for nothing when the client got all of it |
| `Connection.FanOutIsNumbered` | `backend/crates/realtime/src/session.rs:370-375` | what leaves the queue and the connection's own events are together numbered from 1 without a hole |
| `SyncCursors.CursorCheckpoint.Record` | `backend/crates/realtime/src/cursor.rs:42-49` | keeps the highest position per Conversation and tells whether 64 are waiting |
| `SyncCursors.CursorCheckpoint.Batch` | `backend/crates/realtime/src/cursor.rs:60-68` | the snapshot lists each pending entry exactly once |
| `SyncCursors.NormaliseCursors` | `backend/crates/chat/src/service.rs:1230-1250` | exactly the well-formed Conversations reported, each with its highest position |
| `SyncCursors.UlidIsBase32` | `backend/crates/chat/src/service.rs:1334-1343` | an id is well-formed exactly when it is 26 digits of the Crockford alphabet, in either case |
| `SyncCursors.CursorTable.Save` | `backend/crates/chat/src/repository.rs:277-284` | for a known Conversation the maximum of stored and reported, for an unknown one nothing; it fails exactly when the statement does and there was something well-formed to write, and then changes nothing |
| `SyncCursors.CursorSession.FlushCursors` | `backend/crates/realtime/src/session.rs:129-150` | a flush loses no position and never lowers a stored one; what failed stays pending as it was; table and buffer become what the run theorems take them to be |
| `SyncCursors.CursorSession.RecordCursor` | `backend/crates/realtime/src/session.rs:117-121` | recording raises the maximum of stored and pending to the report, whether or not the eager flush succeeds; table and buffer become what the run theorems take them to be |
| `SyncCursors.SnapshotIsFaithful` | `backend/crates/chat/src/service.rs:1202-1215` | a flushed snapshot reports exactly the pending positions |
| `SyncCursors.ListingNormalised` | `backend/crates/chat/src/service.rs:1230-1250` | normalising a snapshot leaves exactly the well-formed part of the buffer |
| `SyncCursors.NoReportIsLost` | `backend/crates/chat/src/repository.rs:277-284` | over any interleaving of reports, failed and successful flushes, openings and closings, clean or not, on all connections of a Device: the stored value never decreases, nothing exceeds the highest well-formed report, and the maximum of stored and pending is that report exactly when no teardown with a failing flush dropped the only copy of the highest position, unless one as high was reported since |
| `SyncCursors.CleanClosingsKeepAll` | `backend/crates/realtime/src/session.rs:129-150` | so nothing is lost while every teardown's last flush succeeds |
| `SyncCursors.FailedTeardownDropsAReport` | `backend/crates/realtime/src/session.rs:129-150` | a concrete run: one report, then a teardown whose flush fails, and the position is gone |
| `SyncCursors.AllFlushedMeansAllStored` | `backend/crates/realtime/src/session.rs:129-150` | once every buffer is empty the database holds the highest well-formed report, under that same exact condition |
| `SyncCursors.CursorReporter.ScheduleCursorReport` | `frontend/src/stores/chat.ts:731-746` | what is claimed for a Conversation, reported or queued, rises to the new safe position and is untouched for others |
| `SyncCursors.CursorReporter.FlushCursorReports` | `frontend/src/stores/chat.ts:755-767` | exactly the reports the socket refuses stay queued, and nothing claimed is lost |
| `LoginLimiter.Sanitized` | `backend/crates/auth/src/limiter.rs:153-162` | any policy becomes the least one, field by field, that can trip |
| `LoginLimiter.LockoutsNeverShrink` | `backend/crates/auth/src/limiter.rs:140-147` | every lockout lasts 1 second to 24 hours and a further one is never shorter |
| `LoginLimiter.LockoutsDouble` | `backend/crates/auth/src/limiter.rs:139-147` | the first lockout lasts the whole seconds of the base, within 1 second and the cap; each further one twice the one before until the cap or the seventeenth; then all are equal |
| `LoginLimiter.NthLockoutIsAnswered` | `backend/crates/auth/src/limiter.rs:294-318` | over any failures, the n-th lockout answered has the length of an n-th lockout |
| `LoginLimiter.ThrottledToTheSecond` | `backend/crates/auth/src/limiter.rs:128-137` | whatever answers Throttled names the throttle in whole seconds, rounded down, and one second when it is shorter |
| `LoginLimiter.DocumentedLengthIff` | `backend/crates/auth/src/limiter.rs:139-147` | the documented length, base times 2^(n-1) within the cap, is met for every n if and only if the base is not one whole second |
| `LoginLimiter.InProcessLoginAttemptStore.CountFailure` | `backend/crates/auth/src/limiter.rs:294-318` | the step-by-step update equals the function the lemmas are about |
| `LoginLimiter.AnswerFollowsTheCount` | `backend/crates/auth/src/limiter.rs:272-318` | the answer to a failure depends only on how many failures fall into the current window: Allowed below max_failures, LockedOut from max_failures + max_throttles - 1 on, Throttled between |
| `LoginLimiter.ChecksCountForNothing` | `backend/crates/auth/src/limiter.rs:280-292` | verdicts read between failures leave the record that of the failures alone |
| `LoginLimiter.LockoutNeverMovesEarlier` | `backend/crates/auth/src/limiter.rs:294-318` | over any run of a source without a success, verdicts included, the lockout deadline never moves earlier |
| `LoginLimiter.PenaltyLastsAsAnswered` | `backend/crates/auth/src/limiter.rs:280-318` | a lockout lasts exactly the seconds it named and then allows; a throttle lasts its length |
| `LoginLimiter.DropIsInvisibleIff` | `backend/crates/auth/src/limiter.rs:320-329` | dropping a stale record changes no answer of any later time-ordered run if and only if it had no lockouts or lockouts never lengthen |
| `LoginLimiter.KeptIsNeverLenient` | `backend/crates/auth/src/limiter.rs:320-329` | otherwise the kept record answers every later call at least as severely, for at least as long |
| `LoginLimiter.AlikeLiveAlike` | `backend/crates/auth/src/limiter.rs:272-329` | two records no answer tells apart stay so over any run |
| `LoginLimiter.InProcessLoginAttemptStore.MakeRoom` | `backend/crates/auth/src/limiter.rs:382-412` | below the cap nothing goes; at it exactly the stale records go; with none stale, one least recently seen goes |
| `LoginLimiter.InProcessLoginAttemptStore.Verdict` | `backend/crates/auth/src/limiter.rs:416-431` | answers from the source's record and touches nothing else; the bound holds; a Throttled names the throttle to the second |
| `LoginLimiter.InProcessLoginAttemptStore.RecordFailure` | `backend/crates/auth/src/limiter.rs:433-450` | updates the source's record, after making room when it is new; the bound holds; a Throttled names the throttle to the second |
| `LoginLimiter.InProcessLoginAttemptStore.RecordSuccess` | `backend/crates/auth/src/limiter.rs:452-455` | forgets exactly the source |
| `LoginLimiter.NeverOverTheCap` | `backend/crates/auth/src/limiter.rs:382-456` | the map never holds more than max_tracked_sources records, at any step of any run |
| `LoginLimiter.EvictionOrder` | `backend/crates/auth/src/limiter.rs:388-411` | a record of another source goes only for a new failing source at the cap, and only if stale or, with none stale, least recently seen, and then alone |
| `LoginLimiter.LastSeenIsLastCall` | `backend/crates/auth/src/limiter.rs:416-450` | last_seen is the time of the source's own last call in the run, so the coldest is the least recently used |
| `LoginLimiter.OthersAreUntouched` | `backend/crates/auth/src/limiter.rs:382-456` | a call leaves every other source's record as it was or drops it |
| `LoginLimiter.AnsweredAsIfAlone` | `backend/crates/auth/src/limiter.rs:382-456` | over any run, while a source loses its record only when that cannot be noticed, each of its calls is answered as if it had the store to itself |
| `LoginLimiter.NeverHarsherThanAlone` | `backend/crates/auth/src/limiter.rs:320-329` | while it only ever loses stale records, no answer is more severe than alone |
| `Typing.TypingDirectory.Sweep` | `backend/crates/realtime/src/typing.rs:210-213` | every key shows what it showed before, so no decision changes, and a key that shows nothing is no longer held |
| `Typing.TypingDirectory.HandleTyping` | `backend/crates/realtime/src/typing.rs:262-300` | tells the audience exactly when the signal earns it, a stop while a young start shows and a start unless one does; forgets a rejected one; other keys untouched |
| `Typing.TypingDirectory.ClearTyping` | `backend/crates/realtime/src/typing.rs:312-350` | a sent Message is a stop signal: its audience is told exactly while a start younger than the ttl shows |
| `Typing.EveryKeyIsAlone` | `backend/crates/realtime/src/typing.rs:158-213` | over any run every key earns the broadcasts it would earn with a directory of its own that is never swept: sweeps and other keys change no decision |
| `Typing.GoesThroughIff` | `backend/crates/realtime/src/typing.rs:158-185` | in every run exactly these signals go through: a stop, when the last that did is a broadcast start less than the ttl ago; a start, unless it is one less than both throttle and ttl ago |
| `Typing.OnlyTheLastMatters` | `backend/crates/realtime/src/typing.rs:158-202` | all a key remembers is the last signal that went through |
| `Typing.StartsAreSpaced` | `backend/crates/realtime/src/typing.rs:166-168` | after a recorded start, starts with no accepted stop between come at least min(throttle, ttl) later, rejected signals and sweeps included |
| `Typing.StopsFollowStarts` | `backend/crates/realtime/src/typing.rs:184` | every accepted stop directly follows a recorded start less than ttl before |
| `Typing.StopRearms` | `backend/crates/realtime/src/typing.rs:158-185` | after a stop further stops are dropped and any start goes through |
| `TypingClient.TypingStore.Prune` | `frontend/src/stores/typing.ts:93-111` | drops exactly the passed deadlines and empty Conversations; the sweep stops when none is live |
| `TypingClient.TypingStore.Apply` | `frontend/src/stores/typing.ts:120-139` | a start arms a 10 s deadline, a stop removes the entry |
| `TypingClient.TypingStore.TypersFor` | `frontend/src/stores/typing.ts:142-150` | exactly the users whose deadline is still ahead |
| `TypingClient.TypingStore.NoteInput` | `frontend/src/stores/typing.ts:167-182` | a start at most every 4 s while there is text, one stop when it is emptied |
| `TypingClient.TypingStore.StopTyping` | `frontend/src/stores/typing.ts:185-189` | a stop exactly when something was signalled |
| `TypingClient.ShowsIffRecentStart` | `frontend/src/stores/typing.ts:93-150` | over any run an indicator shows exactly while the last broadcast heard is a start less than the TTL ago, whenever the sweep runs |
| `TypingClient.RefreshesAreRegular` | `frontend/src/stores/typing.ts:167-182` | while the draft changes at least every gap ms, starts are sent 4 s to 4 s + gap apart |
| `TypingClient.BroadcastsAreRegular` | `backend/crates/realtime/src/typing.rs:158-196` | of starts a bounded time apart the server broadcasts some less than a throttle plus that time apart |
| `TypingClient.NeverApartIff` | `backend/crates/realtime/src/typing.rs:82-92` | start broadcasts stay less than a TTL apart for every typist if and only if keystrokes are at most 1001 ms apart |
| `TypingClient.ContinuousTypingNeverBlinks` | `frontend/src/stores/typing.ts:16-26` | typist, server and receiver together, among other traffic, sweeps and ticks: from the first keystroke to the last the indicator shows |
| `Groups.RemovalGoesDown` | `backend/crates/chat/src/permission.rs:116-122` | removal is allowed exactly down the ranks, and the capability is having someone to remove |
| `Groups.HigherRanksMayMore` | `backend/crates/chat/src/permission.rs:88-98` | whatever a role may do, every higher one may |
| `Groups.CapabilitiesByRole` | `backend/crates/chat/src/permission.rs:88-98` | what members may do, what admins may do beyond that, and that the owner may do everything |
| `Groups.ChatRepository.CreateGroupWithMembers` | `backend/crates/chat/src/repository.rs:540-577` | the group with its owner and every member, or, on any duplicate, nothing |
| `Groups.ChatRepository.AddMemberWithRole` | `backend/crates/chat/src/repository.rs:597-611` | refused for an unknown group, a row that exists or a second owner; otherwise the User has that role, every other row of every group is as it was, and a group with one owner still has one |
| `Groups.ChatRepository.RemoveMember` | `backend/crates/chat/src/repository.rs:653-665` | deletes exactly a row that is not the owner's |
| `Groups.ChatRepository.SetMemberRole` | `backend/crates/chat/src/repository.rs:669-683` | changes exactly a row that is not the owner's |
| `Groups.ChatRepository.TransferOwnership` | `backend/crates/chat/src/repository.rs:692-728` | moves ownership when from owns and to is a Participant; otherwise rolls back to the old roles |
| `Groups.ChatRepository.Dissolve` | `backend/crates/chat/src/repository.rs:794-801` | deletes the group whatever anyone's role |
| `Groups.AlwaysOneOwner` | `backend/crates/chat/src/repository.rs:138-167` | in every interleaving of use cases acting on stale reads, with open transfers and failures, every existing group has exactly one owner at every instant |
| `Groups.OwnershipOnlyHandsOver` | `backend/crates/chat/src/repository.rs:138-162` | no removal, leave, role change or invitation deletes or demotes an owner: ownership ends only by the owner's own transfer committing or by the group's deletion |
| `Groups.SecondLockWaits` | `backend/crates/chat/src/repository.rs:692-728` | a second transfer of a group waits for the first |
| `Groups.LockedRowsAreUntouched` | `backend/crates/chat/src/repository.rs:692-728` | while a transfer is open no other call, whatever it is about to write, changes the rows the transfer has locked |
| `Groups.SomeCallMoves` | `backend/crates/chat/src/repository.rs:692-728` | in any reachable state, while a call is unfinished some call can take its next step: the row locks never wait in a circle |
| `GroupEndings.EndsOnlyWithCause` | `backend/crates/chat/src/service.rs:683-735` | a group ends only by a dissolve whose caller owned it when the role was read, or a leave that counted at most one Participant. In every interleaving the dissolver still owns it at the delete exactly when the last transfer committed since names them or there was none; nobody but the leaver is in it exactly when everyone else who was counted or came since has gone, and, if nobody came since, exactly when the leaver was the one counted |
| `GroupEndings.StillOwnsIff` | `backend/crates/chat/src/repository.rs:692-728` | who owned a group at any step of a run still does exactly when the last transfer committed since names them, or there was none |
| `GroupEndings.EveryStepIsItsMove` | `backend/crates/chat/src/repository.rs:138-167` | a step changes who is in a group, or who owns it, only as its own statement does |
| `GroupEndings.InvitedButAlone` | `backend/crates/chat/src/service.rs:683-735` | a concrete interleaving: someone is invited after the count and removed again, and the leaver is alone at the delete all the same |
| `GroupLimit.InsertsOnItsCount` | `backend/crates/chat/src/service.rs:548-586` | every insert comes from a call that had counted the group and found room for all its invitees, and that has inserted since exactly as many of them as its loop has gone through |
| `GroupLimit.InsertKeepsTheLimitIff` | `backend/crates/chat/src/service.rs:574-586` | an insert into a group that lasted since that count keeps the limit exactly when the others' inserts less the departures since fit into what the count left beside the call's own; always when nobody else inserted |
| `GroupLimit.UndisturbedIsNeverOver` | `backend/crates/chat/src/service.rs:548-586` | in every interleaving in which no call inserts after another call's insert that its count did not see, a group whose id is handed out once never holds more than 500, whatever leaves, removals, transfers and failures come between |
| `GroupLimit.NeverOverIff` | `backend/crates/chat/src/service.rs:548-586` | any run keeps such a group within 500 at every moment exactly when each of its inserts fits in that way |
| `GroupLimit.CountMovesOn` | `backend/crates/chat/src/repository.rs:597-611` | what a count has become: the call's own inserts and the others' since, less the departures |
| `GroupLimit.InvitationsCanPassTheLimit` | `backend/crates/chat/src/service.rs:548-586` | a concrete interleaving: two invitations that both count 499 Participants make 501 |
| `GroupEndings.FormerOwnerCanDissolve` | `backend/crates/chat/src/service.rs:862-878` | a concrete interleaving: someone who has handed ownership over still dissolves the new owner's group |
| `GroupEndings.RemovedMemberCanDissolve` | `backend/crates/chat/src/service.rs:688-709` | a concrete interleaving: a member removed while leaving counts one Participant and dissolves the owner's group |
| `Groups.RemoveAlone` | `backend/crates/chat/src/service.rs:628-675` | run alone: removes exactly a Participant the caller outranks; which refusal otherwise |
| `Groups.LeaveAlone` | `backend/crates/chat/src/service.rs:683-735` | run alone: everyone but an owner with others may leave; the last one out ends the group; which refusal otherwise |
| `Groups.ChangeRoleAlone` | `backend/crates/chat/src/service.rs:743-792` | run alone: only the owner, never to owner and never the owner's own; which refusal otherwise |
| `Groups.TransferAlone` | `backend/crates/chat/src/service.rs:801-854` | run alone: exactly from the owner to another Participant; which refusal otherwise |
| `Groups.DissolveAlone` | `backend/crates/chat/src/service.rs:862-892` | run alone: exactly the owner; which refusal otherwise |
| `Groups.AddAlone` | `backend/crates/chat/src/service.rs:525-589` | run alone: admits all invitees or none, exactly when the caller may invite, none is in yet and they fit under 500 |
| `Groups.AddRefusals` | `backend/crates/chat/src/service.rs:525-572` | run alone: which refusal it is otherwise; among the invitees the first who is the caller or in the group already decides |
| `Groups.CreateAlone` | `backend/crates/chat/src/service.rs:317-387` | a new group has its creator as owner, everyone else as member, and 3 to 500 in all; which refusal otherwise |
| `Registry.ConnectionRegistry.Insert` | `backend/crates/realtime/src/registry.rs:74-92` | adds the connection and tells whether it is the User's only one |
| `Registry.ConnectionRegistry.Unregister` | `backend/crates/realtime/src/registry.rs:99-119` | removes the connection, and the User with the last one |
| `Registry.ChangesAreExact` | `backend/crates/realtime/src/registry.rs:42-119` | a step reports exactly the first Device to come and the last to go, and touches nobody else's reachability |
| `Registry.ReportsAlternate` | `backend/crates/realtime/src/registry.rs:47-54` | over any run the reports about a User strictly alternate, first online, and the User is online exactly when the last one says so |
| `Registry.HoldsTheConnected` | `backend/crates/realtime/src/registry.rs:58-61` | the map holds exactly the connections inserted and not unregistered since |
| `Registry.OnlineMeansConnected` | `backend/crates/realtime/src/registry.rs:122-124` | a User is online exactly while some Device's connection is |
| `Registry.IdsAreUnique` | `backend/crates/realtime/src/registry.rs:74-80` | no two connections of a run get one id, though ids are taken outside the lock |
| `Registry.UnregisterIsIdempotent` | `backend/crates/realtime/src/registry.rs:94-119` | unregistering again, or a connection that is not there, changes and reports nothing |

## Left out

- HTTP, WebSocket, serialisation, SQL and clock plumbing: answers of the database, the membership read, the clock and the socket are parameters.
- Authentication, tokens, mail, configuration and migrations; table defaults are taken as 0.
- PostgreSQL snapshot anomalies: statements are atomic and lock rows, as the guards of the statements assume; a mark_read that races a send's bump is not modelled.
- `ReadState.UnreadIsExact`: runs are of whole transactions, so a bump is never seen half done; in `MessageLog` the bump is a phase without counts.
- Dissolving a Conversation in the middle of a send: `MessageLog` creates Conversations but never deletes them.
- Field validation of Message bodies, titles and handles, timestamps, and text formatting.
- 64-bit wrap-around of Sequence Numbers, connection sequences and connection ids; the limiter's 32-bit counters and its saturating product are modelled.
- `Convergence.EveryOrderConverges`: a full `loadMessages` in between is not one of the deliveries, because it replaces the bucket; Client Message IDs are assumed distinct, which `AllHeldIffKeysDiffer` shows to be needed.
- `Repair.ConversationStore.RepairConversation`: `last` names a request by which the pages have caught up with the writers; every run of sends has one (`RunsAreCaughtUpWith`), and without one the walk has no last page (`AlwaysBehindNeverEnds`). One Conversation at a time; failed requests end the walk and are not modelled.
- `GapRepair.EveryReplayHeals`: an answer goes onto the wire in one turn; a closing queue or a failing clock ends the connection and with it the run. What an unprovable or damaged replay leaves open is left to the Conversation repair, whose signal `Connection.GapIsDetectedExactly` shows to fire with every gap.
- `LoginLimiter.AnsweredAsIfAlone`: calls take effect in the order of the instants they read; the code reads its clock before taking the lock.
- `TypingClient.ContinuousTypingNeverBlinks`: no delivery delay, as the promise has it.
- Group announcements, membership notices and the client's member_count bookkeeping.
- Presence checkpoints and last-seen writes, and the socket's timers and backoff.
- A heartbeat that fails right after registering leaves the registration behind; `Registry` is about the map, not about who calls it.
- Direct Conversations: their pair key and the refusal of Group questions about them.
