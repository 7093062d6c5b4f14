# Vetta protocol and agent models

Dafny models of the hardest state machines and text formats of the Vetta repository, and proofs about them:

- **The remote event link.** `EventJournal` numbers, keeps, evicts and replays events; `RemoteConnection` is one end of
  the link, initiating or accepting, as functions on values, and `RemoteEndpoint` the object with its fields, whose
  `Valid()` carries the delivery guarantee through every public method. `EventLink` joins two ends by two queues in which
  frames may be lost, repeated and reordered, plaintext handshake frames may turn up at any time, transports may go and
  connections may be replaced. `EventDelivery`, `AckOrdering`, `ResumeSafety` and `CatchUp` say what the application is
  given in every run, `CatchUpRuns` that it catches up, `RefusedResume` that a refusal reaches it, and `RepeatedResync`
  shows a run that gives it events twice. `FrameOutcomes` says of everything that can happen to one end when it fails,
  holds, ignores, answers or hands on, and what it says.
  `DirectHandshake` is the handshake without a relay.
- **The relay.** `RemotePairRoom` is the deployed room over sockets and `RoomPairing` what it has last told them;
  `RoomAgreement` puts any number of clients with WebSocket transports, and other holders of the room's credentials, on it
  and proves that clients with nothing left to learn hold mirrored keys; `RoomReconnect` says when a client that connects
  again gets a socket and gets through; `RoomMeeting` and `RoomReturn` are runs in which two clients come up, and come back.
  `FakeRelay` is the room of the in-memory relay, `RelayPairing` any number of parties in it, and `KeyAgreement` the same
  theorem for that relay. Step by step, as far as both have the state, the two rooms correspond; `RoomOutcomes` says who is
  told what.
- **Shared team history and context.** `SharedHistory` pages through records without splitting a character,
  `HistoryReading` follows the pages and `HistoryPages` says which are refused and how full they are; `SharedContext` plans and builds compacted checkpoints, `ContextCompaction` and
  `CompactionChain` say what they keep. `CanonicalEncoding` and `JsonText` make identifiers and fingerprints exact.
- **The capability runtime.** `Capabilities` (in `CapabilityRegistry.dfy`), `CapabilityAccess`, `CapabilityOwnership` and
  `CapabilityRuns`: registrations, disposals, sessions and invocations in any interleaving.
- **The agent loop.** `AgentLoop` is the loop over oracles for the model, the tools, the host and the queues;
  `AgentRuns`, `AgentAccounts`, `AgentEndings` and `AgentTraces` are about every run of it: its budgets and retries, what
  becomes of every message, why it ends, and the order of what it streams.
- **Scanners and codecs.** `JsonScanner`, `TextToolCalls`, `ProxyStream`, `ProxyPushes`, `Base64Url`.
- **Policy extensions.** `ExtensionHost`: registration with undo closures.

`dafny verify dfyconfig.toml` checks the project.

## How the models are built

Code that changes fields or variables step by step is a class or a method with loops. Each such method is proved equal to
a function on values (`After...`, `...Of`), and the theorems are about these functions; theorems that end in `Exactly`,
`Outcome` or `ForItsReason` say what a function does without naming the functions it is made of. Code made of expressions is
functions. An `await` is a point at which other steps may come between: a replay keeps what it still has to send, and the
answer to a hello keeps where it waits.

Strings are sequences of UTF-16 code units where their length or surrogates matter. `stableTeamEventId` is its canonical
text, not the 64-bit hash of that text, so statements about identifiers hold as far as the hash does not collide. X25519
and HKDF are function parameters with the laws they are used for (`Commutes`, `FixedLength`, `CollisionFree`), and a
sealed frame opens under its own key only. The clock, random bytes, `JSON.parse`, model replies, tools, checkpoints and
providers are parameters too.

## What was found

- A resync event is kept in the journal and replayed like any other. Replayed a second time it takes the receiver back,
  and the application is given the events after it again. Numbers rise exactly if no resync arrives at or below the
  position held at that moment (`CatchUp.RisesExactlyUnlessResyncFallsBack`); `RepeatedResync.EventsRepeatInARun` is a run
  of the link in which one does: the resync is lost, two later events each make the receiver ask again, both are answered.
- An accepting end comes online when its acknowledgement has been sent, whatever happened in the meantime, even a close;
  it is then without keys exactly if they were dropped and not agreed on again (`DirectHandshake.OnlineWithoutKeysExactly`,
  `ClosedConnectionComesOnline`, `ClosedWhileAnswering`).
- A transport over a WebSocket keeps a socket that has closed, and one that is open, for the next `connect()`. So
  `connect()` gets through without another one exactly if the transport holds no socket or one that is still opening
  (`RoomReconnect.ConnectGetsThroughExactly`). After a loss it waits for the closed socket until the connection is closed
  (`RoomReconnect.GetsSocketAfterLossExactly`, with the runs `RoomReturn.LostStaysDown` and `ClosingFirstSettlesAgain`); on
  an open socket it says hello again, and the room closes that socket (`RoomReturn.LateCloseCostsSocket`). The desktop link
  makes a new connection instead.
- A retry that the host grants after an assistant error is lost when the turn before had no tool calls and nothing is
  queued (`AgentRuns.ErrorRetryAsksAgainExactly`, with the concrete run `RetryCanBeLost`). The comment on `retry` in
  `packages/agent/src/types.ts:52` says that only the checkpoint after an assistant error uses it; the loop also honours
  it after a result, where it is never lost (`AgentRuns.ResultRetryAsksAgain`).
- `agent_end` reports a message that was never announced when a response stream closes without a terminal event
  (`AgentRuns.EveryRunIsProper` states exactly when the two lists agree; `ReplyCanStayUnannounced` is such a run).
- A checkpoint's fingerprint covers the policy once and not per record, so an earlier summary is reused for records that
  agree with its own in all fields but `projectionPolicyId` (`ContextCompaction.ReusedExactlyWhenUnchanged`,
  `ReusedUnderAnotherPolicy`).
- Disposing extension registrations in the order in which they were made can bring back a policy whose registration is
  already disposed (`ExtensionHost.OutOfOrderRestoresExactly`, `EarlierPolicyComesBack`).
- Tool arguments that go on after the end of their block are appended to the text `undefined`, and what came before is
  lost (`ProxyStream.DeltaAfterEnd`; `ToolTextIsDeltasExactly` states when the text is the concatenation of the deltas).
- The owner of a module is its publisher and identifier joined by a colon; with a colon in a publisher two modules have the
  same owner (`CapabilityOwnership.ModuleOwnersExactly`, `ModuleOwnersCanCoincide`), and one replaces the other.
- A page cursor is also accepted in a scope of another length if scope and records read the same part by part
  (`HistoryReading.AcceptedExactly`, `AcceptedInLongerScope`); for scopes of one length, as the application uses them,
  nothing but the unchanged history is accepted (`AcceptedExactlyWhenUnchanged`).

## Model

| member | source | states |
|---|---|---|
| EventJournal.ReplayExactInEveryRun | packages/remote-control/src/event-journal.ts:41-72 | After any history of emits, acknowledgements and evictions under any clock, `replay(a)` is refused exactly if a is ahead of the journal, or behind its newest event and below some acknowledged or evicted number; otherwise it is the events a+1 onwards in order; at most `capacity` entries are kept |
| EventJournal.ReplayExact | packages/remote-control/src/event-journal.ts:56-64 | The same for one sound history, against everything ever emitted |
| EventJournal.StepKeepsSound | packages/remote-control/src/event-journal.ts:41-72 | Every operation keeps the entries a suffix of what was emitted, at most `capacity` of them, and `oldestKept` the highest number acknowledged or evicted |
| EventJournal.EvictsWhatItMust | packages/remote-control/src/event-journal.ts:66-72 | Eviction takes entries from the front as long as there are too many or the first is too old, and not one more |
| EventJournal.AcknowledgesExactly | packages/remote-control/src/event-journal.ts:51-54 | In every run an acknowledgement drops exactly the entries up to its number |
| EventJournal.MakeBounds | packages/remote-control/src/event-journal.ts:31-35 | The capacity is the requested one but at least 1, the age the requested one but at least 0 |
| EventJournal.RemoteEventJournal.NextSequence | packages/remote-control/src/event-journal.ts:41-44 | Hands out the next number and changes nothing else |
| EventJournal.RemoteEventJournal.Remember | packages/remote-control/src/event-journal.ts:46-49 | The loop of pushes and shifts has the effect of `Remembered` on the log |
| EventJournal.RemoteEventJournal.Acknowledge | packages/remote-control/src/event-journal.ts:51-54 | Drops the acknowledged prefix and remembers how far it went |
| EventJournal.RemoteEventJournal.Replay | packages/remote-control/src/event-journal.ts:56-64 | Evicts first, then answers as `ReplayAnswer` does |
| EventJournal.RemoteEventJournal.Evict | packages/remote-control/src/event-journal.ts:66-72 | Evicts by count and age from the front |
| RemoteEndpoint.Connection.DeliversInOrder | packages/remote-control/src/connection.ts:540-570 | Every connection object whose peer sends genuine frames has delivered, between two resyncs, consecutive events, each as its sender numbered it, and its position is that of the last one |
| RemoteEndpoint.Connection.Connect | packages/remote-control/src/connection.ts:129-134 | New ephemeral key, no session keys, nothing held, from the states that may connect; the delivery guarantee is kept |
| RemoteEndpoint.Connection.SendHello | packages/remote-control/src/connection.ts:140 | Once the transport is up an initiating end says hello under its current ephemeral key |
| RemoteEndpoint.Connection.ConnectFails | packages/remote-control/src/connection.ts:141-144 | A transport or send that fails leaves the connection failed |
| RemoteEndpoint.Connection.EmitEvent | packages/remote-control/src/connection.ts:198-211 | Numbers and records the event, sends it if online |
| RemoteEndpoint.Connection.DeliverEvent | packages/remote-control/src/connection.ts:218-221 | Sends an event numbered elsewhere, only if online |
| RemoteEndpoint.Connection.HandleFrame | packages/remote-control/src/connection.ts:238-290 | Dispatches every frame for both handshake roles as `AfterFrame` says, including the frames held before the keys exist, and keeps the delivery guarantee; a resume that the journal refuses adds and, while online, sends exactly one resync |
| RemoteEndpoint.Connection.HandlePeerRestart | packages/remote-control/src/connection.ts:299-313 | A repeated hello is ignored, another one drops the keys and starts a new answer |
| RemoteEndpoint.Connection.HandleInboundHello | packages/remote-control/src/connection.ts:315-331 | Checks and pins the identity, then waits for the decision of the host |
| RemoteEndpoint.Connection.ContinueInbound | packages/remote-control/src/connection.ts:332-384 | What each wait of the answer to a hello leads to: refusal, pending approval, agreement on keys, coming online |
| RemoteEndpoint.Connection.AgreeOnKeys | packages/remote-control/src/connection.ts:362-382 | Derives the keys under the current ephemeral key and acknowledges the hello |
| RemoteEndpoint.Connection.HandleHelloAck | packages/remote-control/src/connection.ts:386-425 | A stale or wrong acknowledgement changes nothing or fails the connection, a right one brings it online |
| RemoteEndpoint.Connection.HandlePairingPending | packages/remote-control/src/connection.ts:427-444 | Records the pinned identity and waits for approval |
| RemoteEndpoint.Connection.GoOnline | packages/remote-control/src/connection.ts:462-478 | Opens the held frames one by one while still online, then reports the position |
| RemoteEndpoint.Connection.HandleEvent | packages/remote-control/src/connection.ts:540-570 | Accepts the next event, ignores a duplicate, asks again on a gap, adopts a resync |
| RemoteEndpoint.Connection.Replay | packages/remote-control/src/connection.ts:501-517 | Refused replays become a resync event, others a replay in progress, as `AfterReplay` says; `FrameOutcomes.ResumeOutcome` says it without that function |
| RemoteEndpoint.Connection.ContinueReplay | packages/remote-control/src/connection.ts:510-513 | One more event of a replay, or its end once there are no keys |
| RemoteEndpoint.Connection.HandleSessionFrame | packages/remote-control/src/connection.ts:480-499 | Applies events, acknowledgements and resumes |
| RemoteEndpoint.Connection.OpenSealed | packages/remote-control/src/connection.ts:450-460 | A frame that cannot be opened fails the connection |
| RemoteEndpoint.Connection.HandleClose | packages/remote-control/src/connection.ts:599-611 | Drops the keys; a failed connection stays failed |
| FrameOutcomes.EventOutcome | packages/remote-control/src/connection.ts:540-570 | An event that is read is handed over exactly if it is the next one or a resync, and then acknowledged; a gap is answered by asking again from the position; anything older changes nothing at all |
| FrameOutcomes.ResumeOutcome | packages/remote-control/src/connection.ts:501-517 | A resume that the journal refuses after eviction numbers exactly one more event, the resync, and sends exactly that, sealed, if the connection is online; an answer numbers nothing and is sent in order |
| FrameOutcomes.ReportOutcome | packages/remote-control/src/connection.ts:480-499 | Acknowledgements raise the mark and drop entries, requests are handed on; none of them is answered |
| FrameOutcomes.FrameFailsExactly | packages/remote-control/src/connection.ts:238-290 | A frame that does not bring the connection online makes it fail, with keys dropped and transport closed, exactly if it violates the protocol or comes from another identity than the pinned one; each gives its own error |
| FrameOutcomes.HeldExactly | packages/remote-control/src/connection.ts:269-282 | A sealed frame is held exactly if it comes while an initiating end without keys shakes hands and fewer than 32 are held |
| FrameOutcomes.PresenceOutcome | packages/remote-control/src/connection.ts:256-267 | A peer that goes away takes the keys and the held frames of a connection that is up; the news is passed on in any state |
| FrameOutcomes.WaitingOutcome | packages/remote-control/src/connection.ts:427-444 | A pairing that waits for approval: remembered, then refused or waited for |
| FrameOutcomes.HelloOutcome | packages/remote-control/src/connection.ts:299-331 | A hello that is neither repeated nor refused waits for the decision of the host; while online the connection starts over with another ephemeral key |
| FrameOutcomes.StaleAckIgnored | packages/remote-control/src/connection.ts:386-398 | An acknowledgement of another attempt changes nothing |
| FrameOutcomes.OnlineOutcome | packages/remote-control/src/connection.ts:462-478 | An accepted acknowledgement reads the held frames as if each arrived just then, until one takes the connection off again; otherwise it asks for what follows the position it has then reached |
| FrameOutcomes.AnswerOutcome | packages/remote-control/src/connection.ts:332-380 | A hello is acknowledged, under its own connection and the current keys, exactly if it is approved while the connection waits for that; deferred it waits on, refused it fails the connection |
| FrameOutcomes.AnsweredOutcome | packages/remote-control/src/connection.ts:371-383 | Once the acknowledgement is sent the connection is online and asks for what it lacks if it has keys; a send that failed fails it |
| FrameOutcomes.ConnectOutcome | packages/remote-control/src/connection.ts:129-134 | Which states ignore `connect`, and what a new attempt resets |
| FrameOutcomes.HelloSaid | packages/remote-control/src/connection.ts:140 | The initiating end introduces itself under its own keys, the accepting end stays silent |
| FrameOutcomes.ClosingOutcome | packages/remote-control/src/connection.ts:152-158 | A closed connection stays as it is, a failed one stays failed when its transport closes, otherwise the keys go and the state is announced |
| FrameOutcomes.SpokenExactly | packages/remote-control/src/connection.ts:198-221 | An event is sent exactly if the connection is online and has keys, whoever numbered it; a new one is recorded in any case |
| FrameOutcomes.ReplayOutcome | packages/remote-control/src/connection.ts:510-513 | A replay goes on with its next event, and ends with its last one or with the keys |
| RefusedResume.RefusalReachesTheReceiver | packages/remote-control/src/connection.ts:501-549 | In every run in which an online sender refuses a resume it numbers exactly the resync, and once the receiver has read all that was sent to it, it was given the resync on the way and stood at its number |
| EventLink.DeliveryInEveryRun | packages/remote-control/src/connection.ts:198-211 | In every run of two ends, over transports that lose, repeat and reorder frames, the application is given, between two resyncs, consecutive events, each once and in order, and each is the event its sender gave that number |
| EventLink.NextKeepsHealthy | packages/remote-control/src/connection.ts:480-517 | Every step of either end keeps both ends well and only appends to what was emitted |
| EventDelivery.FrameKeepsWell | packages/remote-control/src/connection.ts:238-290 | Whatever frame arrives, delivered events stay continuous and genuine and the position stays that of the last one |
| EventDelivery.InboundKeepsWell | packages/remote-control/src/connection.ts:315-384 | So does every stage of answering a hello |
| EventDelivery.RepeatOnlyAcrossResync | packages/remote-control/src/connection.ts:540-570 | An event can reach the application again only after a resync in between |
| AckOrdering.FrameReports | packages/remote-control/src/connection.ts:540-576 | Whatever arrives, a receiver reports its position in order and never behind where it was |
| AckOrdering.InboundReports | packages/remote-control/src/connection.ts:362-384 | Answering a hello reports nothing but the position |
| ResumeSafety.ReportsNeverDecrease | packages/remote-control/src/connection.ts:480-517 | In every run in which frames arrive in order if at all, and without a resync from the sender, the acknowledgements and resumes on their way to it never decrease and are never below one it has applied |
| ResumeSafety.RefusedExactlyWhenEvicted | packages/remote-control/src/event-journal.ts:51-72 | In those runs a resume on its way would be refused exactly if an event above its position was evicted by count or age, never because of an acknowledgement |
| CatchUp.CatchesUp | packages/remote-control/src/connection.ts:501-569 | A receiver that is sent the answer to `replay(a)` in order, mixed arbitrarily with live events and duplicates, ends at or beyond the sender's position when it answered, each event delivered once |
| CatchUpRuns.CatchesUpInEveryRun | packages/remote-control/src/connection.ts:480-570 | In every run that delivers in order and without a resync from the sender: once a resume was answered and both ends go on talking, a receiver that has read everything, with no replay left, is at or beyond what the sender had numbered when it answered |
| CatchUp.RisesExactlyUnlessResyncFallsBack | packages/remote-control/src/connection.ts:540-570 | For every receiver and stream of events, the application is given ever greater numbers if and only if no resync arrives at or below the position held at that moment |
| RepeatedResync.EventsRepeatInARun | packages/remote-control/src/connection.ts:501-570 | A run of the link that delivers the events 1, 2, 3, 4, 2, 3, 4: a resync is lost and replayed twice |
| DirectHandshake.DirectHandshakeAgrees | packages/remote-control/src/connection.ts:299-425 | Once an accepting end approves a hello, the initiating end takes the acknowledgement exactly if it expects that identity, and then each opens what the other seals |
| DirectHandshake.OnlineWithoutKeysExactly | packages/remote-control/src/connection.ts:362-384 | After any history, and whatever happens between agreeing on keys and having sent the acknowledgement, an accepting end is then online, and without keys if and only if some action in between dropped them and no later one agreed on new ones |
| DirectHandshake.ClosedConnectionComesOnline | packages/remote-control/src/connection.ts:152-158 | A connection closed while its acknowledgement is being sent ends up online without keys |
| DirectHandshake.ClosedWhileAnswering | packages/remote-control/src/connection.ts:315-384 | The shortest such history: connect, a hello, its approval, a close, and the acknowledgement has been sent |
| RemoteCrypto.DerivedKeysAgree | packages/remote-control/src/crypto.ts:53-76 | Both ends derive mirrored keys from each other's public keys |
| RemoteCrypto.SharedKeyMeansSharedInputs | packages/remote-control/src/crypto.ts:53-76 | One end opens what the other seals, in either direction, only if both used the same four public keys |
| RemoteCrypto.KeysComeFromOneSecret | packages/remote-control/src/crypto.ts:53-76 | Both ends derive from one secret and salt, made of the shared secrets and public keys with the mobile first; the first half protects what the mobile sends |
| FakeRelay.Relay.Connect | packages/remote-control/src/fake-relay.ts:31-37 | A new transport takes over its role and closes the one before it |
| FakeRelay.Relay.Send | packages/remote-control/src/fake-relay.ts:39-55 | Registers and answers a hello, forwards sealed frames, refuses the rest |
| FakeRelay.Relay.AcknowledgePair | packages/remote-control/src/fake-relay.ts:67-87 | Tells both sides the other's keys once both have said hello |
| FakeRelay.Relay.Close | packages/remote-control/src/fake-relay.ts:57-65 | The peer is told that this side is gone |
| FakeRelay.Relay.Deliver | packages/remote-control/src/fake-relay.ts:124-133 | Frames queue per transport, in order, while it is connected |
| RoomOutcomes.AcceptedExactly | packages/remote-control/src/fake-relay.ts:39-55 | The in-memory relay accepts a frame exactly from the registered transport of its role, and only a hello or a sealed one |
| RoomOutcomes.JoinOutcome | packages/remote-control/src/fake-relay.ts:31-37 | A transport that joins is registered without a hello, and whoever held its role is cut off |
| RoomOutcomes.LeaveOutcome | packages/remote-control/src/fake-relay.ts:57-65 | A transport that leaves gives up its role if it holds it, and then the other role is told |
| KeyAgreement.KeysAgreeInEveryRun | packages/remote-control/src/fake-relay.ts:31-87 | In every run of the relay with any number of parties, reconnections and stale frames: a registered mobile and desktop that are up with empty inboxes hold mirrored keys |
| KeyAgreement.NextKeepsInv | packages/remote-control/src/fake-relay.ts:31-133 | Every step keeps the pairing invariant: what the last word in an inbox will make of the keys of its reader |
| KeyAgreement.NobodyCanOpen | packages/remote-control/src/crypto.ts:53-76 | What a party seals before its hello arrived cannot be opened by its peer |
| RemotePairRoom.PairRoom.Accept | apps/remote-relay/src/remote-pair-room.ts:85-95 | A new socket supersedes and closes every listed one of its role |
| RemotePairRoom.PairRoom.WebSocketMessage | apps/remote-relay/src/remote-pair-room.ts:105-143 | Lines are handled one by one until one is rejected; only a first hello and then sealed frames are taken |
| RemotePairRoom.PairRoom.WebSocketClose | apps/remote-relay/src/remote-pair-room.ts:145-152 | The peer is told, unless the socket was replaced or had not said hello |
| RemotePairRoom.PairRoom.AcceptHello | apps/remote-relay/src/remote-pair-room.ts:176-187 | Remembers the hello in the attachment and acknowledges the pair |
| RemotePairRoom.PairRoom.AcknowledgePair | apps/remote-relay/src/remote-pair-room.ts:190-218 | Both sides are sent the other's keys |
| RemotePairRoom.PairRoom.ForwardSealed | apps/remote-relay/src/remote-pair-room.ts:220-228 | To the authenticated peer, or the sender is told there is none |
| RoomOutcomes.RejectedExactly | apps/remote-relay/src/remote-pair-room.ts:116-143 | A socket is rejected exactly for a line that is no frame, for anything but a hello of its role before it has said one, and for anything but a sealed frame afterwards; nothing else happens then |
| RoomOutcomes.MessageOutcome | apps/remote-relay/src/remote-pair-room.ts:105-143 | A message is handled line by line up to the first forbidden one; without a line, or of the wrong shape, it is rejected |
| RoomOutcomes.HelloOutcome | apps/remote-relay/src/remote-pair-room.ts:176-218 | A first hello is stored; when each role then has an open socket with a whole hello, each is sent the acknowledgement of its own connection with the keys of the other, and otherwise nobody is sent anything |
| RoomOutcomes.ForwardOutcome | apps/remote-relay/src/remote-pair-room.ts:220-228 | A sealed frame goes to the open socket of the other role, or its sender is told that there is none |
| RoomOutcomes.AcceptOutcome | apps/remote-relay/src/remote-pair-room.ts:85-95 | A new socket takes the place of those of its role; all others stay |
| RoomOutcomes.CloseOutcome | apps/remote-relay/src/remote-pair-room.ts:145-152 | The other role is told exactly if the socket that closes had said hello and had not been superseded |
| RemotePairRoom.RunKeepsRoomInv | apps/remote-relay/src/remote-pair-room.ts:85-187 | In every run at most one socket of each role is open, and it is not superseded |
| RoomPairing.EachIsToldTheOther | apps/remote-relay/src/remote-pair-room.ts:85-228 | In every run of the deployed room, whenever an open mobile and an open desktop socket have both said hello, the last word to each is the acknowledgement with the other's keys |
| RoomPairing.StepKeepsPairInv | apps/remote-relay/src/remote-pair-room.ts:85-241 | Every accept, message, close and error of a socket keeps that, and at most one socket of a role that has neither gone nor been replaced |
| RoomAgreement.KeysAgreeInEveryRun | apps/remote-relay/src/remote-pair-room.ts:85-228 | In every run of any number of clients on the deployed room, with reconnections, lost sockets, late failures, replacements, rejections and strangers: a mobile and a desktop client that are up on open sockets, with nothing but sealed frames on the way, hold mirrored keys |
| RoomAgreement.NextKeepsInv | packages/remote-control/src/websocket-transport.ts:69-115 | Every step of a client, its transport, the room or a stranger keeps what the last word a client has read will make of its keys, and that the room has or gets its latest hello |
| RoomReconnect.OnlyAttachedHoldKeys | packages/remote-control/src/websocket-transport.ts:69-100 | In every run only a client on an open socket is up or holds keys, a closed connection holds no socket, and one without a socket may connect |
| RoomReconnect.GetsSocketExactly | packages/remote-control/src/websocket-transport.ts:71-72 | In every run, connecting creates a socket if and only if the transport holds none |
| RoomReconnect.LostUntilClosed | packages/remote-control/src/websocket-transport.ts:69-85 | A client that lost its socket stays down, however often it connects, until it closes its connection |
| RoomReconnect.GetsSocketAfterLossExactly | packages/remote-control/src/websocket-transport.ts:69-100 | After a loss and whatever follows it, the client has got a new socket if and only if it closed its connection and connected again after that |
| RoomReconnect.ConnectGetsThroughExactly | packages/remote-control/src/websocket-transport.ts:69-90 | In every run, a `connect` that is not ignored can lead, without another one, to the room holding the client's latest hello on an open socket if and only if the transport holds no socket or one that is still opening |
| RoomReconnect.ThroughIsLatest | apps/remote-relay/src/remote-pair-room.ts:176-187 | The hello that got through is the one with the client's current ephemeral key |
| RoomReconnect.NextKeepsAnnounced | apps/remote-relay/src/remote-pair-room.ts:121-143 | The hellos taken and on their way on a socket never become fewer as long as the room has it open; so a second one closes it |
| RoomReturn.LostStaysDown | packages/remote-control/src/websocket-transport.ts:69-85 | A run: after a first meeting the mobile client loses its socket and connects, and is left without a socket |
| RoomReturn.LateCloseCostsSocket | packages/remote-control/src/websocket-transport.ts:73-77 | A run: the close of an earlier socket arrives late, the client connects on the socket it has, and the room closes that socket |
| RoomReturn.ClosingFirstSettlesAgain | packages/remote-control/src/websocket-transport.ts:92-99 | A run: it loses its socket, closes its connection and connects, and both are settled with mirrored keys again |
| RoomMeeting.FirstMeetingAgrees | apps/remote-relay/src/remote-pair-room.ts:85-218 | A mobile and a desktop client that accept each other's identity come up and hold mirrored keys in the eight steps of a first meeting |
| RemotePairRoom.AcceptMatchesJoin | apps/remote-relay/src/remote-pair-room.ts:85-95 | Accepting a socket is a new transport connecting to the in-memory relay |
| RemotePairRoom.HelloMatchesSend | apps/remote-relay/src/remote-pair-room.ts:176-218 | The first hello of a socket is answered frame for frame as by the in-memory relay |
| RemotePairRoom.ForwardMatchesSend | apps/remote-relay/src/remote-pair-room.ts:220-228 | Sealed frames are forwarded as by the in-memory relay |
| RemotePairRoom.CloseMatchesLeaveExactly | apps/remote-relay/src/remote-pair-room.ts:145-152 | Closing an open socket does what the in-memory relay does if and only if both sides had said hello or there is no peer |
| RemotePairRoom.ClosedSocketCannotPair | apps/remote-relay/src/remote-pair-room.ts:105-143 | What a replaced or rejected socket still sends changes no other socket's state or hello |
| CanonicalEncoding.CanonicalInjective | packages/agent-team/src/context-projector.ts:14-17 | Different lists of parts never have the same canonical text, even if parts contain digits, `:` or `|` |
| CanonicalEncoding.PartIsReadable | packages/agent-team/src/context-projector.ts:15 | One encoded part can be read off the front of any text |
| JsonText.QuotedIsReadable | packages/agent-team/src/shared-history.ts:103-113 | A quoted string can be read off the front of any text it starts, for all strings, lone surrogates included |
| JsonText.QuotedIsReadBack | packages/agent-team/src/shared-history.ts:103-113 | What is quoted is read back as it was by the rules of RFC 8259, section 7, whatever follows it |
| TeamRecords.SerializedInjective | packages/agent-team/src/shared-history.ts:103-113 | Different records are serialized differently |
| TeamRecords.SerializedSharedInjective | packages/agent-team/src/shared-context.ts:163-170 | Equal checkpoint serializations mean equal records but for the policy |
| SharedHistory.PageTeamSharedHistory | packages/agent-team/src/shared-history.ts:38-101 | The whole query, its errors in order and its loop, computes `PageOf` |
| SharedHistory.FillPage | packages/agent-team/src/shared-history.ts:63-86 | The loop that fills a page computes `Fill` |
| HistoryReading.FillAdvances | packages/agent-team/src/shared-history.ts:58-100 | Every page is within both limits, made of pieces that begin and end on whole characters, continues what was read, and is not empty unless nothing is left |
| HistoryReading.EndIsSafe | packages/agent-team/src/shared-history.ts:69-71 | A fragment never ends inside a surrogate pair, and two characters always make progress |
| HistoryReading.EveryReadIsComplete | packages/agent-team/src/shared-history.ts:58-100 | Following `nextCursor` from any entry, with any legal limits chosen anew on each call and a history that grows meanwhile, never fails, ends, and its fragments assemble to exactly the records the first call saw from that entry on |
| HistoryPages.PageIsFull | packages/agent-team/src/shared-history.ts:63-86 | A page breaks off only when no record is left, all its places are taken, or no character more fits; the last free one is left only in front of a surrogate pair |
| HistoryPages.RefusedForItsReason | packages/agent-team/src/shared-history.ts:44-53 | Limits out of range, an entry together with a cursor, duplicate identities and an unknown last entry are refused, each with its own error, in this order |
| HistoryPages.SeenRefusedForItsReason | packages/agent-team/src/shared-history.ts:54-68 | Beyond that a query is refused exactly if the records it sees are not those its cursor was made for, lack the entry to start with, or do not allow a fragment to begin at its offset |
| HistoryReading.AppendStable | packages/agent-team/src/shared-history.ts:48-60 | A page read through a cursor does not depend on what was appended since |
| HistoryReading.AcceptedExactly | packages/agent-team/src/shared-history.ts:38-60 | What becomes of a cursor in any scope and history, error by error: it is accepted if and only if identities are unique, its last record is there, scope and records up to it read the same part by part as those it was issued for, and the record to continue with is among them |
| HistoryReading.AcceptedInLongerScope | packages/agent-team/src/shared-history.ts:38-60 | A cursor that is accepted in a scope of another length |
| SharedContext.PlanTeamSharedContextCompaction | packages/agent-team/src/shared-context.ts:176-211 | The loop over the tail computes `PlanOf`, errors included |
| ContextCompaction.RequiredPlanSplitsSource | packages/agent-team/src/shared-context.ts:187-211 | A summary is required exactly if the source is too long, and then the source is split into a non-empty prefix and the tail |
| ContextCompaction.PlanReuses | packages/agent-team/src/shared-context.ts:203-210 | A required plan hands on exactly what is left to summarize after the summary it reuses, with the text and checkpoint of that |
| ContextCompaction.PlanRefusedExactly | packages/agent-team/src/shared-context.ts:182-185 | Planning is refused exactly for a limit below one or a negative tail |
| ContextCompaction.CompactionRefusedExactly | packages/agent-team/src/shared-context.ts:213-224 | Compacting is refused exactly for a plan without a summary, an invisible summary, or a tail that leaves nothing, each with its own error |
| ContextCompaction.CompactedExtent | packages/agent-team/src/shared-context.ts:251-266 | The checkpoint reaches from revision 0 to the given one and names its parent |
| ContextCompaction.SummaryRecordOutcome | packages/agent-team/src/shared-context.ts:230-249 | The summary is a record of the system, dated like the last record that it sums up |
| ContextCompaction.AcceptedIsNamed | packages/agent-team/src/shared-context.ts:56-123 | In a checkpoint that the validator accepts no identifier is empty |
| ContextCompaction.ImportedOutcome | packages/agent-team/src/shared-context.ts:339-358 | A shared record is imported under its author, or else its member, or else the system, and keeps its kind |
| ContextCompaction.TailIsLongest | packages/agent-team/src/shared-context.ts:192-201 | The tail is within `keepRecentCharacters` and cannot be longer, unless the whole source would fit: then it is the last record |
| ContextCompaction.RawCheckpointAccepted | packages/agent-team/src/shared-context.ts:134-151 | A raw checkpoint is accepted by the validator exactly if its events are identified uniquely and no name is empty |
| ContextCompaction.CompactedAccepted | packages/agent-team/src/shared-context.ts:213-267 | A compacted checkpoint is accepted by the validator exactly if the plan was compactable: unique non-empty ids, and a tail of non-summary records of that policy |
| ContextCompaction.FingerprintDecides | packages/agent-team/src/shared-context.ts:153-173 | Fingerprints agree exactly for sources that agree in all six fingerprinted fields |
| ContextCompaction.ReusedExactlyWhenUnchanged | packages/agent-team/src/shared-context.ts:269-294 | An earlier summary is reused exactly if the new prefix covers it and everything it was built from is still there; the reused text is its trimmed summary |
| ContextCompaction.AnySummaryReusedExactly | packages/agent-team/src/shared-context.ts:269-310 | The same for a checkpoint of any origin, with a plain text in place of an envelope |
| ContextCompaction.ReusedUnderAnotherPolicy | packages/agent-team/src/shared-context.ts:269-294 | A summary is reused for its records under any other policy |
| ContextCompaction.ReadersExist | packages/agent-team/src/shared-context.ts:300-310 | The summary can be read off its envelope unambiguously |
| CompactionChain.EverySummaryAccounts | packages/agent-team/src/shared-context.ts:176-294 | In every chain of compactions each summary accounts for exactly the records in `summarizedSourceEntryIds`, prefix and tail are the whole source once, and a summary that builds on an earlier one was given that one's own text |
| CompactionChain.NewEntryAccounts | apps/desktop/src/main/agent-teams/team-shared-context-service.ts:352-390 | One more compaction, reusing the earlier text when there is nothing new to summarize |
| Capabilities.CapabilityRegistry.RegisterOwner | packages/capability-runtime/src/registry.ts:108-157 | The loops over bindings and providers have the effect of `AfterRegister` |
| Capabilities.CapabilityRegistry.Dispose | packages/capability-runtime/src/registry.ts:149-156 | Removes exactly the providers of that owner and generation and aborts its controller |
| Capabilities.CapabilityRegistry.RegisterModule | packages/capability-runtime/src/registry.ts:53-105 | Validation in order, then registration |
| Capabilities.CapabilityRegistry.CheckBindings | packages/capability-runtime/src/registry.ts:110-132 | Finds the first binding that cannot be registered |
| Capabilities.CapabilityRegistry.Start | packages/capability-runtime/src/registry.ts:159-181 | Not found, wrong version or aborted, otherwise the current provider |
| CapabilityOwnership.RegistrationAllOrNothing | packages/capability-runtime/src/registry.ts:108-157 | A registration is accepted exactly if layers, ids and owners permit, replaces everything the owner had by one new generation, touches no one else, and otherwise changes nothing |
| CapabilityOwnership.RegistrationRefusedForItsReason | packages/capability-runtime/src/registry.ts:108-132 | An owner without a name is refused; otherwise the first binding of another layer, bound twice or provided by another owner decides, and its own fault gives the error |
| CapabilityOwnership.ModuleBindsExactly | packages/capability-runtime/src/registry.ts:53-105 | A module is registered exactly if it binds every capability it declares, and nothing else, once and in the declared version, under its own publisher |
| CapabilityOwnership.ModuleRefusedForItsReason | packages/capability-runtime/src/registry.ts:53-105 | Each refusal of a module has its reason, the first in the order of the checks |
| CapabilityOwnership.LastDeclarationCounts | packages/capability-runtime/src/registry.ts:67 | Of several declarations of an identifier the last one counts |
| CapabilityOwnership.PublisherExactly | packages/capability-sdk/src/contracts.ts:146-152 | The publisher of an identifier is what stands between its second dot and its third, or the end |
| CapabilityOwnership.ModuleOwnersExactly | packages/capability-runtime/src/registry.ts:104 | Different modules of one publisher have different owners, and so have any two modules as long as no publisher contains a colon |
| CapabilityOwnership.ModuleOwnersCanCoincide | packages/capability-runtime/src/registry.ts:104 | Two modules with one owner, when a publisher contains a colon |
| CapabilityOwnership.StartedExactly | packages/capability-runtime/src/registry.ts:164-181 | A provider is found exactly if one is registered in the version asked for and nobody aborted it or the caller; each refusal says which of these fails |
| CapabilityOwnership.FinishedExactly | packages/capability-runtime/src/registry.ts:174-213 | An invocation succeeds exactly with an output that can be read, unless it was aborted; which error it ends with otherwise |
| CapabilityOwnership.StaleDisposerRemovesNothing | packages/capability-runtime/src/registry.ts:149-156 | A disposer removes exactly what its own registration put there, and nothing once that was replaced or disposed |
| CapabilityRuns.StaleDisposerInEveryRun | packages/capability-runtime/src/registry.ts:149-156 | In every reachable state a disposer whose registration was replaced or disposed removes nothing |
| CapabilityRuns.RevokedSessionIsNeverServed | packages/capability-runtime/src/access.ts:145-161 | Once a session is revoked nothing is served to it again, whatever happens later |
| CapabilityRuns.ServedExactly | packages/capability-runtime/src/access.ts:145-207 | In every run an invocation is served exactly if its session was opened under options that allow the request and was not revoked since, and the layer provides the capability in that version; it is served by that provider |
| CapabilityRuns.SessionWasOpened | packages/capability-runtime/src/access.ts:76-143 | Every session was opened by one event of the run, holds what that asked for, and is revoked exactly if a later event revoked it |
| CapabilityAccess.AccessSession.Check | packages/capability-runtime/src/access.ts:145-201 | Decision, audit reason and error of one request, in the order of the checks, as `Authorize` says; the two rows below say it without that function |
| CapabilityAccess.LetThroughExactly | packages/capability-runtime/src/access.ts:145-201 | A request is let through exactly if the session is neither revoked, aborted nor expired, holds an unexpired grant for the capability, the input parses and passes every constraint of that grant, and the request is not aborted |
| CapabilityAccess.DeniedForItsReason | packages/capability-runtime/src/access.ts:154-228 | Every denial has its error and its audit reason |
| CapabilityAccess.AccessSession.Revoke | packages/capability-runtime/src/access.ts:137-141 | Revokes and aborts once |
| CapabilityAccess.CreateSession | packages/capability-runtime/src/access.ts:76-143 | Validates the subject, the expiry and the grants in order |
| CapabilityAccess.GrantsExactly | packages/capability-runtime/src/access.ts:87-121 | A session is granted exactly if every grant is usable and none is given twice, and then holds exactly those grants |
| CapabilityAccess.OpenedExactly | packages/capability-runtime/src/access.ts:76-143 | A session is opened exactly if its subject is named, its expiry is a time and every grant can be given; it is then in force until that time with exactly those grants |
| CapabilityAccess.OpeningRefusedForItsReason | packages/capability-runtime/src/access.ts:76-121 | Why a session is not opened: its subject, its expiry, its grants |
| CapabilityAccess.GrantRefusedForItsReason | packages/capability-runtime/src/access.ts:88-106 | The first grant that cannot be given decides, and gives the error |
| CapabilityRuns.OneRegistrationPerOwner | packages/capability-runtime/src/registry.ts:139-146 | In every reachable state the providers of one owner share one generation and one controller that is not aborted |
| CapabilityRuns.StepSignals | packages/capability-runtime/src/registry.ts:174-203 | One event aborts the signal of a running invocation exactly if it replaces or disposes its registration, revokes its session or aborts its request |
| CapabilityRuns.InvocationSucceedsExactly | packages/capability-runtime/src/registry.ts:159-204 | After any run, an invocation succeeds exactly if its provider gives a readable output and none of these happened before it finished |
| AgentLoop.RunLoop | packages/agent/src/agent-loop.ts:99-268 | Both nested loops with all their exits compute `AgentRun` |
| AgentLoop.TakeTurn | packages/agent/src/agent-loop.ts:137-197 | One turn of the inner loop up to the reply, its limits and its error exit |
| AgentLoop.HandleReply | packages/agent/src/agent-loop.ts:199-257 | Tool calls, the end of the turn, the checkpoint after a result and what is queued next, as `AfterReply` says; the rows on `AgentAccounts` and `AgentEndings` say over whole runs what must come of it |
| AgentLoop.ExecuteToolCalls | packages/agent/src/loop/tool-execution.ts:8-136 | Runs the calls in order and skips the rest once a user message is queued |
| AgentRuns.EveryToolCallAnswered | packages/agent/src/loop/tool-execution.ts:22-133 | Every tool call gets exactly one result, in the order of the calls; calls are skipped only from the first queued message on |
| AgentRuns.EveryRunIsProper | packages/agent/src/agent-loop.ts:126-292 | `agent_end` occurs last and nowhere else; turns begin and end alternately and only a failed checkpoint before the model leaves one open; no more model calls and tools than allowed; `agent_end` reports exactly the ended messages if and only if every reply was announced |
| AgentAccounts.EveryUserMessageIsUsed | packages/agent/src/agent-loop.ts:126-265 | In every run that finishes, the messages of users are exactly the prompts followed by everything the steering and continuation queues handed out, in the order of the requests; other runs have added a first part of these; the host is asked to continue only when nothing waits |
| AgentAccounts.ConversationInEveryRun | packages/agent/src/agent-loop.ts:137-235 | In every run the replies are exactly what the model said, in that order; every call has its one result, of its own run of a tool unless it was skipped, directly behind its reply; only the calls of a reply that exceeds the limit stay without |
| AgentAccounts.SkippedExactly | packages/agent/src/loop/tool-execution.ts:22-133 | A call is skipped exactly if a message was handed out after an earlier one of the same reply |
| AgentEndings.EveryRunEndsForItsReason | packages/agent/src/agent-loop.ts:153-292 | Every run ends at the first answer that stops it and for that reason: abort, error, failed checkpoint, signal or limit; it finishes only when the last reply has nothing left to do and both queues were found empty |
| AgentTraces.TraceInEveryRun | packages/agent/src/agent-loop.ts:133-235 | In every run each message is announced directly before it is delivered, each tool that starts ends and reports at once, and the turns end, one by one, with what the model said and the results just streamed |
| AgentRuns.ReplyCanStayUnannounced | packages/agent/src/loop/assistant-stream.ts:101-143 | A concrete run whose `agent_end` reports a message that never ended |
| AgentRuns.LimitedRunsEnd | packages/agent/src/agent-loop.ts:153-157 | With a limit on model calls both loops end whatever the oracles say |
| AgentRuns.ErrorRetryAsksAgainExactly | packages/agent/src/agent-loop.ts:176-197 | A retry granted after an assistant error leads to another model call exactly if the turn before had tool calls or began the round, or a steering or continuation message is waiting |
| AgentRuns.RetryCanBeLost | packages/agent/src/agent-loop.ts:187-191 | A concrete run that ends although a retry was granted |
| AgentRuns.ResultRetryAsksAgain | packages/agent/src/agent-loop.ts:242-247 | A retry granted after a result always leads to another model call |
| JsonScanner.ScanJsonObject | packages/agent/src/salvage-text-tool-calls.ts:16-36 | The loop computes `EndOfObject` |
| JsonScanner.ScanFindsObjectEnd | packages/agent/src/salvage-text-tool-calls.ts:16-36 | For every JSON object of any nesting, white space and escapes, and any following text, the scanner stops exactly at the end of the object |
| JsonScanner.UnfinishedHasNoEnd | packages/agent/src/salvage-text-tool-calls.ts:16-36 | In an object that breaks off no end is found |
| TextToolCalls.ParseLeadingJsonObject | packages/agent/src/salvage-text-tool-calls.ts:39-52 | Computes `ParseLeading` |
| TextToolCalls.PrintedObjectIsSplitOff | packages/agent/src/salvage-text-tool-calls.ts:39-52 | A printed object at the beginning of a text is split off exactly, whatever follows it |
| TextToolCalls.UnfinishedIsNotSplit | packages/agent/src/salvage-text-tool-calls.ts:39-52 | A printed object that breaks off is not split off |
| TextToolCalls.ParseLeadingSplits | packages/agent/src/salvage-text-tool-calls.ts:39-52 | White space, the parsed object and the rest make up the text |
| TextToolCalls.BeginsIsSplit | packages/agent/src/salvage-text-tool-calls.ts:39-52 | A text that begins with white space and an object that can be parsed is split right there, whatever follows |
| TextToolCalls.MatchedExactly | packages/agent/src/salvage-text-tool-calls.ts:60-68 | A tool is matched exactly if the object has keys and one candidate alone knows all of them |
| TextToolCalls.Message.SalvageTextToolCalls | packages/agent/src/salvage-text-tool-calls.ts:74-115 | Rewrites the message in place as `AfterSalvage` says; it reports a change if and only if some block begins with the arguments of one candidate |
| TextToolCalls.ChangesExactly | packages/agent/src/salvage-text-tool-calls.ts:92-113 | A block changes if and only if it is text that begins, after white space, with an object that can be parsed and whose keys one candidate alone knows |
| TextToolCalls.PrintedBecomesCall | packages/agent/src/salvage-text-tool-calls.ts:92-113 | White space, any printed object that can be parsed, and any rest become the call of that candidate with these arguments, and the rest if any of it can be seen |
| TextToolCalls.AllowedExactly | packages/agent/src/salvage-text-tool-calls.ts:83-85 | The candidates are the tools whose names are allowed, in their order |
| TextToolCalls.SalvageKeepsText | packages/agent/src/salvage-text-tool-calls.ts:92-107 | A block becomes its call and rest or stays, and nothing visible of it is lost: its visible characters are those of the arguments and of what is kept |
| TextToolCalls.SalvageKeepsMessage | packages/agent/src/salvage-text-tool-calls.ts:74-115 | Nor of a whole message: its blocks keep their order; each becomes a call, numbered in that order, and its rest exactly if it begins with the arguments of one candidate; the visible text is, block by block, the arguments that became calls and the text that is kept; the stop reason changes if and only if it stopped regularly and a call was found |
| ProxyStream.ProxyClient.Stream | packages/agent/src/proxy.ts:152-196 | The result is that of the lines of the concatenated text: chunk boundaries do not matter, an unterminated last line is dropped, nothing is processed after an error |
| ProxyStream.SplitInTwo | packages/agent/src/proxy.ts:164-166 | Splitting in two goes completes the same lines as splitting at once |
| ProxyStream.ProxyClient.ProcessProxyEvent | packages/agent/src/proxy.ts:211-340 | Updates the partial message and pushes as `Applied` and `Announced` say, or throws; the rows on `ProxyPushes` say without these functions what is pushed |
| ProxyPushes.PushesTellAll | packages/agent/src/proxy.ts:160-340 | As long as the client has not failed, its consumer is given one event for each event received, in order, apart from unknown ones and unmatched tool-call ends, up to the first terminal one; each has the kind, block and delta of its event, and an end the deltas since its start |
| ProxyPushes.EndsWithItsTerminalEvent | packages/agent/src/proxy.ts:323-335 | The last event is `Finished` if and only if the first terminal event is `Done`, with its reason, and `ErrorReported` if and only if that is an error of the server |
| ProxyPushes.AppliedExactly | packages/agent/src/proxy.ts:219-321 | The partial message takes all events if and only if each delta, and each end of a text or of thinking, has a block of its kind |
| ProxyPushes.FailsExactly | packages/agent/src/proxy.ts:160-196 | The client fails exactly if some line carries what cannot be parsed or does not fit; nothing changes from the first such line on, and the consumer is told unless its stream had ended |
| ProxyPushes.PayloadExactly | packages/agent/src/proxy.ts:168-171 | A line carries what is left between the white space after `data: `, if that is anything |
| ProxyStream.ProxyClient.HandleLine | packages/agent/src/proxy.ts:168-179 | One line: its prefix, its event, what is pushed |
| ProxyStream.BlocksAreTheirDeltas | packages/agent/src/proxy.ts:219-307 | Each block exists exactly if it was started, is of the kind it was last started as, and holds the deltas since that start: text and thinking blocks their concatenation; a tool call its partial text, which an end takes away and a later delta restarts from `undefined`, and the arguments parsed from it at the last delta |
| ProxyStream.ToolTextIsDeltasExactly | packages/agent/src/proxy.ts:283-323 | The partial text of a tool call is the concatenation of its deltas if and only if it has not ended, or the deltas up to its end spell `undefined` and another one followed |
| ProxyStream.DeltaAfterEnd | packages/agent/src/proxy.ts:293-323 | A delta after the end is appended to `undefined`, and what came before is lost |
| ProxyStream.ClientHoldsBlocks | packages/agent/src/proxy.ts:156-180 | So is every block of a client that has not failed, for the events its lines carry |
| Base64Url.RoundTrip | packages/remote-control/src/crypto.ts:123-141 | `fromBase64Url(toBase64Url(b))` is b for every byte sequence |
| Base64Url.EncodedIsUrlSafe | packages/remote-control/src/crypto.ts:123-127 | The text is one URL-safe character per six bits, with no padding |
| Base64Url.SextetsHoldTheBits | packages/remote-control/src/crypto.ts:123-127 | Three bytes and their four sextets are the same number; a shorter end is filled up with zero bits |
| Base64Url.DecodedExactly | packages/remote-control/src/crypto.ts:129-141 | Which texts without padding are decoded: symbols of either alphabet, apart from ASCII white space, in a number that the added padding completes |
| Base64Url.ToBase64Url | packages/remote-control/src/crypto.ts:123-127 | The loop and the replacements compute `Encoded` |
| Base64Url.FromBase64Url | packages/remote-control/src/crypto.ts:129-141 | Restores the padding, decodes and copies into the buffer, or rejects |
| ExtensionHost.RegistryHost.Register | packages/agent-team/src/extensions.ts:82-102 | A rejected registration changes nothing; an accepted one adds its policies as `AfterRegister` says and returns an active disposer |
| ExtensionHost.RegistersExactly | packages/agent-team/src/extensions.ts:96-101 | After an accepted registration both maps give the added policy for every added identifier and their former value for every other one |
| ExtensionHost.RejectedExactly | packages/agent-team/src/extensions.ts:82-95 | A registration is rejected exactly if a policy is given under another identifier than its own or, unless it replaces, under one that is taken; which error in which case |
| ExtensionHost.TakesBackItsOwn | packages/agent-team/src/extensions.ts:103-119 | A disposal puts back in both maps what its registration had found, wherever its own policy is still registered |
| ExtensionHost.Disposer.Dispose | packages/agent-team/src/extensions.ts:103-119 | Takes back what is still its own; a second call does nothing |
| ExtensionHost.NestedSessionsRestore | packages/agent-team/src/extensions.ts:82-119 | However registrations and disposals are nested, with or without `replace`, both maps end as they began |
| ExtensionHost.OutOfOrderRestoresExactly | packages/agent-team/src/extensions.ts:103-119 | Disposing in registration order restores a map if and only if, for every identifier registered with two different policies, the first one had been there before |
| ExtensionHost.HostOutOfOrderRestoresExactly | packages/agent-team/src/extensions.ts:103-119 | Both maps of a host are restored exactly under that condition on each |
| ExtensionHost.EarlierPolicyComesBack | packages/agent-team/src/extensions.ts:82-119 | Two replacing registrations of policies of both kinds, whose disposal in order brings the first ones back |

## Left out

- Real cryptography, and sealing under a nonce: a sealed frame is its inner frame and its key.
- Requests, responses and their timeouts, the reconnect counter, round-trip times and logging of a connection; capability
  lists and device names of a hello.
- A recreated journal within one link: each end keeps one journal for the whole run.
- KeyAgreement.KeysAgreeInEveryRun: both parties initiate, as they do through a relay; the accepting half is in
  `DirectHandshake`. The same holds for `RoomAgreement.KeysAgreeInEveryRun`.
- RoomAgreement.KeysAgreeInEveryRun: a socket that its client has closed delivers nothing more to it, as in the WebSocket
  interface of browsers; and the room accepts a socket and the client sees it open in one step.
- RemotePairRoom.CloseMatchesLeaveExactly: when only one side has said hello, the in-memory relay tells the peer of a
  closing transport and this room does not; and a socket that the room rejected, which stays listed until its close event,
  has no counterpart there. So the two rooms correspond step by step but not run by run, and the theorem about runs of
  this room is `RoomAgreement.KeysAgreeInEveryRun`.
- Authorization of the upgrade request, the expiry alarm and hibernation of the room.
- The FNV hash of `stableTeamEventId`, and that it hashes UTF-8, which maps all lone surrogates to one character.
- ResumeSafety.ReportsNeverDecrease: for transports that deliver in order if at all, as sockets do; after a reordering an
  older position may arrive later.
- Formatting of a shared record and projection of public records: the formatter is a parameter of `ImportedAll`.
- Compaction: numbers other than integers, and the generation and receipt records that only copy fields.
- Capability schemas and event emission; what a provider does is its result. Listeners that run while a controller aborts.
- The agent loop: the message context handed to the model, streaming updates within one message, telemetry, and errors
  thrown by the queues or the host. A run without a limit on model calls is watched for a given number of calls.
- The proxy stream: fetching, aborting, the UTF-8 decoder, usage and error texts, and that pushed events share the partial
  message, so that a consumer who reads a block late sees its later text.
- Parsing of JSON: `JsonScanner` is about printed objects, `TextToolCalls` takes the parser as a function.
- Work items, deliveries, retry delays, room authorization and invite codes: records that are stored, looked up and checked
  one at a time, without the interplay of several operations that this project is about.
