# STALKER-MP multiplayer core: a verified model

STALKER-MP runs a deterministic, single-threaded multiplayer host beside the game. This project models
the stateful heart of `Multiplayer/` in Dafny and proves what every run of it keeps:

- **Networking** (`NetTypes`, `ConnectionTables`, `Sessions`, `HostServers` over `HostModel`): the host's
  tick accepts endpoints, routes datagrams, times connections out, advances handshakes one step, sends
  heartbeats and drains outboxes within a byte budget. The connection table, the session, the host's
  per-connection records and its endpoint map stay in step over every run, for any transport and any
  authenticator. What a peer gets for what it sends is stated connection by connection (`HostPeers`,
  `HostService`, `HostLaws`, `HostArrivals`, `HostDrain`), and `TokenLaws` says which nonces and tokens coincide.
- **Snapshots** (`SnapshotPools`, `SnapshotManagers` over `SnapshotModel`): reference-counted buffers go
  from a builder to a latest-wins queue to consumers. Counts are holders, a held snapshot never changes,
  two buffers are enough for progress.
- **Replication** (`DeltaEncoders`, `RecordQueues`, `ReplicationPackets`, `ReplicationWorkers` over
  `ReplicationModel`): per-client baselines, deltas, bounded record queues and framed packets. `UpdateReaders`
  is the receiving side, written for the proofs: a client folding the packets mirrors its baseline exactly as
  long as its packets have room.
- **Fragments** (`Fragmentations` over `FragmentModel`): split and reassembly under any order, duplication
  and interleaving.
- **Saves** (`SaveWriters`, `SaveReaders`, `SaveIntegrity` over `SaveModel`): the writer, the reader, the
  metadata builder and the integrity checks; what loads and as what (`SaveRefusals`, `SaveLayout`), and what the
  digests tell apart (`DigestLaws`, `ContentLaws`).
- **Activation** (`BubbleManagers`, `TransitionManagers` over `BubbleModel` and `TransitionModel`): hysteresis
  around players, set differences, and the intent machine that follows them.
- **Registries** (`EntityRegistries`, `PlayerRegistries` over `EntityModel` and `PlayerModel`): generations,
  stale handles, reservations, player records, accelerators.
- **Presentation** (`SnapshotBuffers` over `PredictionModel`): the frame ring, the bracket search and the
  interpolation walk.

The code mutates vectors, maps, buffers and cursors in place; the classes and methods here do the same, loop
for loop. A class is tied by its methods' postconditions to a step function on values (`Abs()` of the new state
is the step of `Abs()` of the old), and the theorems over whole runs are proved about those step functions. The
modules named `...Laws` say what single operations answer and change, in terms of the state and the input alone. A
loop that calls operations on every element is specified by a "rest of the loop" function over the same order.
Sorted vectors with hash accelerators share `Sorted` and `SortedStore`; the little-endian codecs share `Wire`.
Lemmas about recursive functions switch Dafny's automatic induction off; where a proof is by induction, it calls
itself.

## What the proofs show about the code

Some properties hold only under a condition. For each of the following the exact condition is proved, both ways,
and a concrete input shows the failing side.

- **Two accepts of one live endpoint** break the endpoint map exactly when the table still has room
  (`HostInvariant.AcceptInStepIff`), and a run is in step through every accept exactly when that never happens in
  it (`HostTheorems.InStepRunIff`). The loopback transport surfaces its peer at every bind, so a host started twice
  without a stop between runs into it (`SecondStartBreaksStep`); a stop between makes the same run harmless
  (`RestartIsOrderly`), and so is every run that accepts each endpoint once (`AcceptedOnceIsOrderly`).
- **Record queues shallower than the delta lose records for good.** The worker advances a client's baseline
  whether or not the packets had room. A client in step stays in step after a pass exactly when it is not served,
  is skipped over the entity cap, or both packets hold their whole share (`ReplicationTheorems.PassKeepsStepIff`).
  Two spawns through a queue of depth one lose one (`ShallowQueueLosesSpawn`), and serving the same snapshot again
  sends nothing (`ServedAgainIsSilent`).
- **A client over the entity cap is not caught up with in the next pass**, as the comment at
  `Multiplayer/src/replication/ReplicationWorker.cpp:93-95` has it. A pass brings a client's baseline up to the
  snapshot exactly when the update emits no more states than the cap, and the client itself exactly when the packets
  also have room for all of it (`CapTheorems.PassCatchesUpIff`). The baseline stays as it was otherwise, so over every
  run a client is never served exactly when each pass shows it nothing or more entities than the cap
  (`NeverServedIff`); two entities under a cap of one, shown twice, and nothing arrives (`CapOfOneStarves`).
- **A payload of more than 65535 pieces is never delivered** (`FragmentTheorems.DeliverableIff`): the 16-bit count
  wraps, and with 65537 pieces the first piece alone completes the message (`OversizeCompletesShort`).
- **The next payload under one connection and message id is delivered exactly when nothing foreign was left in the
  entry**: the id on the wire is the message type, so payloads follow each other under one key. After any history of
  other payloads, and while the entry it found is neither completed nor expired, an arrival delivers the payload if
  and only if its other indices are there and that entry held, at most, this payload's own parts
  (`FragmentReuse.NextDeliveredIff`); half of [1, 2] and half of [3, 4] are delivered as [1, 4] (`HalvesMix`).
- **Transition intents follow the bubble** after a tick exactly when every entity in the delta is registered
  (`TransitionTheorems.AgreementIff`), and after a run exactly when, for every entity, the last word the bubble had
  on it while it was registered is where it is now (`FollowsIff`): the deltas are edges, so an activation skipped
  for an unregistered entity is not offered again (`UnregisteredIsMissed`).
- **The transition self-check** is healthy after a tick with a bubble exactly when the gateway gave no outcome at
  all or at least one per staged command (`TransitionTheorems.HealthyIff`, `ShortOutcomesAreUnhealthy`). A manager
  without a bubble keeps its first result, so after any number of ticks its self-check is healthy exactly when the
  last tick was tick 0 (`NoBubbleRunHealthyIff`).
- **A snapshot released more often than it was acquired** frees a buffer under its other holders
  (`SnapshotTheorems.ReleaseKeepsInvIff`); after one publication the next build is then written into the buffer
  that is still current (`UnpairedReleaseFreesCurrent`).
- **A tick gets a buffer exactly when fewer distinct buffers are held than there are** (`SnapshotTheorems.BuildStarts`):
  with a pool of one every tick after the first publication is skipped (`OneBufferStalls`); configuration demands two.
- **Player mappings are one to one after a run exactly when every accepted join used fresh keys**
  (`PlayerTheorems.BijectiveIffFresh`): a connection id that is still the session key of a suspended player, or an
  entity another record has, breaks them for good (`JoinKeepsBijectiveIff`; join, leave and join again on one
  connection: `ReusedConnectionBreaksBijection`).
- **A player slot is never given back**: records stay and no reconnect is honoured, so after any run a join is
  accepted exactly when its connection is real and not live, its entity was spawned, and the joins accepted so far are
  fewer than the limits (`PlayerTheorems.JoinAcceptedIff`); with room for one, join and leave, and nobody can join
  any more (`LeaverKeepsSlot`).
- **A loaded save's references are closed exactly when the snapshot captured every entity it names**
  (`SaveIntegrity.ClosedIffSelfContained`, `DanglingReferenceIsRefused`).
- **Entity callbacks leave the registry and its guard as they were exactly when none of them calls `Clear`**
  (`EntityTheorems.DispatchHarmlessIff`): `Clear` is the one mutation without a guard, and it lowers the flag, so
  what the callback attempts after it is let through (`ClearBreaksDispatch`).

- **Nonces and tokens** tell connections apart but for one pair of ids (`TokenLaws.NoncesCollideIff`) and, for joins
  in the first 2^32 ticks, one pair of members (`TokensCollideIff`): zero is replaced by one, and one is taken.
- **A save with one byte changed never loads**, unless the byte is one of the counts that move the reader
  (`SaveRefusals.ChangedByteNeverLoads`); cut short it never does (`TruncatedNeverLoads`). The digest is FNV-1a, but
  starts from the 64-bit offset basis with its last digit missing (`DigestLaws.DigestExamples`), unlike the digest at
  `Multiplayer/src/adapters/PlatformScriptStore.cpp:43`.

One more holds only up to a point, and inputs show what happens beyond it:

- **`Clear` starts entity ids and generations over**: what holds of stale handles and of reservations in any run
  holds only up to the next `Clear` (`EntityTheorems.StaleHandlesResolveOnlyByRestore`, `ReservationsAreFresh`);
  after it a stale handle can resolve (`ClearRevivesStaleHandle`) and an id is reserved twice
  (`ClearRepeatsReservation`).

## Model

| member | source | states |
|---|---|---|
| HostTheorems.EveryRunKeepsInv | Multiplayer/src/net/HostServer.cpp:61-314 | Every run of starts, ticks and stops, with any datagrams, send outcomes and authenticator decisions, in which no tick surfaces a live endpoint while the table has room, keeps the invariant: four stores in step, exact histories per connection. |
| HostTheorems.StoresAgree | Multiplayer/src/net/HostServer.cpp:103-277 | After every run the host's connections are the table's ids, the endpoint map is their exact inverse, and the session members are exactly the Connected rows, which are exactly the Established ones. |
| HostTheorems.JoinedOnceLeftOnce | Multiplayer/src/net/Session.cpp:23-71 | Over a whole run observers hear of a connection id nothing, one join, or one join and then one leave; an id that left never comes back. |
| HostTheorems.ConnectedMeansAuthorised | Multiplayer/src/net/Handshake.cpp:65-138 | A Connected connection sent a Hello of the protocol version in one pass and, in a strictly later pass, a Response with its server nonce that was authorised. |
| HostTheorems.OneStatePerPass | Multiplayer/src/net/HostServer.cpp:224-258 | No connection consumes two handshake messages in one pass. |
| HostTheorems.SentThenQueued | Multiplayer/src/net/HostServer.cpp:295-312 | For every live connection, the packets the transport took followed by the outbox are exactly the packets enqueued, in order. |
| HostTheorems.PacketsInOrder | Multiplayer/src/net/HostServer.cpp:97-101 | The k-th packet enqueued for a live connection carries sequence number k mod 65536. |
| HostTheorems.TickWithinBudget | Multiplayer/src/net/HostServer.cpp:279-313 | One tick hands over at most maxBytesPerTick outbox bytes, whatever Send answers. |
| HostTheorems.TickEndpoints | Multiplayer/src/net/HostServer.cpp:132-164 | Endpoints in use after a tick were in use before it or accepted in it. |
| HostTheorems.StopEmpties | Multiplayer/src/net/HostServer.cpp:61-71 | Disconnecting every row already empties all four stores, so the final clears change nothing, and the invariant holds after Stop. |
| HostTheorems.RunEndpoints | Multiplayer/src/net/HostServer.cpp:132-155 | Endpoints in use after a run are among those the transport accepted in it. |
| HostTheorems.DrainConnBudget | Multiplayer/src/net/HostServer.cpp:295-312 | The inner drain loop never passes the budget and its running count is the bytes taken. |
| HostTimeouts.OnlyNewcomersOverdue | Multiplayer/src/net/HostServer.cpp:218-258 | After a tick of a running host, in any orderly run, no unfinished handshake is older than its limit, and a Connected row is silent beyond its limit only if it became a member in that very tick. |
| HostTimeouts.TickIsTimely | Multiplayer/src/net/HostServer.cpp:218-277 | From any state in step: what is overdue after a tick of a running host has finished its handshake and was no member before. |
| HostTimeouts.TimeoutsDropOverdue | Multiplayer/src/net/HostServer.cpp:218-222 | The timeout phase drops exactly the overdue rows. |
| HostInvariant.AcceptInStepIff | Multiplayer/src/net/HostServer.cpp:132-155 | Accepting an endpoint keeps the stores in step if and only if the endpoint is not in use or the table is full. |
| HostTheorems.SecondStartBreaksStep | Multiplayer/include/stalkermp/net/LoopbackTransport.h:45-50 | Start, tick, start, tick over the loopback transport: the peer is accepted a second time while it is live, and the endpoint map then knows the second connection only. |
| HostTheorems.RestartIsOrderly | Multiplayer/include/stalkermp/net/LoopbackTransport.h:45-50 | The same run with a stop before the second start meets the condition of the run theorems, although it accepts one endpoint twice. |
| HostTheorems.InStepRunIff | Multiplayer/src/net/HostServer.cpp:132-155 | A run is in step through each of its accepts if and only if no tick surfaces a live endpoint while the table has room. |
| HostTheorems.AcceptedOnceIsOrderly | Multiplayer/src/net/HostServer.cpp:132-155 | A run in which the transport surfaces each endpoint at most once meets that condition. |
| HostSteps.WelcomeIff | Multiplayer/src/net/HostServer.cpp:132-155 | One accept phase is in step throughout if and only if each endpoint, when its turn comes, is not in use or is turned away by a full table. |
| HostInvariant.DisconnectRestores | Multiplayer/src/net/HostServer.cpp:103-119 | Disconnecting removes one connection from all four stores at once and restores the invariant even when the row's own handshake record is out of date. |
| HostInvariant.RouteKeeps | Multiplayer/src/net/HostServer.cpp:157-216 | Any datagram, malformed, unknown, handshake, ping, bye or data, keeps the invariant. |
| HostSteps.RoomForMember | Multiplayer/src/net/HostServer.cpp:251-257 | Admission inside a tick never fails: members are rows, and the row being promoted is not one of them yet. |
| HostSteps.AdvanceOrDrop | Multiplayer/src/net/HostServer.cpp:241-250 | On a live connection every buffered message either advances the handshake with a reply or drops the connection. |
| HostSteps.AdvanceOneKeeps | Multiplayer/src/net/HostServer.cpp:224-258 | One handshake step, accepted or refused, keeps the invariant. |
| HostSteps.TickKeeps | Multiplayer/src/net/HostServer.cpp:121-314 | A whole tick keeps the invariant when it surfaces no live endpoint while the table has room. |
| HostService.TickServes | Multiplayer/src/net/HostServer.cpp:121-314 | What a tick leaves of a live connection depends on that connection, the datagrams of its own endpoint, its deadlines and its waiting message alone: heard in order, timed out if overdue, shaken one step, sent a heartbeat. |
| HostLaws.TicksIsolate | Multiplayer/src/net/HostServer.cpp:121-314 | Two hosts that keep the same of a connection, whatever else is on them, and that receive the same from its endpoint, keep the same of it after the tick. |
| HostLaws.HelloIsAnswered | Multiplayer/src/net/HostServer.cpp:188-250 | A Hello of version 1 from a fresh live connection in time: after that tick it has been challenged, and exactly one packet more is queued, a Challenge that decodes to its server nonce. |
| HostLaws.ResponseAdmits | Multiplayer/src/net/HostServer.cpp:188-257 | An authorised Response with the server nonce from a challenged connection in time: after that tick it is Connected, Established and a member, Established is queued, and observers have heard of exactly this join. |
| HostLaws.WaitingMessageActs | Multiplayer/src/net/HostServer.cpp:224-258 | The oldest waiting message of a live connection acts in the next tick: in order it advances, out of order or refused it drops the connection with the right reason. |
| HostLaws.PingIsAnswered | Multiplayer/src/net/HostServer.cpp:198-201 | A Ping is answered within the tick by a Pong under the next sequence number that carries the tick. |
| HostLaws.TickPayloadReads | Multiplayer/src/net/HostServer.cpp:26-33 | A tick of 64 bits decodes from the two words of a Pong or Ping. |
| HostLaws.ByeLeaves | Multiplayer/src/net/HostServer.cpp:202-205 | A Bye ends the connection within the tick in every store, is answered with a Bye, and a member is reported as left gracefully. |
| HostLaws.ByeReads | Multiplayer/src/net/HostServer.cpp:73-95 | The Bye a peer gets is one its header reader takes. |
| HostLaws.SilenceEndsOverdue | Multiplayer/src/net/HostServer.cpp:218-277 | A connection nothing comes from ends in the tick exactly if it is overdue; else it stays as it was and is sent a Ping exactly if it is Connected and the heartbeat is due. |
| HostLaws.HeardStays | Multiplayer/src/net/HostServer.cpp:157-222 | A member that is heard from, by anything readable but a Bye or a handshake message, is a member after the tick, however long it was silent before. |
| HostArrivals.NewcomersAreServed | Multiplayer/src/net/HostServer.cpp:132-216 | Of new endpoints, as many as there is room for become connections under the next ids in order, and each is served in the same tick by its own datagrams. |
| HostArrivals.NewcomerWaits | Multiplayer/src/net/HostServer.cpp:132-155 | A new endpoint that says nothing is a live connection after the tick, Handshaking, stamped with the tick, with nothing queued. |
| HostArrivals.FullTurnsAway | Multiplayer/src/net/HostServer.cpp:135-142 | At a full table every endpoint that surfaces is sent a Bye and counted, and no id is used up. |
| HostArrivals.StopTellsEveryone | Multiplayer/src/net/HostServer.cpp:61-71 | Stop sends every connection a Bye and reports every member as left. |
| HostDrain.TickHoldsNothingBack | Multiplayer/src/net/HostServer.cpp:279-313 | After a tick every outbox, in ascending order, is empty up to one whose first packet is over the rest of the budget or would block: nothing is held back without need. |
| HostDrain.EveryRunSendsHome | Multiplayer/src/net/HostServer.cpp:294-312 | In every run, whatever the transport does, what comes out of an outbox is sent to the endpoint of that connection. |
| HostLifecycle.RunsIff | Multiplayer/src/net/HostServer.cpp:41-71 | After any run of starts, ticks and stops the host runs if and only if a start that got to listen, or had nothing to listen for, was not followed by a stop. |
| HostLifecycle.LimitsAreLatest | Multiplayer/src/net/HostServer.cpp:44-48 | The limits in force are those of the last start, also of one that failed. |
| HostLifecycle.DroppedIff | Multiplayer/src/net/HostServer.cpp:157-195 | A datagram is counted as dropped if and only if no connection has its endpoint, its header is not readable, or it is a handshake message cut short. |
| HostServers.HostServer.Tick | Multiplayer/src/net/HostServer.cpp:121-314 | The six in-place phases over table, session, maps and queues compute the model's tick on the transport's staged input. |
| HostServers.HostServer.Stop | Multiplayer/src/net/HostServer.cpp:61-71 | The shutdown loop computes the model's stop. |
| HostServers.HostServer.Disconnect | Multiplayer/src/net/HostServer.cpp:103-119 | Table row, best-effort Bye, session member and both host maps go together. |
| HostServers.HostServer.Start | Multiplayer/src/net/HostServer.cpp:41-59 | Running after Start iff it ran before, networking is disabled, or bind and listen succeeded; the limits are taken over regardless. |
| HostServers.HostServer.EnqueueControl | Multiplayer/src/net/HostServer.cpp:97-101 | Appends one packet stamped with the connection's sequence number, which then wraps at 16 bits. |
| ConnectionTables.ConnectionTable.Add | Multiplayer/src/net/ConnectionTable.cpp:13-36 | Below capacity adds exactly one row under the next id, never reused; at capacity changes nothing. |
| ConnectionTables.ConnectionTable.Remove | Multiplayer/src/net/ConnectionTable.cpp:58-67 | Removes exactly that row and keeps order and accelerator. |
| ConnectionTables.ConnectionTable.ScanTimeouts | Multiplayer/src/net/ConnectionTable.cpp:69-94 | Lists exactly the overdue ids, ascending. |
| ConnectionTables.ScanIsOverdue | Multiplayer/src/net/ConnectionTable.cpp:69-94 | A scan of ascending rows lists every overdue id and no other, ascending. |
| ConnectionTables.ConnectionTable.BeginDisconnect | Multiplayer/src/net/ConnectionTable.cpp:96-115 | Performed iff the row existed, with its endpoint, and the row is gone. |
| ConnectionTables.ConnectionTable.ValidateConsistency | Multiplayer/src/net/ConnectionTable.cpp:128-167 | Each flag of the report is exactly the property it names; a valid table is healthy. |
| Sessions.Session.Admit | Multiplayer/src/net/Session.cpp:23-52 | Refused exactly at capacity or for a member, changing nothing; otherwise one member more and one join told. |
| Sessions.Session.Remove | Multiplayer/src/net/Session.cpp:54-71 | Removes the member if there is one and tells observers once, with the token minted from its id and join tick. |
| Sessions.Session.ValidateConsistency | Multiplayer/src/net/Session.cpp:84-119 | Each flag of the report is exactly the property it names; a valid session without a zero id is healthy. |
| NetTypes.ServerNonce | Multiplayer/include/stalkermp/net/Handshake.h:64-70 | The challenge is never zero. |
| NetTypes.HeaderRoundTrip | Multiplayer/src/net/PacketHeader.cpp:49-113 | Every header reads back field by field, and is accepted exactly when magic, version, channel and flags are acceptable. |
| NetTypes.BuildPacketReadsBack | Multiplayer/src/net/HostServer.cpp:73-95 | A control packet is accepted by the header reader, with its sequence, message id, channel, control flag, payload length mod 2^16 and payload. |
| NetTypes.HandshakePayloadReadsBack | Multiplayer/src/net/HostServer.cpp:17-24 | A peer decodes the nonce the host sent. |
| NetTypes.AdvanceAnswers | Multiplayer/src/net/Handshake.cpp:65-138 | For every state, message and decision: the handshake goes on exactly by a Hello of version 1 and an allowed Response with the nonce, passes over control messages that are no handshake messages, and ends with the right reason on anything else. |
| TokenLaws.NoncesCollideIff | Multiplayer/include/stalkermp/net/Handshake.h:64-70 | Of all 32-bit connection ids only two, 1307738085 and 3363471333, have the same challenge value. |
| TokenLaws.NonceExamples | Multiplayer/include/stalkermp/net/Handshake.h:64-70 | The challenge values of id 0 and of the id whose mixed value is zero. |
| TokenLaws.TokensCollideIff | Multiplayer/src/net/Session.cpp:131-137 | Two members that joined within the first 2^32 ticks leave with the same token if and only if id and join tick are the same, or they are the two whose token is 1. |
| ByteCursors.ByteWriter.WriteU8 | Multiplayer/include/stalkermp/net/ByteCursor.h:30-38 | One byte, or overflow with nothing written. |
| ByteCursors.ByteWriter.WriteU16 | Multiplayer/include/stalkermp/net/ByteCursor.h:40-49 | Two little-endian bytes, or overflow with nothing written. |
| ByteCursors.ByteWriter.WriteU32 | Multiplayer/include/stalkermp/net/ByteCursor.h:51-62 | Four little-endian bytes, or overflow with nothing written. |
| ByteCursors.ByteReader.ReadU8 | Multiplayer/include/stalkermp/net/ByteCursor.h:88-95 | The byte at the cursor, or underflow with the cursor unmoved. |
| ByteCursors.ByteReader.ReadU16 | Multiplayer/include/stalkermp/net/ByteCursor.h:97-106 | The 16-bit field at the cursor, or underflow with the cursor unmoved. |
| ByteCursors.ByteReader.ReadU32 | Multiplayer/include/stalkermp/net/ByteCursor.h:108-119 | The 32-bit field at the cursor, or underflow with the cursor unmoved. |
| Wire.LittleEndianRoundTrip | Multiplayer/include/stalkermp/net/ByteCursor.h:51-119 | A value that fits n bytes reads back from its n little-endian bytes. |
| Sorted.LowerBound | Multiplayer/src/player/PlayerRegistry.cpp:24-41 | The binary search finds the first position whose key is not below the value. |
| Sorted.RebuildAccelerator | Multiplayer/src/net/ConnectionTable.cpp:169-177 | The rebuilt hash index sends exactly the stored keys to exactly their positions. |
| SnapshotTheorems.EveryRunKeepsInv | Multiplayer/src/snapshot/SnapshotManager.cpp:27-63 | Every run of ticks, acquires and paired releases keeps counts balanced with holders, current and held buffers finalized, and the log increasing, on any captured input. |
| SnapshotTheorems.RefCountsCountHolders | Multiplayer/src/snapshot/SnapshotPool.cpp:37-78 | After every run a slot's count is its consumer holds plus one if it is current, inUse iff that is positive, and the pool's counter is the number of slots in use. |
| SnapshotTheorems.HeldNeverChanges | Multiplayer/src/snapshot/SnapshotQueue.cpp:12-55 | While a consumer holds a buffer, through any further events, its contents are the same. |
| SnapshotTheorems.ReleaseKeepsInvIff | Multiplayer/src/snapshot/SnapshotQueue.cpp:48-55 | A release keeps the invariant if and only if it is paired with a hold or names no buffer in use. |
| SnapshotTheorems.UnpairedReleaseFreesCurrent | Multiplayer/src/snapshot/SnapshotQueue.cpp:48-55 | From the start, one publication and one unpaired release leave the current buffer free, and the next build takes it. |
| SnapshotTheorems.PublicationsIncrease | Multiplayer/src/snapshot/SnapshotBuilder.cpp:43-58 | Published ids and ticks strictly increase over every run. |
| SnapshotTheorems.BuildStarts | Multiplayer/src/snapshot/SnapshotPool.cpp:37-51 | A tick gets a buffer if and only if fewer distinct buffers are held than exist. |
| SnapshotTheorems.TwoBuffersSuffice | Multiplayer/src/snapshot/SnapshotConfiguration.cpp:45-48 | With no consumer reference outstanding and at least two buffers, a build always starts. |
| SnapshotTheorems.OneBufferStalls | Multiplayer/src/snapshot/SnapshotConfiguration.cpp:45-48 | With one buffer, no build starts after the first publication. |
| SnapshotTheorems.CaptureSucceedsIff | Multiplayer/src/snapshot/SnapshotBuilder.cpp:60-133 | A capture succeeds exactly on ascending sources within both limits, and then holds every entity, every player not removed, and the environment. |
| SnapshotTheorems.TickKeeps | Multiplayer/src/snapshot/SnapshotManager.cpp:27-63 | A tick keeps the invariant and leaves every held or current buffer's contents alone. |
| SnapshotLaws.TickPublishesIff | Multiplayer/src/snapshot/SnapshotManager.cpp:27-63 | A tick publishes if and only if fewer distinct buffers are held than exist and the sources are ascending and within the limits; then a finalized snapshot with the next id, of this tick, with exactly the sampled entities, kept players and environment is current, in a buffer nobody held. Otherwise current and log stay. A snapshot id is used up exactly if a buffer was free. |
| SnapshotLaws.FirstTick | Multiplayer/src/snapshot/SnapshotManager.cpp:27-63 | The first snapshot has id 1 and tick 1. |
| SnapshotLaws.AcquireHolds | Multiplayer/src/snapshot/SnapshotQueue.cpp:38-46 | An acquire hands out the current snapshot with one more reference on exactly its buffer, or nothing before the first publication. |
| SnapshotLaws.ReleaseGivesBack | Multiplayer/src/snapshot/SnapshotQueue.cpp:48-55 | A paired release takes one reference off exactly its buffer, which is free afterwards if and only if nobody else holds it and it is not current. |
| SnapshotModel.FirstFree | Multiplayer/src/snapshot/SnapshotPool.cpp:37-51 | The lowest slot not in use, every slot below it being in use. |
| SnapshotPools.SnapshotPool.Acquire | Multiplayer/src/snapshot/SnapshotPool.cpp:37-51 | Takes the lowest free buffer with one reference, or null when all are in use; other slots unchanged. |
| SnapshotPools.SnapshotPool.AddRef | Multiplayer/src/snapshot/SnapshotPool.cpp:53-60 | One more reference on a buffer in use; anything else changes nothing. |
| SnapshotPools.SnapshotPool.ReturnToPool | Multiplayer/src/snapshot/SnapshotPool.cpp:62-78 | One reference less, free at zero; a foreign, null or free buffer changes nothing. |
| SnapshotPools.SnapshotPool.IndexOf | Multiplayer/src/snapshot/SnapshotPool.cpp:21-35 | The buffer's slot, or the capacity if it is none of the pool's. |
| SnapshotPools.SimulationSnapshot.AddEntity | Multiplayer/src/snapshot/SimulationSnapshot.cpp:27-46 | Accepted exactly while Building and above the last id; a refusal changes nothing. |
| SnapshotPools.SimulationSnapshot.AddPlayer | Multiplayer/src/snapshot/SimulationSnapshot.cpp:48-67 | Accepted exactly while Building and above the last id; a refusal changes nothing. |
| SnapshotPools.SimulationSnapshot.Finalize | Multiplayer/src/snapshot/SimulationSnapshot.cpp:80-91 | Seals a Building snapshot once; the content is otherwise the same. |
| SnapshotManagers.SnapshotBuilder.BeginBuild | Multiplayer/src/snapshot/SnapshotBuilder.cpp:43-58 | Over aliased buffer objects, starts the build the model starts, aborting one left open. |
| SnapshotManagers.SnapshotBuilder.Capture | Multiplayer/src/snapshot/SnapshotBuilder.cpp:60-133 | Succeeds with exactly the captured content, or hands the buffer back to the pool; without an active build refuses and changes nothing. |
| SnapshotManagers.SnapshotBuilder.Finalize | Multiplayer/src/snapshot/SnapshotBuilder.cpp:135-150 | The sealed buffer leaves the builder with its reference; without an active build nothing, and an already sealed buffer goes back to the pool. |
| SnapshotManagers.SnapshotQueue.Publish | Multiplayer/src/snapshot/SnapshotQueue.cpp:12-36 | Refuses null and unfinished snapshots unchanged; any other snapshot, of the pool or not, becomes current and the superseded one gives its reference back. |
| SnapshotManagers.SnapshotQueue.Acquire | Multiplayer/src/snapshot/SnapshotQueue.cpp:38-46 | The current snapshot, with one more consumer reference. |
| SnapshotManagers.SnapshotQueue.Release | Multiplayer/src/snapshot/SnapshotQueue.cpp:48-55 | One consumer reference less on exactly that buffer. |
| SnapshotManagers.SnapshotManager.Tick | Multiplayer/src/snapshot/SnapshotManager.cpp:27-63 | Pool, builder and queue together compute the model's tick, including skipped and failed builds. |
| DeltaEncoders.EncodeEntityDelta | Multiplayer/src/replication/DeltaEncoder.cpp:37-93 | The two-pointer merge computes the delta of the two ascending lists, or the cap error. |
| DeltaEncoders.NextEntityBaseline | Multiplayer/src/replication/DeltaEncoder.cpp:138-178 | The two-pointer merge computes the next baseline. |
| DeltaEncoders.DeltaIsExact | Multiplayer/src/replication/DeltaEncoder.cpp:37-93 | Id by id: added iff new, changed iff a tracked field differs, removed iff gone, and which version each carries. |
| DeltaEncoders.ReportedIffDifferent | Multiplayer/src/replication/DeltaEncoder.cpp:37-93 | An entity both sides know is reported if and only if anything about it but the version differs; it is then one version on, modulo 2^32. |
| DeltaEncoders.DeltaAscends | Multiplayer/src/replication/DeltaEncoder.cpp:37-93 | All three lists and the next baseline are ascending, and the baseline has one entry per current entity. |
| DeltaEncoders.DeltaCompletes | Multiplayer/src/replication/DeltaEncoder.cpp:138-178 | Applying the delta to the baseline gives exactly the next baseline. |
| DeltaEncoders.DeltaIsMinimal | Multiplayer/src/replication/DeltaEncoder.cpp:37-93 | Any change set with the same effect names every entity this delta names. |
| DeltaEncoders.SettledDelta | Multiplayer/src/replication/DeltaEncoder.cpp:37-178 | Against the baseline it has just become, an update is an empty delta and changes no version. |
| DeltaEncoders.VersionsCountChanges | Multiplayer/src/replication/DeltaEncoder.cpp:138-178 | Over any run of updates an entity's version is one plus its tracked changes since it last appeared, mod 2^32. |
| RecordQueues.FixedRecordQueue.Enqueue | Multiplayer/include/stalkermp/replication/ReplicationQueues.h:51-61 | The ring appends at the end of its contents, or refuses exactly when full and changes nothing. |
| RecordQueues.FixedRecordQueue.Dequeue | Multiplayer/include/stalkermp/replication/ReplicationQueues.h:64-74 | Gives and removes the oldest record, or nothing when empty. |
| RecordQueues.SlotIsModulo | Multiplayer/include/stalkermp/replication/ReplicationQueues.h:51-74 | The wrapped slot position is the source's modulo. |
| RecordQueues.ReplicationQueues.Enqueue | Multiplayer/include/stalkermp/replication/ReplicationQueues.h:117-121 | Each record goes to the queue of its reliability and only there. |
| RecordQueues.ReplicationQueues.EnqueueChangeSet | Multiplayer/src/replication/ReplicationQueues.cpp:21-58 | Removals, spawns and positions in order, each queue clipped at its depth; success iff nothing was clipped. |
| ReplicationPackets.ReplicationPacketBuilder.BuildPacket | Multiplayer/src/replication/ReplicationPacketBuilder.cpp:47-120 | Frames exactly the first records that fit and leaves exactly the rest queued; refuses only a budget below an empty frame; never overflows its buffer. |
| ReplicationPackets.FitIsLargest | Multiplayer/src/replication/ReplicationPacketBuilder.cpp:52-78 | The frame stays within a non-zero budget, and one more record would not unless another cap stops it. |
| ReplicationPackets.Checksum | Multiplayer/src/replication/ReplicationPacketBuilder.cpp:34-44 | The loop over the buffer computes the digest of exactly those bytes. |
| DigestLaws.Fnv32TellsByte | Multiplayer/src/replication/ReplicationPacketBuilder.cpp:34-44 | Changing any one byte of a frame's contents changes its digest. |
| UpdateReaders.FrameRoundTrip | Multiplayer/src/replication/ReplicationPacketBuilder.cpp:80-119 | Every frame of at most 65535 records decodes to its client, tick, reliability and exactly those records. |
| ReplicationWorkers.BuildCurrentStates | Multiplayer/src/replication/ReplicationWorker.cpp:31-66 | The merge of relevant ids and snapshot entities gives the states of exactly the entities in both. |
| ReplicationWorkers.ReplicationWorker.Execute | Multiplayer/src/replication/ReplicationWorker.cpp:69-131 | The loop over clients, with shared scratch queues, computes the model's baselines and packets. |
| ReplicationTheorems.InStepIffWhole | Multiplayer/src/replication/ReplicationWorker.cpp:88-127 | A client in step ends in step if and only if every record of the delta reaches it. |
| ReplicationTheorems.PacketsReceived | Multiplayer/src/replication/ReplicationWorker.cpp:96-127 | What a client holds after the packets of one delta: exactly the records within the depths; other clients hold what they held. |
| ReplicationTheorems.PassKeepsStepIff | Multiplayer/src/replication/ReplicationWorker.cpp:69-131 | A client in step is in step after a pass if and only if it was not served, was over the entity cap, or both its packets had room. |
| ReplicationTheorems.ShallowQueueLosesSpawn | Multiplayer/src/replication/ReplicationWorker.cpp:98-127 | From the start, two spawns through a reliable queue of depth one leave the client out of step. |
| CapTheorems.CrowdedClientIsNeverServed | Multiplayer/src/replication/ReplicationWorker.cpp:86-95 | A client that every pass shows nothing or more entities than the cap receives nothing in any run, and its baseline stays empty. |
| CapTheorems.PassCatchesUpIff | Multiplayer/src/replication/ReplicationWorker.cpp:76-126 | A pass brings a client's baseline up to the snapshot if and only if the update is within the cap, and a client that was in step if and only if its packets also have room for every record. |
| CapTheorems.NeverServedIff | Multiplayer/src/replication/ReplicationWorker.cpp:86-95 | Over every run a client's baseline is never anything but empty if and only if each pass shows it nothing or more entities than the cap. |
| CapTheorems.CapOfOneStarves | Multiplayer/src/replication/ReplicationWorker.cpp:86-95 | Two entities under a cap of one: the client has nothing after the first pass and nothing after a second over the same snapshot. |
| ReplicationTheorems.ServedAgainIsSilent | Multiplayer/src/replication/ReplicationWorker.cpp:69-131 | Serving a client the same snapshot again sends it nothing and keeps its baseline, so a clipped record is not made up for. |
| ReplicationTheorems.ClientsMirrorBaselines | Multiplayer/src/replication/ReplicationWorker.cpp:69-131 | Over every run whose packets had room, a client folding the bytes holds its baseline: id, version, position, state. |
| ReplicationTheorems.NextShowsSnapshot | Multiplayer/src/replication/ReplicationWorker.cpp:31-66 | A client in step sees exactly the relevant entities of the snapshot, at their positions and states. |
| ReplicationLaws.ServedBaselineShows | Multiplayer/src/replication/ReplicationWorker.cpp:31-95 | After a pass within the cap a client's baseline holds exactly the relevant entities, each with its captured position, velocity and state. |
| ReplicationLaws.ClassesByCode | Multiplayer/include/stalkermp/replication/ReplicationClassifier.h:91-150 | The frozen reliability and priority classes, by the kinds' values on the wire. |
| FragmentTheorems.SplitJoins | Multiplayer/src/net/Fragmentation.cpp:34-57 | The pieces of a payload, in order, are the payload. |
| FragmentTheorems.PieceArrives | Multiplayer/src/net/Fragmentation.cpp:59-114 | A piece completes the message, with all pieces joined, iff nothing else is missing; otherwise it is held, a duplicate once. |
| FragmentTheorems.OthersUntouched | Multiplayer/src/net/Fragmentation.cpp:59-114 | A fragment leaves every other pending (connection, message) as it was. |
| FragmentTheorems.RunHolds | Multiplayer/src/net/Fragmentation.cpp:59-133 | From any pending map in which the entry is idle or holds some of the payload's pieces, over any interleaving of pieces, duplicates, other messages and prunes, the entry holds exactly the indices that arrived since it was last opened. |
| FragmentTheorems.CompletesAtLastMissing | Multiplayer/src/net/Fragmentation.cpp:59-114 | From any such map, the arriving index completes the message with exactly the payload if and only if every other index is there. |
| FragmentTheorems.InOrderDelivers | Multiplayer/src/net/Fragmentation.cpp:34-114 | Feeding the pieces in order to an idle entry delivers every payload of at most 65535 pieces, whatever else is pending. |
| FragmentTheorems.OversizeNeverDelivers | Multiplayer/src/net/Fragmentation.cpp:41-49 | With more than 65535 pieces no arrival, in any run, delivers the payload. |
| FragmentTheorems.DeliverableIff | Multiplayer/src/net/Fragmentation.cpp:34-114 | From an idle entry a payload can be delivered by some run if and only if it splits into at most 65535 pieces. |
| FragmentTheorems.OversizeCompletesShort | Multiplayer/src/net/Fragmentation.cpp:39-48 | Of 65537 one-byte pieces, the first alone completes the message with one byte. |
| FragmentReuse.NextDeliveredIff | Multiplayer/src/net/Fragmentation.cpp:59-114 | After any run of pieces of any payloads under a key, and while the entry found there stays open, an arrival among this payload's pieces delivers the payload if and only if all its other indices are there and the entry had this payload's count and none but its own parts, or was idle. |
| FragmentReuse.LeftOpen | Multiplayer/src/net/Fragmentation.cpp:59-114 | After any run of pieces of any payloads an entry that is left counts its parts, lacks some, and holds full-size parts except perhaps the last. |
| FragmentReuse.JoinInjective | Multiplayer/src/net/Fragmentation.cpp:41-49 | Lists of chunks of the full size, except perhaps the last, join to the same bytes only if they are the same list. |
| FragmentReuse.HalvesMix | Multiplayer/src/net/Fragmentation.cpp:67-110 | The first piece of [1, 2] and the second of [3, 4] under one key are delivered as [1, 4]. |
| FragmentLaws.ArrivalIsAnswered | Multiplayer/src/net/Fragmentation.cpp:59-114 | After any run, for any fragment: rejected without effect exactly if it is no piece of anything or of another count than what waits under its key; the first part under an index is kept; the message is given out in index order exactly when no part is missing. |
| FragmentLaws.WaitingIsYoung | Multiplayer/src/net/Fragmentation.cpp:116-133 | Whatever waits after any run was opened by an arrival under its key, whose tick it keeps, and no prune since came more than the budget after it. |
| FragmentLaws.WaitsOn | Multiplayer/src/net/Fragmentation.cpp:116-133 | Any other event leaves a waiting entry as it is, except a prune more than the budget after its first tick, which ends it. |
| FragmentModel.KeyInjective | Multiplayer/include/stalkermp/net/Fragmentation.h:88-91 | The packed key determines connection and message. |
| Fragmentations.Fragmentation.Split | Multiplayer/src/net/Fragmentation.cpp:34-57 | The loop cuts exactly the model's pieces, with 16-bit index and count. |
| Fragmentations.Fragmentation.Accept | Multiplayer/src/net/Fragmentation.cpp:59-114 | The map of pending parts and the copied bytes are the model's, for every rejection, duplicate and completion. |
| Fragmentations.Fragmentation.PruneExpired | Multiplayer/src/net/Fragmentation.cpp:116-133 | Exactly the expired entries go, in whatever order the map is walked, and are counted. |
| Fragmentations.Fragmentation.ValidateConsistency | Multiplayer/src/net/Fragmentation.cpp:135-145 | Healthy iff no pending entry is past its budget. |
| SaveTheorems.SaveRoundTrip | Multiplayer/src/saveload/SaveWriter.cpp:123-143 | Every view with fewer than 2^32 entities and players parses back to every field that was written, wall clock zero. |
| SaveTheorems.SectionReads | Multiplayer/src/saveload/SaveReader.cpp:22-102 | Each section reads back as its part of the save, and the reader stands right behind it. |
| SaveTheorems.EntitiesReadBack | Multiplayer/src/saveload/SaveReader.cpp:44-59 | The bytes of any entity list decode to exactly its records. |
| SaveTheorems.PlayersReadBack | Multiplayer/src/saveload/SaveReader.cpp:61-75 | The bytes of any player list decode to exactly its records. |
| SaveTheorems.TrailerReads | Multiplayer/src/saveload/SaveReader.cpp:208-226 | The trailing digest of everything before it is accepted. |
| SaveRefusals.LoadsIff | Multiplayer/src/saveload/SaveReader.cpp:112-226 | Any bytes load if and only if magic and version are right, the eight sections fit one after the other, and the trailer is the digest of everything before it; each kind of refusal is told apart. |
| SaveRefusals.TruncatedNeverLoads | Multiplayer/src/saveload/SaveReader.cpp:112-226 | No save that is cut short anywhere loads: it reads as corrupted. |
| SaveRefusals.DamagedNeverLoads | Multiplayer/src/saveload/SaveReader.cpp:112-226 | No save in which one byte was changed loads, other than a byte of the four counts and lengths that move the reader. |
| SaveRefusals.CutShortNeverLoads | Multiplayer/src/saveload/SaveReader.cpp:112-226 | Of any bytes that load, nothing that stops before the end of the trailer does. |
| SaveRefusals.ChangedByteNeverLoads | Multiplayer/src/saveload/SaveReader.cpp:112-226 | Of any bytes that load, a change of one byte that does not move the reader is refused: as corruption in magic or a section id, as another version in the version, else as a wrong digest. |
| SaveLayout.LoadedIs | Multiplayer/src/saveload/SaveReader.cpp:22-226 | Whatever bytes load, each part of the result comes from its place: sections pushed along by the counts before them, every record of every list at its offset. |
| SaveLayout.RecordsRead | Multiplayer/src/saveload/SaveReader.cpp:22-102 | A record of any values reads back as it was laid out, also the A-Life records and the fields the writer leaves at zero. |
| DigestLaws.Fnv64TellsByte | Multiplayer/include/stalkermp/saveload/SaveFormat.h:120-133 | Changing any one byte of a byte string changes its 64-bit digest. |
| DigestLaws.DigestExamples | Multiplayer/include/stalkermp/saveload/SaveFormat.h:122-133 | Digests of short strings; the save digest starts from the 64-bit offset basis without its last digit. |
| SaveWriters.Serialize | Multiplayer/src/saveload/SaveWriter.cpp:123-143 | The growing writer emits the specified bytes: header, eight framed sections, digest. |
| SaveReaders.Parse | Multiplayer/src/saveload/SaveReader.cpp:112-226 | On any bytes whatever, the cursor-driven reader gives the specified save or the specified failure. |
| SaveCursors.ByteWriter.PutU32 | Multiplayer/include/stalkermp/saveload/SaveByteCursor.h:35-41 | Appends the four little-endian bytes. |
| SaveCursors.ByteWriter.PutU64 | Multiplayer/include/stalkermp/saveload/SaveByteCursor.h:43-49 | Appends the eight little-endian bytes. |
| SaveCursors.ByteReader.Take | Multiplayer/include/stalkermp/saveload/SaveByteCursor.h:171-180 | Advances within the data, or latches the error for good and stays. |
| SaveCursors.ByteReader.Get | Multiplayer/include/stalkermp/saveload/SaveByteCursor.h:83-135 | The little-endian number at the cursor, or failure with the cursor unmoved. |
| SaveIntegrity.Build | Multiplayer/src/persistence/SaveMetadataBuilder.cpp:97-115 | Counts, tick, versions and the content digest of the view. |
| SaveIntegrity.ContentChecksum | Multiplayer/src/persistence/SaveMetadataBuilder.cpp:49-95 | The running digest is the digest of the view's words in order. |
| ContentLaws.WordsSameIff | Multiplayer/src/persistence/SaveMetadataBuilder.cpp:49-95 | Two snapshots give the checksum the same words if and only if tick, version, entities, players and environment are the same, wall clock, snapshot id and the environment's own tick aside. |
| ContentLaws.DigestTellsByte | Multiplayer/src/persistence/SaveMetadataBuilder.cpp:22-40 | One byte of one word changed is a checksum changed. |
| SaveIntegrity.ValidateCounts | Multiplayer/src/saveload/SaveIntegrityValidator.cpp:14-22 | Ok iff both counts agree with the lists. |
| SaveIntegrity.ValidateRegistry | Multiplayer/src/saveload/SaveIntegrityValidator.cpp:24-41 | One pass over neighbours is Ok iff ids are non-zero and ascending over all pairs. |
| SaveIntegrity.ValidateReferences | Multiplayer/src/saveload/SaveIntegrityValidator.cpp:43-69 | Ok iff every non-zero reference names a loaded entity. |
| SaveIntegrity.ClosedIffSelfContained | Multiplayer/src/saveload/SaveIntegrityValidator.cpp:43-69 | A restored save's references are closed if and only if the snapshot captured every entity it refers to. |
| SaveIntegrity.DanglingReferenceIsRefused | Multiplayer/src/saveload/SaveIntegrityValidator.cpp:43-69 | A sealed first snapshot with an entity that refers to one not captured: its save loads whole and the reference check refuses it. |
| SaveIntegrity.SavedSnapshotValidates | Multiplayer/src/persistence/SaveMetadataBuilder.cpp:97-115 | A snapshot with ascending entities, saved under the metadata built for it, loads whole, passes the count and registry checks, and passes the reference check iff self-contained. |
| BubbleTheorems.OnlineIff | Multiplayer/src/world/BubbleManager.cpp:31-143 | An entity is online iff at some evaluation it was within the inner radius and at every one since within the outer. |
| BubbleTheorems.DeltasRebuildOnline | Multiplayer/src/world/BubbleManager.cpp:109-138 | Folding every activation and deactivation list from nothing gives the online set. |
| BubbleTheorems.EventsAlternate | Multiplayer/src/world/BubbleManager.cpp:109-138 | An entity's activations and deactivations strictly alternate, activation first, and their parity says whether it is online. |
| BubbleLaws.WalkIsOnlineIff | Multiplayer/src/world/BubbleManager.cpp:31-143 | Of one entity walking to and fro before one player: online if and only if it once came as close as the activation radius and has been no further than the deactivation radius since, both radii included. |
| BubbleLaws.DistanceIsEuclidean | Multiplayer/src/world/BubbleManager.cpp:79-92 | The squared distance is zero only between equal points, symmetric, unchanged by a move, and the sum of the squares over the three axes. |
| BubbleManagers.BubbleManager.Update | Multiplayer/src/world/BubbleManager.cpp:31-143 | The queries, candidate map, sort and set differences compute the model's evaluation. |
| BubbleManagers.BubbleManager.MembershipOf | Multiplayer/src/world/BubbleManager.cpp:145-155 | Inside iff online now and before; pending exactly for what the last evaluation changed. |
| BubbleManagers.BubbleManager.ValidateConsistency | Multiplayer/src/world/BubbleManager.cpp:237-275 | Healthy iff the vectors are ascending, the lists are the differences and the radii nest; on a valid manager, iff the radii nest. |
| BubbleManagers.SetDifference | Multiplayer/src/world/BubbleManager.cpp:109-138 | The merge gives the ascending set difference. |
| BubbleManagers.NearestWithin | Multiplayer/src/world/BubbleManager.cpp:60-107 | The nearest player is within a radius iff some player is. |
| BubbleManagers.QueryRadius | Multiplayer/src/world/WorldQueryService.cpp:75-89 | Exactly the entities within the radius. |
| TransitionTheorems.AgreementIff | Multiplayer/src/world/TransitionManager.cpp:86-181 | Intents agree with the new online set if and only if every entity in the delta is registered, whatever the gateway answers. |
| TransitionTheorems.UnregisteredIsMissed | Multiplayer/src/world/TransitionManager.cpp:109-121 | From the start, an activation for an unregistered entity leaves its intent offline while the bubble has it online. |
| TransitionTheorems.IntentIsLastTaken | Multiplayer/src/world/TransitionManager.cpp:42-181 | Over every run, whoever is registered when, an intent heads online iff the last delta that named the entity while registered let it in. |
| TransitionTheorems.FollowsIff | Multiplayer/src/world/TransitionManager.cpp:42-181 | After every run the intents follow the bubble if and only if for every entity that last registered word agrees with the online set. |
| TransitionTheorems.IntentsFollowBubble | Multiplayer/src/world/TransitionManager.cpp:42-181 | Over every run in which delta entities stay registered, an intent heads online iff the entity is in the bubble's online set. |
| TransitionTheorems.ReconcileKeepsHeading | Multiplayer/src/world/TransitionManager.cpp:42-84 | Confirming against the engine never turns an intent around. |
| TransitionTheorems.HealthyIff | Multiplayer/src/world/TransitionManager.cpp:273-386 | With a bubble the five-part self-check after a tick is healthy if and only if the gateway gave no outcomes or at least one per command. |
| TransitionTheorems.ShortOutcomesAreUnhealthy | Multiplayer/src/world/TransitionManager.cpp:154-165 | From the start, two staged switches and one gateway outcome fail the self-check. |
| TransitionTheorems.NoBubbleHealthyIff | Multiplayer/src/world/TransitionManager.cpp:86-101 | A tick without a bubble, from any state with a backed result, is healthy if and only if no records are left over and the result is of that tick. |
| TransitionTheorems.NoBubbleRunHealthyIff | Multiplayer/src/world/TransitionManager.cpp:86-101 | After any run of a manager that has no bubble the self-check is healthy if and only if the last tick was tick 0. |
| TransitionTheorems.SortAscends | Multiplayer/src/world/TransitionManager.cpp:138-139 | Sorting the staged batch keeps its commands and makes ids strictly ascending. |
| TransitionLaws.CommandsIff | Multiplayer/src/world/TransitionManager.cpp:86-152 | Whatever the intents are, the batch is, each once and in ascending order, exactly the registered entities of the bubble's lists that have to turn around: activations of those not heading online, deactivations of those that are. |
| TransitionLaws.CommandsAreDelta | Multiplayer/src/world/TransitionManager.cpp:86-152 | While intents agree with the bubble: exactly the registered part of its activations and deactivations, each once. |
| TransitionLaws.IntentIsCommanded | Multiplayer/src/world/TransitionManager.cpp:42-152 | After any tick with a bubble a commanded entity is pending in the commanded direction; any other has settled if the engine bears it out, and else is as before. |
| TransitionLaws.IntentAfterTick | Multiplayer/src/world/TransitionManager.cpp:42-152 | While intents agree with the bubble: an intent it does not name settles exactly if the engine bears it out; a named, registered one is turned and waits. |
| TransitionLaws.ResultIsPerformed | Multiplayer/src/world/TransitionManager.cpp:154-181 | The tick reports as brought online and offline exactly the commands whose outcome was Applied, under its own tick; without a gateway nothing. |
| TransitionLaws.AllAppliedReportsDelta | Multiplayer/src/world/TransitionManager.cpp:86-181 | With every command Applied, what is reported is exactly the registered entities that came in and that left. |
| TransitionLaws.TickWithoutBubble | Multiplayer/src/world/TransitionManager.cpp:86-101 | A tick without a bubble settles intents, commands nothing, and keeps records and result. |
| TransitionManagers.TransitionManager.Update | Multiplayer/src/world/TransitionManager.cpp:86-181 | Reconcile, staging, sort and gateway results in place compute the model's tick. |
| TransitionManagers.TransitionManager.Reconcile | Multiplayer/src/world/TransitionManager.cpp:42-84 | Exactly the pending intents the engine confirms settle; the rest wait. |
| TransitionManagers.TransitionManager.ValidateConsistency | Multiplayer/src/world/TransitionManager.cpp:273-373 | The scans report healthy iff the declarative condition holds. |
| TransitionManagers.TransitionManager.BackedByAppliedRecord | Multiplayer/src/world/TransitionManager.cpp:375-386 | True iff some applied record of that kind names the entity. |
| TransitionManagers.TransitionIntentStore.Set | Multiplayer/include/stalkermp/world/TransitionIntentStore.h:56-66 | One intent changes or appears, order and accelerator kept. |
| TransitionManagers.TransitionIntentStore.Get | Multiplayer/include/stalkermp/world/TransitionIntentStore.h:81-89 | The stored intent, Offline when there is none. |
| TransitionManagers.TransitionIntentStore.ValidateConsistency | Multiplayer/include/stalkermp/world/TransitionIntentStore.h:121-152 | Each flag is exactly the property it names; a valid store has both. |
| EntityTheorems.EveryRunSound | Multiplayer/src/world/EntityRegistry.cpp:41-194 | Every run of operations, Clear among them, keeps ids non-zero and live generations between one and the last one issued. |
| EntityTheorems.StaleHandlesResolveOnlyByRestore | Multiplayer/src/world/EntityRegistry.cpp:99-194 | After a handle is unregistered, in any run it resolves again only if exactly that id and generation was restored since, or the registry was cleared since. |
| EntityTheorems.ClearRevivesStaleHandle | Multiplayer/src/world/EntityRegistry.cpp:183-194 | Register, unregister, Clear, register: the handle that went stale resolves again, with nothing restored. |
| EntityTheorems.ReservationsAreFresh | Multiplayer/src/world/EntityRegistry.cpp:479-493 | A reserved id is not live, and since the last Clear it was neither issued nor reserved; the ids reserved since then ascend. |
| EntityTheorems.ClearRepeatsReservation | Multiplayer/src/world/EntityRegistry.cpp:183-194 | Reserve, Clear, reserve gives the same id twice. |
| EntityTheorems.IssuedHaveGenerations | Multiplayer/src/world/EntityRegistry.cpp:41-97 | An id once issued stays in the generation map until the next Clear. |
| EntityLaws.ResolvesIff | Multiplayer/src/world/EntityRegistry.cpp:41-194 | Over every run, Clear included: a handle resolves if and only if it was issued by a register or a restore, and since then neither was that very handle unregistered nor the registry cleared. |
| EntityLaws.StaysLive | Multiplayer/src/world/EntityRegistry.cpp:99-194 | A handle that resolves at some point of a run still does later unless, since then, exactly it was unregistered or the registry cleared. |
| EntityLaws.RegisterIssues | Multiplayer/src/world/EntityRegistry.cpp:41-97 | A register is issued exactly for a vacant non-zero id, one generation above the last; the row is as given and Registered, and nothing else changes. |
| EntityLaws.UnregisterDoneIff | Multiplayer/src/world/EntityRegistry.cpp:99-145 | An unregister is done if and only if the handle is valid and resolves; then exactly that row goes. Otherwise nothing changes and the refusal says why. |
| EntityLaws.StaleUnregisterIsRefused | Multiplayer/src/world/EntityRegistry.cpp:117-123 | Register, unregister, register again: unregistering the first handle once more is NotFound, and the second still resolves. |
| EntityLaws.RestoreIssues | Multiplayer/src/world/EntityRegistry.cpp:496-557 | A restore is issued exactly for a valid handle whose id is vacant, with the row as given, and the last generation only moves up. |
| EntityLaws.SetStateDoneIff | Multiplayer/src/world/EntityRegistry.cpp:278-329 | A state change is done if and only if the handle resolves and the state moves one step forward or to PendingRemoval; then only the state changes. |
| EntityLaws.ReserveAnswers | Multiplayer/src/world/EntityRegistry.cpp:479-493 | A reservation is the lowest id from the cursor on that is neither live nor ever issued, and the cursor moves behind it. |
| EntityLaws.RefusedWhileDispatching | Multiplayer/src/world/EntityRegistry.cpp:41-60 | During a dispatch every guarded mutation is refused as Internal and changes nothing. |
| EntityLaws.RegisteredIsNewer | Multiplayer/src/world/EntityRegistry.cpp:41-97 | Of two registrations of one id with no Clear between them the later has the higher generation. |
| EntityModel.FirstFree | Multiplayer/src/world/EntityRegistry.cpp:479-493 | The reservation walk ends at the first id from the cursor that is not taken. |
| EntityRegistries.EntityRegistry.RegisterEntity | Multiplayer/src/world/EntityRegistry.cpp:41-97 | Reply and new state are the model's step, including refusals during dispatch, whatever guarded mutations subscribers attempt. |
| EntityRegistries.EntityRegistry.UnregisterEntity | Multiplayer/src/world/EntityRegistry.cpp:99-145 | Reply and new state are the model's step, including stale handles and dispatch. |
| EntityRegistries.EntityRegistry.RestoreEntity | Multiplayer/src/world/EntityRegistry.cpp:496-557 | Reply and new state are the model's step; the generation map only moves up. |
| EntityRegistries.EntityRegistry.SetRegistrationState | Multiplayer/src/world/EntityRegistry.cpp:278-329 | Only legal transitions of a resolving handle are stored. |
| EntityRegistries.EntityRegistry.ReserveEntity | Multiplayer/src/world/EntityRegistry.cpp:479-493 | The walk terminates, and its reply and cursor are the model's. |
| EntityTheorems.DispatchHarmlessIff | Multiplayer/src/world/EntityRegistry.cpp:183-194 | While an event is delivered, the callbacks leave the registry and its guard as they were if and only if none of them calls Clear. |
| EntityTheorems.ClearBreaksDispatch | Multiplayer/src/world/EntityRegistry.cpp:183-194 | A callback that clears and registers loses the announced entity, registers in the middle of the dispatch, and leaves the guard down. |
| EntityRegistries.EntityRegistry.Callback | Multiplayer/src/world/EntityRegistry.cpp:84-94 | The registry after any list of attempts is the model's, and is unchanged if and only if no attempt is Clear. |
| EntityRegistries.EntityRegistry.Dispatch | Multiplayer/src/world/EntityRegistry.cpp:84-94 | Whatever guarded mutations subscribers attempt during dispatch, registry and subscribers are unchanged. |
| EntityRegistries.EntityRegistry.FindByHandle | Multiplayer/src/world/EntityRegistry.cpp:153-161 | Finds a record iff the handle resolves: id live, generation equal. |
| EntityRegistries.EntityRegistry.Clear | Multiplayer/src/world/EntityRegistry.cpp:183-194 | Everything is forgotten, subscribers included. |
| EntityRegistries.EntityRegistry.ValidateIntegrity | Multiplayer/src/world/EntityRegistry.cpp:435-477 | Each list of the report is empty iff the property it checks holds; on a sound registry all are. |
| PlayerTheorems.EveryRunSound | Multiplayer/src/player/PlayerManager.cpp:45-257 | Every run keeps ids ascending, records within capacity, live connections distinct, and spawns equal to despawns plus records. |
| PlayerTheorems.NobodyIsLost | Multiplayer/src/player/PlayerManager.cpp:26-33 | Over any further events every player on record stays on record with the same entity. |
| PlayerTheorems.JoinAcceptedIff | Multiplayer/src/player/PlayerManager.cpp:45-100 | After any run a join is accepted if and only if its connection is real and not live, its entity was spawned, and the joins accepted so far are fewer than both limits. |
| PlayerTheorems.FullStaysFull | Multiplayer/src/player/PlayerManager.cpp:56-62 | Once there are as many records as players allowed, no join is accepted after any further events. |
| PlayerTheorems.LeaverKeepsSlot | Multiplayer/src/player/PlayerManager.cpp:102-128 | Room for one: after a join and a leave nobody is connected, and no join at all is accepted. |
| PlayerTheorems.UpdateReplaces | Multiplayer/src/player/PlayerManager.cpp:26-33 | Retire and then Insert always succeeds and replaces the record in place. |
| PlayerTheorems.DeathMarks | Multiplayer/src/player/PlayerManager.cpp:238-257 | A death is accepted iff the player is active; it then makes that record alone dead with its respawn tick set, identity, keys and entity unchanged; a refusal changes nothing. |
| PlayerLaws.RespawnMarks | Multiplayer/src/player/PlayerManager.cpp:206-236 | A respawn is Spawned if and only if the player is dead or waiting and the tick is at least the scheduled one, or at least the tick plus the delay if none is set; then that record alone is active, repositioned, its schedule cleared, identity, keys and entity kept. Otherwise nothing changes. |
| PlayerLaws.RespawnsAfterDelay | Multiplayer/src/player/PlayerLifecycle.cpp:45-64 | Over runs: after an accepted death at tick t, with no event on that player since, a respawn at t' is Spawned if and only if t' is at least t plus the delay. |
| PlayerLaws.JoinMarks | Multiplayer/src/player/PlayerManager.cpp:45-100 | Each outcome of a join, with exactly the record it adds and the counters it moves. |
| PlayerLaws.LeaveMarks | Multiplayer/src/player/PlayerManager.cpp:102-128 | A leave suspends exactly the active, dead or waiting player of that connection, with the token, and takes only its connection; any other leave changes nothing. |
| PlayerLaws.OthersKeepRecord | Multiplayer/src/player/PlayerManager.cpp:45-257 | An event that is about somebody else leaves a record as it is. |
| PlayerLaws.StrangersAreRefused | Multiplayer/src/player/PlayerManager.cpp:206-257 | Deaths and respawns of players not on record are refused and change nothing. |
| PlayerTheorems.JoinKeepsBijectiveIff | Multiplayer/src/player/PlayerManager.cpp:45-100 | An accepted join keeps the mappings one to one if and only if its connection is nobody's session key and its entity is none or nobody's. |
| PlayerTheorems.ReusedConnectionBreaksBijection | Multiplayer/src/player/PlayerManager.cpp:45-128 | Join, leave and join again on one connection give two records one session key. |
| PlayerTheorems.BijectiveIffFresh | Multiplayer/src/player/PlayerRegistry.cpp:169-245 | After any run the mappings are one to one if and only if the keys of every join it accepted were fresh. |
| PlayerRegistries.PlayerRegistry.Insert | Multiplayer/src/player/PlayerRegistry.cpp:75-97 | Inserts at the sorted place, or refuses exactly a zero id, a duplicate or a full registry; accelerators follow. |
| PlayerRegistries.PlayerRegistry.Retire | Multiplayer/src/player/PlayerRegistry.cpp:99-111 | Removes exactly that player's record; accelerators follow. |
| PlayerRegistries.PlayerRegistry.Allocate | Multiplayer/src/player/PlayerRegistry.cpp:68-73 | Ids ascend and are never given twice. |
| PlayerRegistries.PlayerRegistry.RebuildAccelerators | Multiplayer/src/player/PlayerRegistry.cpp:43-66 | Afterwards all four maps agree with the records. |
| PlayerRegistries.PlayerRegistry.FindByPlayerId | Multiplayer/src/player/PlayerRegistry.cpp:113-125 | The accelerator answers what a linear scan would. |
| PlayerRegistries.PlayerRegistry.FindByConnection | Multiplayer/src/player/PlayerRegistry.cpp:127-139 | The accelerator answers what a linear scan would; zero is nobody. |
| PlayerRegistries.PlayerRegistry.FindBySession | Multiplayer/src/player/PlayerRegistry.cpp:141-153 | The accelerator answers what a linear scan would; zero is nobody. |
| PlayerRegistries.PlayerRegistry.FindByEntity | Multiplayer/src/player/PlayerRegistry.cpp:155-167 | The accelerator answers what a linear scan would; zero is nobody. |
| PlayerRegistries.PlayerRegistry.ValidateConsistency | Multiplayer/src/player/PlayerRegistry.cpp:169-245 | On a valid registry, healthy iff within capacity and no connection, session key or entity belongs to two players. |
| PlayerRegistries.PlayerManager.UpdateRecord | Multiplayer/src/player/PlayerManager.cpp:26-33 | The registry ends as the model's update. |
| PlayerRegistries.PlayerManager.RequestJoin | Multiplayer/src/player/PlayerManager.cpp:45-100 | Outcome, records and counters are the model's join, every rejection and rollback included. |
| PlayerRegistries.PlayerManager.SuspendOnLeave | Multiplayer/src/player/PlayerManager.cpp:102-128 | The leaving player, if any, is kept suspended without its connection. |
| PlayerRegistries.PlayerManager.NotifyDeath | Multiplayer/src/player/PlayerManager.cpp:238-257 | Outcome, record and counters are the model's death. |
| PlayerRegistries.PlayerManager.RequestRespawn | Multiplayer/src/player/PlayerManager.cpp:206-236 | Outcome and record are the model's respawn; asked too early, nothing changes. |
| PredictionTheorems.BufferIsRecent | Multiplayer/src/prediction/SnapshotBuffer.cpp:11-27 | Whatever was pushed, the ring holds the last min(n, capacity) accepted frames, ticks ascending. |
| PredictionTheorems.AcceptedAscend | Multiplayer/src/prediction/SnapshotBuffer.cpp:11-27 | The accepted frames of any run have strictly ascending ticks. |
| PredictionTheorems.BlendsAreIntersection | Multiplayer/src/prediction/InterpolationManager.cpp:13-50 | What is presented is ascending and is exactly the entities in both frames, each at its blend. |
| PredictionTheorems.LerpBetween | Multiplayer/include/stalkermp/prediction/InterpolationStep.h:31-47 | A blended coordinate lies between its two sources for every factor: nothing is extrapolated. |
| PredictionLaws.LerpEnds | Multiplayer/include/stalkermp/prediction/InterpolationStep.h:31-45 | Factor 0 and below is the first value, 1 and above the second, between them in proportion. |
| PredictionLaws.SteadyMotionIsPresented | Multiplayer/src/prediction/SnapshotBuffer.cpp:29-83 | An entity that moves by the same amount each tick is presented where it was `delay` ticks before the render tick, as far as the buffer reaches. |
| SnapshotBuffers.SnapshotBuffer.Push | Multiplayer/src/prediction/SnapshotBuffer.cpp:11-27 | An old or repeated tick is refused unchanged; otherwise the frame is newest and the oldest gives way when full. |
| SnapshotBuffers.SnapshotBuffer.Pair | Multiplayer/src/prediction/SnapshotBuffer.cpp:29-83 | Adjacent frames with from <= target < to and factor in [0,1), or a clamp at an end, or none when empty. |
| SnapshotBuffers.SnapshotBuffer.Search | Multiplayer/src/prediction/SnapshotBuffer.cpp:62-82 | Strictly inside the range the search always finds the bracket: the fall-through after it cannot be reached. |
| SnapshotBuffers.SnapshotBuffer.FrameAt | Multiplayer/include/stalkermp/prediction/SnapshotBuffer.h:77-80 | The i-th oldest frame. |
| SnapshotBuffers.MergeWalk | Multiplayer/src/prediction/InterpolationManager.cpp:25-49 | The two-index walk emits the blend of every common id, in order, and nothing else. |
| SnapshotBuffers.InterpolationManager.Interpolate | Multiplayer/src/prediction/InterpolationManager.cpp:13-50 | Appends the blends of the pair around the render tick to what was there; without a frame nothing. |

## Left out

- Engine adapters, platform sockets, save stores, script stores, file system and log: engine calls and I/O. The transport, gateways, position and capture sources are arbitrary inputs.
- Configuration parsing, bootstrap and the service wrappers: range checks and wiring that add only easy members; the bounds the properties need are hypotheses (session capacity at least table capacity, non-zero ring sizes, two buffers).
- Lua, plugins, diagnostics, descriptions, error texts, and statistics counters other than those named above.
- Floating point: coordinates in packets and saves are 32-bit patterns compared for equality (no NaN, no signed zero); distances and blends are exact reals, so rounding is not modelled.
- Checksum strength beyond one changed byte, and saves in which a changed count moves the reader: whether such bytes load depends on the digest meeting by chance.
- Wrap-around of connection, snapshot, player, entity, generation and tick counters: these are unbounded. The 16-bit packet sequence, the 16-bit fragment index and count, the 16-bit record count, the 32-bit entity version and the 32-bit save counts do wrap as in the source.
- HostServers.HostServer.Tick: `Poll` is the arbitrary ready lists it leaves behind, data messages handed to the message registry change nothing in networking, and session observers are one notification log.
- HostTheorems.EveryRunKeepsInv: no tick surfaces a live endpoint while the table has room; outside these runs the stores part (`HostTheorems.InStepRunIff`).
- `Session::TryReclaim` and `PlayerManager::ApplyReclaim`: the session refuses every reclaim, so a reconnect never rebinds.
- Reserved connection fields, the unused last disconnect reason, and the acknowledgement fields of the packet header beyond their round trip.
- Reliability, acknowledgement windows and the packet queues beside the host: not on the host's tick path.
- The hash that turns a weather name into an id: the id is an input to a capture.
- `EncodePlayerDelta`: `Execute` never calls it.
- Replication client registry, acknowledgements, interest policy and the `ReplicationUpdate` staging object: `Execute` receives the relevant ids per client as input.
- Priority and reliability fields of an entity state: this pipeline never sets them, so they are not tracked fields here.
- UpdateReaders.FrameRoundTrip: the repository has no replication packet reader; this one is the inverse the frame layout calls for.
- The fragment header codec: six fixed-width fields through the same cursor.
- SaveReaders.Parse: apart from the story section, which is skipped by its stated length, the reader reads a section's length and does not compare it with what it decodes; the model does the same.
- Save versions, migration, recovery and the restorers behind the reader.
- EntityRegistries.EntityRegistry.Dispatch: requires that no subscriber calls `Clear`: after such a callback returns, the code goes on walking a subscriber list it has destroyed, which has no defined meaning. The callback itself is modelled.
- EntityRegistries.EntityRegistry.RegisterEntity: requires that no subscriber calls `Clear`, for the reason given for `Dispatch`.
- EntityRegistries.EntityRegistry.UnregisterEntity: requires that no subscriber calls `Clear`, for the reason given for `Dispatch`.
- EntityRegistries.EntityRegistry.RestoreEntity: requires that no subscriber calls `Clear`, for the reason given for `Dispatch`.
- Entity subscription and unsubscription, visitors, and queries by name, type or section: linear scans and small tables.
- The delta queue that feeds joins and leaves to the player manager, and the branch that despawns after a refused lifecycle join: a new record is always accepted.
- Bubble queries by position: stubs in the source.
- TransitionTheorems.SortAscends: `std::sort` is modelled by an insertion sort; with distinct ids the result is the same.
- TransitionTheorems.HealthyIff: stated for a delta of two ascending set differences, which is what the bubble produces.
- The angular blend and the player overload of the interpolation step: the interpolation walk does not call them.
- Prediction, reconciliation and input buffers: the integrator is engine code.
