# Verified model of the Meshtastenstein mesh core

This project models the protocol heart of the `meshtastenstein-core` crate, a firmware core for
Meshtastic-compatible LoRa mesh nodes, and proves properties of it with Dafny 4.11.
`dafny verify dfyconfig.toml` checks everything.

What is modelled, in the order the files build on each other:

- **Words and bits** (`Bytes`, `Bits`, `Arith`, `Vecs`, `Rings`, `Utf8`): machine integers,
  little-endian fields, slice writes, XOR, the vector operations of fixed-capacity queues, rings
  read in order of age, and which bytes are UTF-8 (RFC 3629, section 4).
- **Frames** (`Packet`): the 16-byte header, its packed flags byte, and relays rewriting it.
- **Radio arithmetic** (`RadioConfig`, `DutyCycle`, `Contention`): frequency slots, bandwidth
  codes, the receive duty cycle in 32-bit arithmetic, and the rebroadcast delay over the reals.
- **Keys and the build/receive pipeline** (`Channels`, `Crypto`, `Tx`, `Receive`): channel hashes,
  AES-CTR as XOR with a keystream (NIST SP 800-38A, section 6.5), CCM as a cipher that opens what
  it sealed (RFC 3610, sections 2.2 to 2.5), X25519 with a symmetric shared secret (RFC 7748,
  section 6.1), the one origination path, and decryption with its public-key-then-channel fallback.
- **The node** (`Device`, `NodeDb`, `Router`, `Retransmit`, `Mesh`, `MeshNode`): the node table,
  duplicate detection, retransmission, and everything one event does to a node. `Mesh` is the node
  as a state machine on values; `MeshNode` is the node as the firmware runs it, device, node table,
  router and flash ring changed in place, proved to be that state machine over every run of its
  loop.
- **Rules of one step** (`RelayRule`, `PhoneRule`, `Delivery`): exactly when a frame is relayed, what
  becomes of a packet the phone wants sealed, and when the phone is told of a success.
- **Whole runs of one node** (`Processing`, `Tables`, `Duplicates`, `Opaque`, `RelayLedger`, `Lifecycle`,
  `Retries`, `Reports`, `NonInterference`): results over every sequence of receptions, timers, phone
  requests, replays and flushes.
- **Whole runs of a network** (`Network`, `Quiescence`, `Lineage`, `HopCount`): any number of nodes
  and the copies in flight between them; copies may be lost and arrive in any order, and whoever is
  in range is chosen anew for every transmission.
- **Flash** (`MessageRing`, `NvsStorage`, `Snapshot`, `NodeStore`, `Persistence`, `ConfigStore`):
  the store-and-forward ring, the node-table snapshot and the device configuration, byte for byte,
  with reboots and power cuts.
- **What lasts and what does not** (`Recency`, `PacketIds`, `Filing`, `StoreAndForward`): what the node
  table and its snapshot know of when a node was heard, when packet ids and nonces repeat, why channels
  survive reboots, and which texts reach a phone that was away.

Conventions. Time, random draws, the contention delay and range are inputs of a step. Each data
module gives the operation first as a function, then the class or loop of the source proved equal
to it; the theorems are about the function, and so about the code. `serial` in a pending packet and
`taken` in a queued relay or a copy are names given by the model; no modelled code reads them.
The application handlers of the various port numbers are one arbitrary deterministic function
(`Env.handle`, `Env.admin`), except that for routing messages, which is modelled in full.

Where the code and its own words disagree, the model follows the code:

- `README.md:130` says a directed packet with no next hop set is relayed; the code relays a directed
  packet only when it names this node as the next hop or is addressed to it
  (`meshtastenstein-core/src/domain/router.rs:451-458`).
- `meshtastenstein-core/src/domain/handlers/util.rs:390` says public-key frames are not stored for
  replay; every decoded text is stored (`meshtastenstein-core/src/domain/handlers/from_radio/mod.rs:530-548`).
- `meshtastenstein-core/src/domain/node_db.rs:426-427` says overlong names are truncated; a cut
  inside a character loses the whole name (`Snapshot.CutLosesTheName`).
- `meshtastenstein-core/src/domain/packet.rs:93` places hop_limit in bits 4:2; the code uses bits 2:0.

Findings, each a lemma:

- A power cut inside a pop leaves a queue that cannot be peeked until it overflows
  (`MessageRing.PowerCutInPopBlocksTheQueue`, `MessageRing.BlockedUntilOverfull`), and an inconsistent
  ring header is accepted (`MessageRing.InconsistentHeaderIsAccepted`).
- Every `last_heard` stays zero, so a full node table refuses newcomers and a snapshot of more than 42
  nodes may forget the one with the latest lastSeenMs (`Recency.NewcomerIsRecordedIffThereIsRoom`,
  `Recency.TheNewestMayBeLeftOut`).
- A text sealed for one node and kept for its absent phone is lost at replay, which reads by the channel
  path alone (`StoreAndForward.ASealedTextIsLost`).
- A recipient's refusal is told to the phone as a success (`Delivery.ARefusalIsToldAsSuccess`).
- Packet ids and nonces start over at every boot (`PacketIds.NoncesRepeatAfterAReboot`).
- Compressed text to one node needs no key of its sender's
  (`Receive.CompressedTextIsAcceptedUnderAChannelKey`).
- The receive duty cycle divides by whole kilohertz and misses preambles of the presets with a
  fractional bandwidth (`DutyCycle.PresetsNeverMissIffWholeKilohertz`,
  `DutyCycle.TinyFastMissesThisPreamble`).
- A custom bandwidth the radio does not have is replaced by 250 kHz on the air, but neither in the duty
  cycle nor in the frequency plan: preambles go unheard (`DutyCycle.Code300HearsNothing`) and
  transmissions leave the band (`RadioConfig.Code100InEu433LeavesTheBand`).
- A preset wider than its band is tuned to the band edge (`RadioConfig.ShortTurboInEu868LeavesTheBand`).

## Model

| member | source | states |
|---|---|---|
| Quiescence.StepPaysForItsWork | meshtastenstein-core/src/domain/handlers/from_radio/mod.rs:411-460 | Every reception and every relay, upgrade, cancel, eviction and opaque relay included, is paid for out of a hop-weighted measure of the network; only originated transmissions add to it, each at most a fixed budget |
| Quiescence.RelayWorkIsBounded | meshtastenstein-core/src/tasks/mesh_task.rs:312-329 | Flooding quiesces: over every run of an N-node network, receptions plus relays are at most the initial measure plus one budget per originated transmission |
| Quiescence.OneTransmissionDiesOut | meshtastenstein-core/src/domain/router.rs:280-290 | From rest, one transmission causes a bounded amount of relay work, and a run that has used it up has none left |
| Quiescence.FloodLightens | meshtastenstein-core/src/domain/handlers/from_radio/mod.rs:615-638 | Receiving a decoded copy removes more weight than any relay it schedules or upgrades brings in |
| Lineage.EveryCopyIsGenuine | meshtastenstein-core/src/domain/tx.rs:191-209 | In every reachable state of a network every copy in flight, delivered or queued descends from a recorded transmission, which bears the number of the node recorded with it: hop_limit plus relays made equals hop_start, at most 7, and addresses, id, want_ack, channel, next hop and ciphertext are the originator's |
| Lineage.TheSenderFieldIsTrue | meshtastenstein-core/src/domain/tx.rs:191-209 | Among nodes that all run this code the sender field of every copy in flight or received names the node that originated it |
| Lineage.RelayingSpendsOneHop | meshtastenstein-core/src/domain/packet.rs:212-223 | One relay costs exactly one hop and changes nothing else but the relay byte |
| HopCount.HopsAwayIsARelayCount | meshtastenstein-core/src/domain/handlers/from_radio/mod.rs:473-480 | In every reachable state of a network each recorded hops_away is the number of relays really made by the last copy from that node which this node took up as new |
| NonInterference.DiscardedTrafficDoesNotInterfere | meshtastenstein-core/src/domain/handlers/from_radio/mod.rs:326-390 | Deleting every frame that is neither decoded nor answered with an unknown-key report from any sequence of receptions changes neither the node table, pending packets, stored messages and duplicate history reached nor anything sent over the air or to the phone |
| NonInterference.DiscardedFramesChangeNothingProtected | meshtastenstein-core/src/domain/handlers/from_radio/mod.rs:698-737 | A frame whose outcome is Drop touches only the opaque seen-set and the relay queue |
| NonInterference.WhatAMissingKeyChanges | meshtastenstein-core/src/domain/handlers/from_radio/mod.rs:347-372 | A frame unreadable for want of its sender's key, which is not authenticated either, advances the packet counter by exactly the answers owed, sends at most those and only to its sender, and changes nothing else at all |
| NonInterference.WhatAnEchoChanges | meshtastenstein-core/src/domain/handlers/from_radio/mod.rs:307-325 | A frame that claims our own number, which is not authenticated, ends the tracking of the first packet under its id without telling the phone, and changes and sends nothing else |
| NonInterference.FramesAreOfFiveKinds | meshtastenstein-core/src/domain/handlers/from_radio/mod.rs:280-390 | Every frame is a runt, which changes nothing, claims to be ours, is discarded, lacks a key, or has been decoded |
| NonInterference.DispatchIsBlindToQueues | meshtastenstein-core/src/domain/handlers/from_radio/mod.rs:392-478 | Two nodes that differ only in relay queue, opaque seen-set and best hop limits stay so and say the same on every frame |
| NonInterference.FilterIsBlindToQueues | meshtastenstein-core/src/domain/router.rs:238-276 | What is called new does not depend on what is queued for relaying |
| RelayLedger.RelaysAreConserved | meshtastenstein-core/src/domain/handlers/from_radio/mod.rs:653-696 | Over every run and for every packet, relays queued plus sent, cancelled and evicted equal those scheduled, which are at most the new verdicts plus opaque acceptances; the queue never exceeds eight |
| RelayLedger.ScheduledIsAdmitted | meshtastenstein-core/src/domain/handlers/from_radio/mod.rs:671-691 | A newly scheduled relay is always admitted; a full queue gives up exactly its earliest-due entry |
| RelayLedger.CancelTakesEveryCopy | meshtastenstein-core/src/domain/handlers/from_radio/mod.rs:438-455 | A cancel removes every queued copy of its packet and no other relay |
| RelayLedger.UpgradeNeverLowersHopLimit | meshtastenstein-core/src/domain/handlers/from_radio/mod.rs:422-437 | An upgrade never lowers the queued hop limit, keeps its deadline, and leaves the other relays alone |
| RelayRule.FramesAreRelayedExactlyByRule | meshtastenstein-core/src/domain/handlers/from_radio/mod.rs:615-639 | On every reception a relay is queued if and only if the frame is new and for everybody, for us or naming us as next hop, or unreadable, not for us and fresh or retransmitted; then exactly one, with one hop spent and our byte on it |
| PhoneRule.SealedRequestsAreNeverDowngraded | meshtastenstein-core/src/domain/handlers/from_app/mod.rs:201-263 | A packet the phone wants sealed is sent if and only if port number, recipient, keys and size allow it, and what is sent opens under the recipient's key to exactly what was handed over; it never goes out under a channel key |
| Duplicates.NewPacketsAreNewOverEveryRun | meshtastenstein-core/src/domain/handlers/from_radio/mod.rs:411-421 | Over every run no packet is taken up as new twice within any 201 consecutive new ones, and the duplicate ring is exactly the last 200 |
| Router.FilterRefinesLog | meshtastenstein-core/src/domain/router.rs:238-276 | A packet is new if and only if it is not among the last 200 new ones; each record's relayers stay distinct, non-zero and at most six |
| Opaque.OpaquePacketsOverEveryRun | meshtastenstein-core/src/domain/handlers/from_radio/mod.rs:707-737 | Over every run the opaque ring is exactly the last 32 unreadable packets accepted, no packet occurs twice within 33 consecutive ones, and one still remembered is accepted again only when its originator is retransmitting |
| Router.OpaqueRingRefinesLog | meshtastenstein-core/src/domain/router.rs:184-223 | One step keeps the window of the last 32 opaque packets, and relays a packet if and only if it is not among them or its originator is retransmitting |
| Router.UpgradesNeedHops | meshtastenstein-core/src/domain/router.rs:251-257 | An upgrade is only ever reported for a hop limit above zero, so its subtraction cannot wrap |
| Router.AddRelayerKeepsOk | meshtastenstein-core/src/domain/router.rs:163-178 | Tracked relayers stay distinct and non-zero, and a new one is remembered while there is room |
| Router.MeshRouter.FindRecord | meshtastenstein-core/src/domain/router.rs:133-142 | The scan of live slots finds the record of a key, or proves there is none, in age order |
| Router.MeshRouter.Record | meshtastenstein-core/src/domain/router.rs:145-160 | Recording in the ring forgets exactly the oldest record when all 200 slots are live |
| Router.MeshRouter.ShouldFilterReceived | meshtastenstein-core/src/domain/router.rs:238-276 | The filter on the ring of 200 slots gives the verdict and the records of the filter on the log, whatever the head position |
| Router.MeshRouter.ShouldRelayOpaque | meshtastenstein-core/src/domain/router.rs:199-223 | The opaque filter on its ring is the one on the log, and never touches the duplicate history |
| Retransmit.TickHandlesEachExpiredEntryOnce | meshtastenstein-core/src/domain/router.rs:369-445 | Despite swap_remove, survivors, retries and give-ups are as multisets those of one pass over the queue, together they never exceed its length, and the node table is the old one with the routes of exactly the last retries cleared |
| Retransmit.LastRetriesClearExactlyTheirRoutes | meshtastenstein-core/src/domain/router.rs:389-397 | After a tick an entry of the node table has no next hop if and only if it had none or is the first entry for the destination of an expired packet on its last retry; nothing else in the table differs |
| Retransmit.TickRetransmissions | meshtastenstein-core/src/domain/router.rs:369-445 | The loop terminates with the queue, frames to send, give-ups and amended node table of its specification, at most eight reports in all |
| Retransmit.TickKeepsDbValid | meshtastenstein-core/src/domain/router.rs:389-397 | Clearing routes keeps the table well formed, with the same nodes in the same places |
| Retransmit.ExtendPendingDeadlines | meshtastenstein-core/src/domain/router.rs:346-353 | Every deadline moves by the extension and nothing else changes |
| Lifecycle.TrackedPacketsLiveOnce | meshtastenstein-core/src/domain/handlers/from_app/mod.rs:299-333 | Over every run a tracked packet is transmitted at most 1 + 3 times, ends at most once, is queued exactly while it has not ended, and is given up only after all three retries |
| Lifecycle.BooksAlwaysBalance | meshtastenstein-core/src/domain/router.rs:384-442 | Over every run the retries left in the queue and those made always add up to the three a packet started with |
| Retries.EveryRetryRepeatsThePacket | meshtastenstein-core/src/domain/router.rs:389-417 | Over every run each retry sends the frame first sent, and the third and only the third clears its next hop |
| Reports.ThePhoneIsToldExactlyTheOutcomes | meshtastenstein-core/src/tasks/mesh_task.rs:330-350 | Over every run the phone is told, unprompted, exactly one success per routing message that cleared a tracked packet and one MaxRetransmit per exhaustion, in order and under the packet's own id, and nothing for an overheard echo |
| Delivery.SuccessIsReportedIff | meshtastenstein-core/src/domain/handlers/from_radio/routing.rs:9-49 | On every reception success is reported if and only if the frame is a new routing message that decodes and names a tracked packet, whatever it says and whoever sent it, and then for exactly that packet |
| Delivery.SuccessMeansAcceptanceIff | meshtastenstein-core/src/domain/handlers/from_radio/routing.rs:10-19 | A reported success implies that the packet was accepted if and only if there is no decodable routing message that refuses: the code discards the message it has decoded |
| Delivery.ARefusalIsToldAsSuccess | meshtastenstein-core/src/domain/handlers/from_radio/mod.rs:347-372 | When the recipient lacks the sender's key, its very refusal, received by the sender, is reported to the phone as a success |
| Reports.RoutingReports | meshtastenstein-core/src/domain/handlers/from_radio/routing.rs:27-42 | A routing message reports a success exactly when it clears a tracked packet |
| Reports.TickReports | meshtastenstein-core/src/domain/router.rs:427-442 | A tick reports exactly its exhaustions, naming each packet as first sent |
| MeshNode.Orchestrator.DispatchFrame | meshtastenstein-core/src/domain/handlers/from_radio/mod.rs:280-639 | Dispatch on the live objects reaches the state and produces the output of the state machine, from echo to relay decision |
| MeshNode.Orchestrator.FloodPacket | meshtastenstein-core/src/domain/handlers/from_radio/mod.rs:399-460 | New, upgraded, cancelled and dropped packets change exactly what the state machine says |
| MeshNode.Orchestrator.ScheduleRebroadcast | meshtastenstein-core/src/domain/handlers/from_radio/mod.rs:653-696 | Scheduling a relay, with eviction when eight are queued |
| MeshNode.Orchestrator.RelayUnread | meshtastenstein-core/src/domain/handlers/from_radio/mod.rs:707-737 | Opaque relaying changes only the relay queue and the opaque ring |
| MeshNode.Orchestrator.NoteSenderOf | meshtastenstein-core/src/domain/handlers/from_radio/mod.rs:466-486 | Hearing a node records it and its distance, and announces it to the phone on first contact only |
| MeshNode.Orchestrator.AskForNodeinfo | meshtastenstein-core/src/domain/handlers/from_radio/mod.rs:746-784 | An introduction is sent and its time noted only past every guard |
| MeshNode.Orchestrator.HandleAck | meshtastenstein-core/src/domain/handlers/from_radio/routing.rs:9-49 | A routing message clears the first packet it answers, reports it and teaches the route |
| MeshNode.Orchestrator.BufferText | meshtastenstein-core/src/domain/handlers/from_radio/mod.rs:529-549 | Text for an absent phone joins the ring of frames, which is the state machine's queue whether or not the flash writes succeed, and is still mirrored on flash if both do |
| MeshNode.Orchestrator.TransmitFromBle | meshtastenstein-core/src/domain/handlers/from_app/mod.rs:117-340 | What the phone hands over is sent, tracked, refused or handled locally as the state machine says; a refused public-key request is never sent under the channel key |
| MeshNode.Orchestrator.Tick | meshtastenstein-core/src/tasks/mesh_task.rs:330-350 | The retransmission timer sends and reports what the tick decided, in order |
| MeshNode.Orchestrator.FireNextRelay | meshtastenstein-core/src/tasks/mesh_task.rs:312-329 | The relay timer sends and removes exactly the earliest-due relay |
| MeshNode.Orchestrator.SendConfig | meshtastenstein-core/src/domain/handlers/from_app/mod.rs:606-646 | Answering a configuration request hands the phone the stored frames in order, each decoded by the channel path, up to the first that an interrupted pop has spoilt, and takes them off the ring |
| StoreAndForward.RunStores | meshtastenstein-core/src/domain/handlers/from_radio/mod.rs:529-549 | Until the phone asks for its configuration the node holds exactly the last ten new texts that arrived while the phone was away |
| StoreAndForward.TextIsShownIff | meshtastenstein-core/src/domain/handlers/from_app/mod.rs:606-646 | From reception to replay: a kept text is shown when the phone next asks for its configuration if and only if its frame is among the last ten and can be read by the channel path on the device as it is then; either way no frame is left |
| StoreAndForward.SealedIsReadAsItStands | meshtastenstein-core/src/domain/handlers/util.rs:383-389 | With no channel of its hash a sealed text is shown only if its very ciphertext happens to be a message |
| StoreAndForward.ASealedTextIsLost | meshtastenstein-core/src/domain/handlers/from_app/mod.rs:606-646 | A text opened under its sender's key, kept for the absent phone, then taken off the ring with nothing sent for it |
| MeshNode.Orchestrator.FlushTable | meshtastenstein-core/src/tasks/mesh_task.rs:205-221 | The flush writes the snapshot of a changed table and clears the mark only if the write succeeds |
| MeshNode.Orchestrator.HandleEvent | meshtastenstein-core/src/tasks/mesh_task.rs:199-361 | One event of the loop, replay and flush included, is one step of the state machine, whatever becomes of its flash writes; if those to the frame ring succeed, flash still mirrors it |
| MeshNode.Orchestrator.HandleEvents | meshtastenstein-core/src/tasks/mesh_task.rs:199-244 | Any finite sequence of these events is a run of the state machine, so every result about runs holds of it, and the table and queue bounds always hold |
| Receive.PkcBuildThenReceive | meshtastenstein-core/src/domain/handlers/from_radio/mod.rs:98-262 | A public-key message between nodes holding each other's keys is decoded to the very fields sent, text included |
| Receive.PskBuildThenReceive | meshtastenstein-core/src/domain/handlers/from_radio/mod.rs:199-262 | A channel-encrypted frame is decoded to the very fields sent when the receiver's first channel with that hash has the same key, hash 0 included; text to the receiver alone is dropped |
| Receive.OnlyPlainTextIsAlwaysAuthenticated | meshtastenstein-core/src/domain/handlers/from_radio/mod.rs:239-251 | On every node, messages of a port to us alone are accepted only when opened under the stored key of their sender if and only if the port is plain text |
| Receive.CompressedTextIsAcceptedUnderAChannelKey | meshtastenstein-core/src/domain/handlers/from_radio/mod.rs:239-251 | Compressed text to us alone, which is stored and shown as text, is accepted from whoever shares a channel key |
| Receive.UnknownKeyIsReportedIff | meshtastenstein-core/src/domain/handlers/from_radio/mod.rs:264-278 | An unknown key is reported if and only if a packet of hash 0 to us alone, whose sender's key we do not hold or could not try, is no message when read by the channel path either |
| Receive.DecryptAndDecode | meshtastenstein-core/src/domain/handlers/from_radio/mod.rs:98-262 | Decrypting in local buffers gives the outcome of the specification for every frame that fits the radio |
| Receive.TryPkc | meshtastenstein-core/src/domain/handlers/from_radio/mod.rs:151-197 | The sender's key is tried exactly for a candidate whose key is stored, and gives the authentic plaintext or nothing |
| Tx.BuiltFramesStartFresh | meshtastenstein-core/src/domain/tx.rs:183-229 | Every built frame is from us, fits the radio, starts with hop_limit equal to hop_start at most 7, asks for an ACK only when not broadcast, and follows the learned route when there is one |
| Tx.OriginatedDataCarriesItsBitfield | meshtastenstein-core/src/domain/tx.rs:107-128 | Every message we originate carries the bitfield with its two flags |
| Tx.BuildFrame | meshtastenstein-core/src/domain/tx.rs:97-229 | The buffer-by-buffer build gives the specified frame, or none exactly when the specification has none |
| Crypto.CryptTwice | meshtastenstein-core/src/domain/crypto_psk.rs:50-77 | Channel encryption is its own inverse for every key length it accepts |
| Crypto.CryptPacket | meshtastenstein-core/src/domain/crypto_psk.rs:50-77 | Encryption in place over the buffer; a bad key length is refused and an empty message needs no key |
| Crypto.NonceIsInjective | meshtastenstein-core/src/domain/crypto_psk.rs:23-32 | The nonce determines sender and packet id |
| PacketIds.NoncesAreFreshWithinABoot | meshtastenstein-core/src/domain/device.rs:111-114 | Within one boot, packets under self-chosen ids have different nonces unless 2^32 ids or more lie between them |
| PacketIds.IdsRepeatIff | meshtastenstein-core/src/domain/device.rs:111-114 | Two ids handed out within one boot are equal if and only if a multiple of 2^32 lie between them |
| PacketIds.NoncesRepeatAfterAReboot | meshtastenstein-core/src/domain/device.rs:106 | Whatever id a node had reached, after a reboot it hands out the ids, and so the nonces, of its first boot over again |
| Crypto.PkcNonceIsInjective | meshtastenstein-core/src/domain/crypto_pkc.rs:80-87 | The CCM nonce determines packet, sender and extra nonce |
| Crypto.OpenUndoesSeal | meshtastenstein-core/src/domain/crypto_pkc.rs:105-178 | The wire format of ciphertext, tag and extra nonce is taken apart as it was put together |
| Crypto.EncryptPkc | meshtastenstein-core/src/domain/crypto_pkc.rs:105-132 | Sealing into a caller's buffer, refused exactly when the buffer is too small |
| Crypto.DecryptPkc | meshtastenstein-core/src/domain/crypto_pkc.rs:140-178 | Opening into a caller's buffer, with the short-frame, small-buffer and bad-tag errors |
| Channels.HashOf | meshtastenstein-core/src/domain/channels.rs:37-60 | The two folding loops compute the channel hash over effective name and effective key |
| Channels.FindsTheFirst | meshtastenstein-core/src/domain/channels.rs:101-106 | A hash collision always resolves to the first active channel with that hash |
| Packet.HeaderRoundTrip | meshtastenstein-core/src/domain/packet.rs:114-138 | Every header is read back whatever follows it |
| Packet.HeaderBytesRoundTrip | meshtastenstein-core/src/domain/packet.rs:114-138 | Re-encoding a decoded header gives its very bytes |
| Packet.MakeFlagsRoundTrip | meshtastenstein-core/src/domain/packet.rs:73-111 | The four packed fields come back out of the flags byte they were put into |
| Packet.SetHopLimitRewritesOnlyHopLimit | meshtastenstein-core/src/domain/packet.rs:94-97 | Setting hop_limit disturbs no other flag |
| Packet.ParseIsInverseOfAsBytes | meshtastenstein-core/src/domain/packet.rs:162-208 | Reading a frame as header and body loses nothing in either direction |
| Packet.EncodeHeaderInto | meshtastenstein-core/src/domain/packet.rs:114-122 | The field-by-field write fills all sixteen bytes as specified |
| Packet.FromPartsInto | meshtastenstein-core/src/domain/packet.rs:180-192 | Assembling a frame fails exactly when it is too long and is otherwise read back as its parts |
| Packet.RewriteHeaderInPlace | meshtastenstein-core/src/domain/packet.rs:212-223 | Rewriting a relay's bytes changes only hop limit and relay byte and nothing past the frame |
| NodeDb.TouchKeepsValid | meshtastenstein-core/src/domain/node_db.rs:309-331 | Hearing any number keeps node numbers distinct, non-reserved and at most 96, and never drops our own entry |
| NodeDb.TouchRecords | meshtastenstein-core/src/domain/node_db.rs:309-331 | A node heard at a given time is recorded with the reading given, unless the table is full of entries that count as fresh at that time, and then nothing changes |
| Recency.NothingIsEverDated | meshtastenstein-core/src/domain/handlers/from_radio/mod.rs:468-472 | Hearing is always noted at time zero, so over every run whose handlers do likewise every last_heard stays zero |
| Recency.NewcomerIsRecordedIffThereIsRoom | meshtastenstein-core/src/domain/node_db.rs:309-331 | At that time a node not yet known is recorded if and only if the table has room: pruning drops nobody, and a full table stays exactly as it is |
| Tables.TheTableStaysWellFormed | meshtastenstein-core/src/domain/node_db.rs:155-190 | Over every run the table keeps at most 96 nodes, distinct and none reserved |
| NodeDb.RemoveKeepsValid | meshtastenstein-core/src/domain/node_db.rs:291-303 | Removing a node removes that node and no other |
| NodeDb.LearnRouteKeepsValid | meshtastenstein-core/src/domain/router.rs:315-338 | Learning a route keeps the table well formed, even when it has to make an entry |
| NodeDb.LearnedRouteIsUsed | meshtastenstein-core/src/domain/router.rs:299-338 | A learned route is the next hop used, except back to the relay to avoid |
| NodeDb.NodeDB.TouchNode | meshtastenstein-core/src/domain/node_db.rs:309-331 | The method, pruning included, keeps the invariant and does what the specification says |
| NodeDb.NodeDB.Slot | meshtastenstein-core/src/domain/node_db.rs:155-190 | Lookup-or-create refuses reserved numbers and a full table and otherwise yields the one slot of that number |
| NodeDb.NodeDB.RemoveNode | meshtastenstein-core/src/domain/node_db.rs:291-303 | swap_remove loses nobody else and marks the table dirty only when something was removed |
| NodeDb.NodeDB.SetIgnored | meshtastenstein-core/src/domain/node_db.rs:241-251 | Ignoring a node forgets its position and key and changes no other entry |
| NodeDb.NodeDB.UpdatePubKey | meshtastenstein-core/src/domain/node_db.rs:202-211 | A key is stored for exactly that node, or not at all when there is no slot for it |
| MessageRing.TheRingIsABoundedQueue | meshtastenstein-core/src/adapters/generic_nvs_storage.rs:366-432 | From first use on, over every run of adds, pops, clears, reboots and power cuts between the two writes of an add or of a pop, the ring is a drop-oldest queue of ten, flash alone always holds that same queue, and peeking shows its front; only its front can ever be missing, and only after a power cut in a pop |
| MessageRing.RunRefines | meshtastenstein-core/src/adapters/generic_nvs_storage.rs:366-432 | The same from any state in which flash agrees with the ring, spoilt slots included |
| MessageRing.AddSurvivesPowerCuts | meshtastenstein-core/src/adapters/generic_nvs_storage.rs:366-383 | Power cut anywhere in an add: the queue before or after it, or, between the two writes of an add to a full ring, the new frame ahead of the nine newest old ones |
| MessageRing.PowerCutInPopBlocksTheQueue | meshtastenstein-core/src/adapters/generic_nvs_storage.rs:399-413 | Power cut between the two writes of a pop: peeking fails, with the other frames intact behind the popped one |
| MessageRing.BlockedUntilOverfull | meshtastenstein-core/src/adapters/generic_nvs_storage.rs:366-397 | Such a queue stays blocked through exactly the adds that fill it, and the next add frees it |
| MessageRing.RebootRebuildsTheQueue | meshtastenstein-core/src/adapters/generic_nvs_storage.rs:102-124 | Loading rebuilds indices and queue whatever stale slots lie outside the window |
| MessageRing.FreshFlashBootsEmpty | meshtastenstein-core/src/adapters/generic_nvs_storage.rs:102-133 | Flash without a valid header boots to an empty queue that flash agrees with |
| MessageRing.BootIsSoundIff | meshtastenstein-core/src/adapters/generic_nvs_storage.rs:102-133 | For any flash contents, a booted ring is sound if and only if its header was rejected, or its indices agree and every slot of its window carries the valid mark |
| MessageRing.InconsistentHeaderIsAccepted | meshtastenstein-core/src/domain/persistence.rs:425-437 | The header check does not require head, tail and count to fit together |
| MessageRing.HeaderSurvivesIffInRange | meshtastenstein-core/src/domain/persistence.rs:414-437 | A header is read back if and only if its three numbers are in range |
| MessageRing.AddIsPushBounded | meshtastenstein-core/src/adapters/generic_nvs_storage.rs:366-383 | Adding appends and drops the oldest of ten |
| MessageRing.PopDropsWhatPeekShows | meshtastenstein-core/src/adapters/generic_nvs_storage.rs:385-413 | Peeking shows the oldest frame, and popping drops that one |
| NvsStorage.GenericNvsStorage.AddFrame | meshtastenstein-core/src/adapters/generic_nvs_storage.rs:366-383 | RAM and flash after an add, whichever of its two writes succeed |
| NvsStorage.GenericNvsStorage.PopFrame | meshtastenstein-core/src/adapters/generic_nvs_storage.rs:399-413 | RAM and flash after a pop, whichever of its two writes succeed; an empty ring is left alone |
| NvsStorage.GenericNvsStorage.Peek | meshtastenstein-core/src/adapters/generic_nvs_storage.rs:385-397 | Nothing, the oldest frame, or an error for an invalid slot |
| NvsStorage.GenericNvsStorage.LoadOrInit | meshtastenstein-core/src/adapters/generic_nvs_storage.rs:102-133 | Loading any flash contents, initialising them when the header is bad |
| NvsStorage.GenericNvsStorage.LoadSlots | meshtastenstein-core/src/adapters/generic_nvs_storage.rs:331-348 | The loop reads every slot back and never trusts an erased one |
| NvsStorage.GenericNvsStorage.PersistSlot | meshtastenstein-core/src/adapters/generic_nvs_storage.rs:317-328 | Only the bytes of that slot change on flash |
| NvsStorage.GenericNvsStorage.ReplayStoredFrames | meshtastenstein-core/src/domain/handlers/from_app/mod.rs:606-646 | Replay takes the frames before the first spoilt slot off the ring, in order, whatever becomes of the writes: the whole of a sound queue, nothing of a blocked one |
| NvsStorage.GenericNvsStorage.ClearAll | meshtastenstein-core/src/adapters/generic_nvs_storage.rs:425-432 | Clearing empties the ring in RAM and, if the one write succeeds, on flash |
| Snapshot.RestoreBringsBackTheSelection | meshtastenstein-core/src/domain/node_db.rs:345-410 | Restoring a snapshot brings back exactly the selected entries that are not ours, in order, each as a record keeps it, and keeps our own |
| Snapshot.SelectionIsByLastHeard | meshtastenstein-core/src/domain/node_db.rs:352-357 | Nothing left out has a later last_heard, a field the running firmware leaves at zero, than anything kept, and nothing is left out while fewer than 42 are kept |
| Recency.SnapshotsKeepTheLatestIff | meshtastenstein-core/src/domain/node_db.rs:352-357 | With every last_heard zero, a snapshot keeps the nodes with the latest lastSeenMs, whatever order the sort returns, if and only if there are at most 42 of them or lastSeenMs is the same for all |
| Recency.TheNewestMayBeLeftOut | meshtastenstein-core/src/domain/node_db.rs:352-357 | 43 nodes and a legitimate order that leaves out precisely the one with the latest lastSeenMs |
| Recency.RestoringDatesNothing | meshtastenstein-core/src/domain/node_db.rs:376-410 | A table restored from such a snapshot is again one in which every last_heard is zero |
| Snapshot.RecordRoundTrip | meshtastenstein-core/src/domain/node_db.rs:413-542 | A record is read back as its entry up to truncation: unknown differs from zero, no user from a user with empty names |
| Snapshot.NameSurvivesIff | meshtastenstein-core/src/domain/node_db.rs:484-491 | A name survives if and only if it fits and is UTF-8, or is empty |
| Snapshot.CutLosesTheName | meshtastenstein-core/src/domain/node_db.rs:426-433 | A name cut inside a character is lost entirely |
| Snapshot.DecodedRecordsAreFixed | meshtastenstein-core/src/domain/node_db.rs:464-542 | Whatever any 96 bytes are read as is stored and read back unchanged |
| Snapshot.AnyBytesRestoreSafely | meshtastenstein-core/src/domain/node_db.rs:376-410 | Any bytes at all either leave the table as it was or leave it well formed, clean and with our own entry intact |
| Snapshot.SortNewestFirst | meshtastenstein-core/src/domain/node_db.rs:352-356 | A permutation of the entries by descending last_heard |
| NodeStore.ToSnapshot | meshtastenstein-core/src/domain/node_db.rs:345-372 | The buffer-filling loop yields the snapshot of a most-recently-heard order |
| NodeStore.EncodeRecordInto | meshtastenstein-core/src/domain/node_db.rs:413-462 | The field-by-field write fills a zeroed record as specified |
| NodeStore.RestoreInto | meshtastenstein-core/src/domain/node_db.rs:376-410 | The restoring loop, on any bytes, keeps the invariant and does what the specification says |
| Persistence.SettingsSurviveIff | meshtastenstein-core/src/domain/persistence.rs:344-368 | Save, power off, load onto a new device: which settings always survive, and for names, bandwidth, channel slot and hop limit exactly when |
| Filing.ActiveChannelsAlwaysSurvive | meshtastenstein-core/src/domain/handlers/admin/set_channel.rs:31-44 | Whatever updates, other changes of settings and reboots a device has been through since the factory, every channel is filed under its own index, and a reboot brings back every active one in its slot |
| Persistence.ChannelsSurviveIffFiledByIndex | meshtastenstein-core/src/domain/persistence.rs:370-392 | For any slots at all, all active channels survive a reboot if and only if each is filed under its own index; every other slot is then as on a new device |
| Persistence.ConfigRoundTrip | meshtastenstein-core/src/domain/persistence.rs:222-341 | Every field of the 512 bytes comes back, up to the erased-byte defaults, so no two share a byte |
| Persistence.FiledChannelsAreRestored | meshtastenstein-core/src/domain/persistence.rs:177-198 | Saving and restoring channel by channel rebuilds each slot in turn |
| ConfigStore.SavedConfigFromDevice | meshtastenstein-core/src/domain/persistence.rs:166-219 | The loop saves exactly the active channels, and what it saves always fits the layout |
| ConfigStore.EncodeConfigBytes | meshtastenstein-core/src/domain/persistence.rs:222-266 | The slice writes over erased flash produce the specified 512 bytes |
| ConfigStore.DecodeConfigBytes | meshtastenstein-core/src/domain/persistence.rs:270-341 | Decoding any 512 bytes stays in bounds and is the specified reading |
| ConfigStore.ApplySavedConfig | meshtastenstein-core/src/domain/persistence.rs:344-393 | Applying a configuration changes exactly the device fields the specification names |
| RadioConfig.TransmissionIsInsideIff | meshtastenstein-core/src/domain/radio_config.rs:203-210 | For every region, bandwidth and index a transmission, at the width the radio is set to, stays inside the band if and only if a channel fits and either that width is no more than planned or the slot's centre is at least half of it from both edges |
| RadioConfig.EveryIndexIsInsideIff | meshtastenstein-core/src/drivers/lora_task_body.rs:49-63 | Every index stays inside the band if and only if a channel fits and the radio is set no wider than planned |
| RadioConfig.Code100InEu433LeavesTheBand | meshtastenstein-core/src/domain/radio_config.rs:203-210 | Wire code 100 in EU433: the first of ten planned slots is sent from 75 kHz below the band |
| RadioConfig.PlannedSlotIsInsideIffAChannelFits | meshtastenstein-core/src/domain/radio_config.rs:176-210 | A planned slot lies inside the band if and only if a channel fits, and no frequency overflows 32 bits |
| RadioConfig.PlannedSlotsDoNotOverlap | meshtastenstein-core/src/domain/radio_config.rs:203-210 | Two planned slots share a frequency or are disjoint |
| RadioConfig.TransmissionsAreApartIff | meshtastenstein-core/src/domain/radio_config.rs:203-210 | Transmissions under two indices do not overlap if and only if their slots lie at least the width the radio is set to apart |
| RadioConfig.AllSlotsAreApartIff | meshtastenstein-core/src/drivers/lora_task_body.rs:49-63 | Different slots never overlap on the air if and only if the radio is set no wider than planned or there is one slot only |
| RadioConfig.DefaultChannelIsAValidIndex | meshtastenstein-core/src/domain/radio_config.rs:72-82 | The hashed default slot is a slot of the plan whenever there is one, and lies inside the band |
| RadioConfig.ShortTurboInEu868LeavesTheBand | meshtastenstein-core/src/domain/radio_config.rs:203-207 | A preset wider than its band is tuned to the band edge, half outside it |
| RadioConfig.BandwidthSurvivesIffItHasACode | meshtastenstein-core/src/domain/radio_config.rs:35-59 | A bandwidth survives the 16-bit code if and only if it has one |
| RadioConfig.EveryDecodedBandwidthSurvives | meshtastenstein-core/src/domain/radio_config.rs:35-59 | Every decoded bandwidth survives in Hz, although two codes name 1625 kHz |
| RadioConfig.Djb2 | meshtastenstein-core/src/domain/radio_config.rs:10-19 | The wrapping hash loop |
| DutyCycle.OwnBandwidthNeverMissesIff | meshtastenstein-core/src/drivers/lora_task_body.rs:98-176 | For every bandwidth the radio has, every spreading factor and every preamble whose 32-bit products fit, no preamble starting at any moment is missed, tick rounding included, if and only if the bandwidth is a whole number of kilohertz |
| DutyCycle.ReplacedBandwidthNeverMissesIff | meshtastenstein-core/src/drivers/lora_task_body.rs:98-176 | On the air at 250 kHz, with timings computed for any bandwidth the radio replaces by it: no preamble is missed if and only if the computed sleep is in ticks no longer than one computed from the symbol on the air and a wake window holds eight symbols on the air; if it does not, nothing is heard |
| DutyCycle.ReplacedBandwidthsAtTheFirmwarePreamble | meshtastenstein-core/src/drivers/lora_task_body.rs:284-293 | At the firmware's 64 symbols: the radio listens all the time when the computed symbol is below 22 microseconds; otherwise nothing is missed if and only if the bandwidth lies between a lowest and a highest kilohertz for the spreading factor, and above the highest nothing at all is heard |
| DutyCycle.PresetsNeverMissIffWholeKilohertz | meshtastenstein-core/src/drivers/lora_task_body.rs:122-170 | For every built-in preset the products fit and the radio is set to its bandwidth, and it never misses a preamble if and only if that bandwidth is a whole number of kilohertz |
| DutyCycle.TinyFastMissesThisPreamble | meshtastenstein-core/src/drivers/lora_task_body.rs:136-142 | A preamble sent with TinyFast that no wake window hears for eight symbols |
| DutyCycle.Code300HearsNothing | meshtastenstein-core/src/drivers/lora_task_body.rs:49-63 | Wire code 300, which the phone can set, is sent at 250 kHz but timed for 300, and at spreading factor 11 no preamble is ever heard |
| Contention.RouterAlwaysRelaysFirst | meshtastenstein-core/src/domain/router.rs:806-823 | For any two SNR readings and random draws a ROUTER's delay in milliseconds is strictly smaller than any other role's |
| Contention.WeakerSignalsDrawFromSmallerWindows | meshtastenstein-core/src/domain/router.rs:487-498 | A weaker signal never draws from a larger contention window |

## Left out

- Port-number handlers other than that for routing messages (admin, position, telemetry, node info, traceroute, neighbour info, waypoint, remote hardware): one arbitrary deterministic function of their state. It is assumed to keep our node number and the table invariant, for `HopCount` not to make up distances, for `Recency` to hear only at time zero, and for `Reports` and `Delivery` not to send routing results; the frames a handler sends are built after its state change.
- Cipher, hash, curve and protobuf internals: functions with the stated laws, which `Crypto.LawsAreConsistent` shows can be met. The generated protobuf code is not part of this model; enum numbers are those of the protocol.
- The executor, the channels of the async runtime and their capacities: a queue send is an output of the step.
- Board crates, SPI, LED, watchdog, Bluetooth services, deep sleep and the endless radio loop.
- FromRadio ids, LED blinks and the remembered position payload: they feed nothing modelled.
- Airtime limits: two input flags say whether background and ordinary traffic may be sent.
- Real-time liveness of retries: each received frame pushes every deadline back by 100 ms, so steps are counted instead. The deadline extension happens before dispatch (`meshtastenstein-core/src/tasks/mesh_task.rs:294-297`), so the non-interference results are about dispatch.
- Partial flash writes: a slot write and a header write are each atomic and replace the bytes they cover without an erase; flash reads succeed.
- The bond and key-pair records: straight-line code around the modelled codecs.
- The content of the configuration exchange and of other answers to the phone: arbitrary messages of an event. When a flush is due is left to the sequence of events; a deferred shutdown is a last flush, a deferred reboot the end of the run.
- A ring whose stored indices disagree (`MessageRing.InconsistentHeaderIsAccepted`): the loop is modelled from a boot with agreeing indices.
- Modulation settings the radio library refuses, for which the code retries with LongFast (`meshtastenstein-core/src/drivers/lora_task_body.rs:178-206`): the library is not part of this model.
- Duty-cycle products that do not fit in 32 bits, as for a custom bandwidth of 1 kHz: computed with wrap-around, but no guarantee is stated.
- 32-bit float rounding of the contention delay: computed over the reals.
- Retransmit.TickHandlesEachExpiredEntryOnce: of the queue it speaks in multisets, because swap_remove reorders the queue; `Reports.TickReports` and `Retries.EveryRetryRepeatsThePacket` restore what order matters.
- Snapshot.SortNewestFirst: the library sort is unstable; the snapshot results hold for every order a sort by recency may return.
