# Karadul, modelled and proved in Dafny

Karadul is a mesh VPN: nodes register with a coordinator, learn of each other through topology snapshots, build
encrypted tunnels with a two-message Noise-style handshake, and fall back to a relay. This project models three
parts of it and proves what they promise.

**The tunnel.** `Crypto` has symbolic terms: Diffie-Hellman is a multiset of secrets, hashes and key derivation are
free constructors, sealing is ideal. `Noise` runs both handshake messages over them. `Replay` models the sliding
window down to its thirty-two 64-bit words. `Sessions`, `EngineTables` and `NodeEngine` are one node: its counters,
its three tables and its handlers. `Tunnel` interleaves two such engines over a network that loses, repeats and
reorders packets, one step per lock-held region, and carries the end-to-end theorems; `Deliveries` says what reaches a
node and how often, `Nonces` that no key and counter are used twice, `Responders` which packets of a responder open,
`Repeats` has a run that delivers one packet twice. `Attacker` is the same handshake and data against an attacker who
injects whatever it can build without the honest parties' secrets. `Messages` is the wire layout.

**The coordinator.** `IPPool` (address pool), `StoreState` and `Stores` (store, garbage collection, wake-ups),
`Poll` (the long-poll protocol, region by region), `Coordinator` and `Api` (registrations, deletions, collections,
failed saves and restarts over store and pool), `Registrations` (single-use keys and public keys under registrations
side by side), `RateLimit`, `RateExact`, `RateTransparency` and `RateMiddleware`
(token buckets over the reals: the limit, exactly which steps can break it, what the cleanup changes, the objects),
`Hub` (the WebSocket event loop).

**Mesh and codecs.** `Peers`, `Mesh`, `MeshRuns` and `Managers` (peer table,
reconciliation, collection, lock by lock), `Routing`
(longest-prefix match), `Frames`, `Relay` and `RelayServer` (the relay), `Dns` (names with compression pointers),
`Stun` (attribute walk and address decoding). `Words`, `Buffers`, `Options` and `Sequences` hold the fixed-width
arithmetic, byte layouts, option type and sequence facts they share.

Each stateful part comes twice: a class whose methods follow the code region by region, and a value-level function
that its contracts are tied to; the theorems over all runs and interleavings are about the latter.

Where the code and its documentation differ, the code is followed:

- The replay window is documented as rejecting every counter seen inside the window. `Check` and `Advance` index
  by counter modulo 2048, while `slideBy` shifts the whole bitmap linearly; `SECURITY_AUDIT.md` lines 132-153
  describes the same mismatch. `Replay.AdvanceAgreementExact` gives the exact condition under which an advance
  keeps the documented meaning; `SlideOfOneForgets` and `SlideOfOneRejects` show both ways it fails;
  `RingRunAgrees` shows a slide that would keep it.
- The handshake is called Noise IK. Its second message mixes DH(responder static, initiator ephemeral) where
  section 7.5 of the Noise Protocol Framework (revision 34) has DH(responder ephemeral, initiator static). What is
  proved is agreement between the two sides as coded.
- The rate limit can fail in two ways, each exactly characterised by `RateExact.StepKeepsLimitIff`: a handler takes
  its token so late that a refill would have been capped (`LateTakeAdmitsTwice`), or a cleanup deletes an idle bucket
  that a handler has looked up and not yet refilled (`RaceAdmitsTwice`). `RateLimit.LateAdmissionsAreLimited` is what
  late takes leave of the limit, and `RateTransparency.CleanupIsTransparentIff` says when the cleanup is unnoticed.
- A packet can be delivered twice: the window is locked for the check and again for the advance, and two handlers may
  check before either advances (`Deliveries.DoubleCheckDeliversTwice`); `DeliveredAtMostOnceIff` has the exact
  condition while slides are whole. With handlers one after the other it happens after a slide of one
  (`Repeats.OnePacketIsDeliveredTwice`).
- A long poll can miss a mutation that falls into the clock reading of one it knows (`Poll.EqualStampsAreMissed`), and
  one whose stamp was replaced by an older one: the store's collector reads the clock before it waits for the lock, so
  `UpdatedAt` goes backwards (`Poll.OldReadingHidesNews`). `Poll.CheckSleepsIff` and `Poll.NewsWakesIff` have the exact
  conditions, `Poll.NotifyKeepsOrderIff` says which mutations can cause it.
- A single-use auth key can admit two nodes, and two nodes can share a public key, because registration looks up,
  stores and marks in separate regions, and leaves the node stored when its save fails:
  `Registrations.StepKeepsRuleIff` has the exact conditions.
- A node that was silent for over ten minutes can be collected between its update and the end of a reconciliation
  (`MeshRuns.ReconciledIff`).
- The peer index loses a live peer when its address was passed on from a peer not yet collected:
  `MeshRuns.ReassignedAddressIsLost`, with the exact condition in `Mesh.GcKeepsCoveredIff`.
- A DNS name that ends in a pointer to the root is read with a dot at its end (`Dns.PiecesParseIff`). A length byte of
  64 to 191 is read as a label, which section 4.1.4 of RFC 1035 reserves.
- Relay: a departing connection that had been replaced evicts its successor (`Relay.RemovalEvictsAnotherIff`), and
  a routed packet can meet a closed queue (`Relay.SendMeetsClosedIff`).

## Model

| member | source | states |
|---|---|---|
| `Noise.Message1AcceptedIffAddressed` | internal/crypto/noise.go:101-203 | A responder accepts an honest first message exactly when it was sealed to its own static key; it then knows the initiator and both have equal chaining key, hash and cipher key |
| `Noise.AcceptedMeansSameTranscript` | internal/crypto/noise.go:205-299 | An initiator given a tag that some responder wrote accepts if and only if both saw the same messages and target key; then chaining key and hash are equal, send and receive keys crossed, and the responder knows the initiator |
| `Noise.HonestReplyAgrees` | internal/crypto/noise.go:205-299 | The answer to an own first message is accepted and both ends agree |
| `Noise.HonestHandshakeCompletes` | internal/crypto/noise.go:101-299 | Any two parties that address each other finish with agreement, whatever their ephemerals |
| `Noise.SameTag` | internal/crypto/noise.go:225-299 | An accepted tag forces equal transcripts, chaining keys and hashes |
| `Noise.FreshEphemeralsSeparateSessions` | internal/crypto/noise.go:205-299 | If two handshakes of one responder share a key in either direction they have the same initiator, initiator ephemeral and responder ephemeral |
| `Attacker.KnowledgeIsClosed` | internal/crypto/noise.go:101-299 | What the attacker can build is closed under agreeing with its own secrets and opening boxes, whatever honest parties have sealed |
| `Attacker.SentIsKnown` | internal/crypto/noise.go:101-245 | And it holds every message and packet that an honest party sends |
| `Attacker.AnswerAcceptedIff` | internal/crypto/noise.go:247-288 | Against any answer the attacker can build, an initiator whose ephemeral and addressed key are secret accepts exactly those that the addressed party wrote to its first message |
| `Attacker.AcceptedAnswerIsHonest` | internal/crypto/noise.go:205-299 | And then both agree: chaining key and hash equal, keys crossed, the responder knows the initiator; the initiator's own static key may be known to the attacker |
| `Attacker.OfferAcceptedIff` | internal/crypto/noise.go:151-203 | A responder accepts a first message in the name of a peer, both static keys secret, exactly if that peer wrote it to this responder's key |
| `Attacker.InitiatorKeysAreSecret` | internal/crypto/noise.go:247-301 | The keys of an initiator's session cannot be built by the attacker, whoever answered |
| `Attacker.ResponderKeysAreSecret` | internal/crypto/noise.go:205-301 | Nor those of a responder's session with an honest peer, even if the ephemeral it read is the attacker's |
| `Attacker.InitiatorOpensOnlySealed` | internal/node/session.go:79-91 | Whatever the attacker injects, what opens in an initiator's session was sealed under that counter by a responder that replied on the same chaining key |
| `Attacker.ResponderOpensOnlySealed` | internal/node/session.go:79-91 | What opens in a responder's session with an honest peer was sealed under that counter by an initiator that completed on the same chaining key |
| `Noise.HandshakeState.constructor` | internal/crypto/noise.go:48-99 | A handshake of either role starts from the protocol name, the prologue and the responder key |
| `Noise.HandshakeState.WriteMessage1` | internal/crypto/noise.go:101-149 | The object after the call, and the message or error, are those of the value-level step, also on every error path |
| `Noise.HandshakeState.ReadMessage1` | internal/crypto/noise.go:151-203 | As above: fields set before a failure stay set |
| `Noise.HandshakeState.WriteMessage2` | internal/crypto/noise.go:205-245 | As above |
| `Noise.HandshakeState.ReadMessage2` | internal/crypto/noise.go:247-288 | As above |
| `Noise.HandshakeState.Keys` | internal/crypto/noise.go:290-301 | Keys exist only after both messages; the responder gets the initiator's pair swapped |
| `Crypto.EcdhCommutes` | internal/crypto/x25519.go:37-56 | Both ends derive one secret, and a secret with a fixed end determines the other end |
| `Crypto.MixKeyInjective` | internal/crypto/blake2s.go:70-77 | A mixed cipher key determines the chaining key and the input |
| `Crypto.SplitSeparates` | internal/crypto/blake2s.go:84-90 | The two directions never share a key, and an equal key in either direction means equal chaining keys |
| `Replay.AdvanceKeepsAgreement` | internal/crypto/replay.go:23-61 | If checks agree with the set of counters advanced, they still do after an advance that slides by 0 or at least 2048 |
| `Replay.AdvanceAgreementExact` | internal/crypto/replay.go:23-94 | An advance keeps agreement for every window content with this floor if and only if its slide is 0 or at least 2048 |
| `Replay.RunAgrees` | internal/crypto/replay.go:23-94 | Along every run of such advances Check accepts exactly the unseen counters at or above the floor |
| `Replay.EarlyCountersAgree` | internal/crypto/replay.go:23-61 | Any run of counters below 2048 keeps the floor at 0 and accepts exactly the unseen counters |
| `Replay.PartialSlideForgets` | internal/crypto/replay.go:64-94 | After a slide of 1 to 2047 a lone marked counter still inside the window is accepted again |
| `Replay.PartialSlideRejects` | internal/crypto/replay.go:64-94 | Such a slide makes the window reject any counter into whose slot it carries a mark |
| `Replay.SlideOfOneForgets` | internal/crypto/replay.go:41-94 | Concrete run 2047, 2048: 2047 is accepted a second time |
| `Replay.SlideOfOneRejects` | internal/crypto/replay.go:41-94 | The same run rejects 1920, which was never advanced |
| `Replay.RingSlideAgrees` | internal/crypto/replay.go:41-94 | A slide that clears only the slots of counters newly entering the window keeps agreement whatever its length |
| `Replay.RingRunAgrees` | internal/crypto/replay.go:41-94 | With such slides Check would agree with the set of counters along every run, of whatever slides, and the floor would move as it does |
| `Replay.FloorIsMonotone` | internal/crypto/replay.go:41-61 | The floor never moves back and no counter behind it is ever accepted |
| `Replay.FloorFollowsTheTop` | internal/crypto/replay.go:41-61 | The floor is 0 with every counter below 2048, or exactly 2047 behind the largest counter advanced |
| `Replay.NewestIsAccepted` | internal/crypto/replay.go:23-61 | A counter above all that were advanced is accepted, whatever slides the run made |
| `Replay.PackedShift` | internal/crypto/replay.go:72-93 | Word copy by n/64 then carry shift by n%64 is one left shift by n of the 2048-bit string, zero-filled, for every n and bitmap |
| `Replay.SlotsShifted` | internal/crypto/replay.go:64-94 | What that shift of the string does to the slots that Check and Advance read |
| `Replay.ReplayWindow.Check` | internal/crypto/replay.go:23-37 | Reads the packed bit of the counter's slot; accepts past the window; changes nothing |
| `Replay.ReplayWindow.Advance` | internal/crypto/replay.go:41-61 | The whole new window; when it slides, the new floor is exactly counter - 2047, with no wrap up to the largest counter |
| `Replay.ReplayWindow.SlideBy` | internal/crypto/replay.go:64-94 | The floor moves by n on 64 bits and the bitmap is the old one shifted left by n as one string; all zero from 2048 on |
| `Replay.ReplayWindow.MoveWords` | internal/crypto/replay.go:75-80 | The word copy and zeroing loop |
| `Replay.ReplayWindow.ShiftWithCarry` | internal/crypto/replay.go:84-93 | The carry loop from the last word to the first |
| `Replay.ReplayWindow.Reset` | internal/crypto/replay.go:97-102 | Back to floor 0 with no mark |
| `Sessions.CountersCountUp` | internal/node/session.go:55-75 | The i-th Encrypt of a session that is not rotated uses the i-th counter, on 64 bits, whatever is checked and advanced between |
| `Sessions.CountersShareOnlyOnWrap` | internal/node/session.go:55-75 | Two Encrypt calls share a counter if and only if a multiple of 2^64 calls apart |
| `Sessions.WindowIsOfTheAccepted` | internal/node/session.go:55-100 | After any calls the window is that of the accepted counters alone, and the keys are those the session was made with |
| `Sessions.Session.Encrypt` | internal/node/session.go:55-75 | Seals under the counter it returns and raises it by one; nothing else of the channel changes |
| `Sessions.Session.Decrypt` | internal/node/session.go:79-100 | The two locked window calls with nothing in between: the window is asked first and moves only for a packet that authenticated |
| `Sessions.Session.CheckAndOpen` | internal/node/session.go:79-91 | The first region: accepted and authenticated under the window of that moment; nothing changes |
| `Sessions.Session.Accept` | internal/node/session.go:93-97 | The second region: the window advances, whatever happened to it since the check |
| `Sessions.Session.Rotate` | internal/node/session.go:103-111 | New keys, counter zero, empty window |
| `Sessions.Session.IsExpired` | internal/node/session.go:113-118 | Exactly when more than 150 seconds have passed since the keys were made |
| `Sessions.ExpiredUntilRotated` | internal/node/session.go:53-118 | A session that is too old to seal stays so, however it is used, until its keys are replaced, and then seals for exactly another 150 seconds |
| `Messages.InitRoundTrip` | internal/protocol/messages.go:26-52 | Parsing recovers a marshalled init message, whatever bytes follow |
| `Messages.RespRoundTrip` | internal/protocol/messages.go:71-97 | Parsing recovers a marshalled response, whatever bytes follow |
| `Messages.DataRoundTrip` | internal/protocol/messages.go:113-138 | A marshalled data message is recovered exactly when its ciphertext has room for the tag, else refused |
| `Messages.ParsedInitMarshalsBack` | internal/protocol/messages.go:26-52 | Whatever parses marshals back to the same bytes but the reserved ones and those past the fixed size |
| `Messages.ParsedRespMarshalsBack` | internal/protocol/messages.go:71-97 | As above for responses |
| `Messages.ParsedDataMarshalsBack` | internal/protocol/messages.go:113-138 | As above for data messages |
| `Messages.MarshalInit` | internal/protocol/messages.go:26-36 | Filling the buffer by offset gives the fixed layout |
| `Messages.MarshalResp` | internal/protocol/messages.go:71-80 | As above |
| `Messages.MarshalData` | internal/protocol/messages.go:113-121 | As above |
| `Messages.InitLayout` | internal/protocol/messages.go:26-36 | Type 1 and three zero bytes, the sender index with its least significant byte first, then the fields at 8, 40 and 88 |
| `Messages.RespLayout` | internal/protocol/messages.go:71-80 | Type 2, both indices, then the fields at 12 and 44 |
| `Messages.DataLayout` | internal/protocol/messages.go:113-121 | Type 3, receiver index, the 64-bit counter at 8, then the ciphertext |
| `EngineTables.StepKeepsInv` | internal/node/engine.go:812-819 | Every lock-held region keeps: pending, byID and drawn ids disjoint, each entry under its own id, no id above the counter, every sessions entry also in byID under its localID |
| `EngineTables.TablesAlwaysConsistent` | internal/node/engine.go:812-1044 | That invariant holds in every state that any interleaving of handler regions reaches |
| `EngineTables.OnlyRekeyRemovesASession` | internal/node/engine.go:959-1297 | A byID entry is never replaced or moved, and leaves exactly when its peer is rekeyed while it is that peer's current session |
| `EngineTables.RetiredIdsStayRetired` | internal/node/engine.go:1026-1044 | An id once out of every table never comes back |
| `NodeEngine.Engine.NextID` | internal/node/engine.go:1395-1397 | Draws an id that no table holds |
| `NodeEngine.Engine.InitiateHandshake` | internal/node/engine.go:786-838 | Sends nothing and changes nothing if the peer has a pending handshake; otherwise stores one pending entry under the new id with the state that produced the message |
| `NodeEngine.Engine.HandleHandshakeInit` | internal/node/engine.go:842-908 | Answers exactly the first messages that verify; the session, made at that moment, is in both maps with the responder's keys and the sender's id before the answer exists |
| `NodeEngine.Engine.HandleHandshakeResp` | internal/node/engine.go:910-955 | The pending entry is spent whether or not the answer verifies; a verified one becomes a session with the derived keys, made at that moment. That a pending handshake awaits an answer is part of the invariant |
| `NodeEngine.Engine.Build` | internal/node/engine.go:959-974 | Stores one new session in both maps, made at that moment, and nothing else |
| `NodeEngine.Engine.SendToPeer` | internal/node/engine.go:728-750 | Seals the packet for the peer's current session under the next counter, exactly if that session was made at most 150 seconds ago; the packet is dropped otherwise, and a handshake asked for exactly if there is no session at all; sending does not move the session's time |
| `NodeEngine.Engine.HandleData` | internal/node/engine.go:977-1021 | Only the session named by the receiver index decrypts, and keeps its time; what opens is written to the TUN device exactly if the access list allows it; an unknown index changes nothing |
| `NodeEngine.Engine.RekeyPeer` | internal/node/engine.go:1287-1299 | Removes the peer's current session from both maps and no other entry |
| `NodeEngine.Engine.ExpirePending` | internal/node/engine.go:1026-1044 | Removes exactly the pending entries sent more than five seconds ago |
| `Tunnel.InitiatorSessionsAreMirrored` | internal/node/engine.go:786-974 | In every run of two engines a session its initiator holds has a partner at the responder, ids crossed and keys crossed, in the responder's byID until the responder rekeys it |
| `Tunnel.SealedPacketsOpenAtThePeer` | internal/node/engine.go:728-1021 | A packet sealed on a mirrored session opens at the check of a data handler to the bytes sealed, exactly when the replay window lets its counter through at that moment |
| `Tunnel.InitiatorPacketsAreDelivered` | internal/node/engine.go:728-1021 | End to end over an interleaved, lossy, reordering network: such a packet passes the check and opens to the bytes sealed whenever its counter exceeds all delivered on the session, and for older counters, while slides are whole, exactly if at or above the floor and not delivered |
| `Responders.ResponderPacketsOpenIff` | internal/node/engine.go:728-1021 | In every run with fresh ephemerals, a packet sealed on a responder's session opens at the initiator to the bytes sealed if and only if the initiator completed its offer with that very answer and the window lets the counter through |
| `Deliveries.HeldPacketsAreAuthentic` | internal/node/engine.go:977-1021 | In every reachable state what a data handler is about to deliver is what the peer sealed under that counter, on a session that names this one |
| `Deliveries.EarlyPacketsPassOnce` | internal/node/session.go:79-91 | Until a counter of 2048 is delivered, the check of a packet passes exactly if its counter was not delivered |
| `Deliveries.DoubleCheckDeliversTwice` | internal/node/session.go:79-100 | Two handlers that check one packet before either advances the window both deliver it |
| `Deliveries.DeliveredAtMostOnceIff` | internal/node/engine.go:678-704 | Over any finished run with whole slides a session delivered every counter at most once if and only if no two handlers ever held one counter between check and advance |
| `Repeats.OnePacketIsDeliveredTwice` | internal/node/session.go:79-100 | For any two keys, a run from the start in which each window check comes right before its advance delivers the packet of counter 2047, then 2048, then 2047 again on one session |
| `Tunnel.NoCounterIsSealedTwice` | internal/node/session.go:55-75 | In every run each seal finds its session and counter unused |
| `Nonces.NoKeyAndCounterTwice` | internal/node/session.go:55-75 | If all ephemeral secrets drawn are different, no key and counter seal two packets, over all sessions of both engines and both directions |
| `Nonces.KeyDeterminesSession` | internal/node/engine.go:959-974 | Then a send key belongs to one session of one side |
| `Tunnel.UndisturbedHandshakeCompletes` | internal/node/engine.go:786-974 | Between any two engines with an id left, in whatever state, the six regions of an undisturbed handshake leave a new session that is current in both sessions maps and mirrored |
| `Tunnel.CompletionStands` | internal/node/engine.go:910-974 | An answer to a pending handshake completes it with the answerer's keys crossed whatever sender index it carries; that index, which nothing authenticates, is what the session sends to |
| `Tunnel.NextHolds` | internal/node/engine.go:786-1044 | Any step of either engine keeps the two-sided invariant |
| `Tunnel.TimeoutDropsTheOld` | internal/node/engine.go:1026-1044 | A tick drops exactly the pending handshakes that were sent more than five seconds ago |
| `IPPool.HostsFillTheSubnet` | internal/coordinator/ip_pool.go:21-42 | For every IPv4 prefix /0 to /30 the pool covers exactly the addresses strictly between network and broadcast, with no wrap of 32 bits |
| `IPPool.OperationsStayConsistent` | internal/coordinator/ip_pool.go:47-93 | Allocate, Release and Reserve keep used[byNode[n]] = n |
| `IPPool.ConsistentIsInjective` | internal/coordinator/ip_pool.go:47-93 | Then no two nodes hold one address |
| `IPPool.AllocationStaysExact` | internal/coordinator/ip_pool.go:47-75 | Allocate and Release keep the two maps inverse to each other |
| `IPPool.ReserveStaysExactIff` | internal/coordinator/ip_pool.go:82-93 | Reserve keeps them inverse if and only if it does not move a node that has another address |
| `IPPool.FewUsedMeansFreeHost` | internal/coordinator/ip_pool.go:47-64 | While fewer addresses than hosts are in use a host address is free |
| `IPPool.AddressPool.constructor` | internal/coordinator/ip_pool.go:21-42 | The pool of a subnet, through the 32-bit arithmetic of the code |
| `IPPool.AddressPool.Allocate` | internal/coordinator/ip_pool.go:47-64 | Stable per node, first-fit, and refused only when every host address is taken |
| `IPPool.AddressPool.Release` | internal/coordinator/ip_pool.go:67-74 | The node's current address is free and the node unknown; nothing else changes |
| `IPPool.AddressPool.Reserve` | internal/coordinator/ip_pool.go:82-93 | Refused exactly if another node has the address; otherwise node and address are recorded for each other |
| `StoreState.GcAbsorbs` | internal/coordinator/storage.go:437-492 | Collecting at t1 and then t2 leaves the nodes and keys of collecting only at t2 |
| `StoreState.GcSparesPending` | internal/coordinator/storage.go:455-475 | Pending nodes survive every collection unchanged and in order |
| `StoreState.GcKeepsIdentity` | internal/coordinator/storage.go:455-475 | What is left are old nodes in order, at most marked offline |
| `StoreState.NodesCollected` | internal/coordinator/storage.go:437-475 | One collection by status and age: online or offline nodes last seen more than 86400 seconds ago are gone, other online ones last seen more than 1800 seconds ago are offline, all others unchanged and in order |
| `StoreState.KeysCollected` | internal/coordinator/storage.go:477-491 | Gone are exactly the ephemeral keys used more than 3600 seconds ago and the others expired more than 86400 seconds ago; the rest is unchanged and in order |
| `StoreState.FilterUnchangedIffSameLength` | internal/coordinator/storage.go:463-487 | Compaction changed something exactly when it shortened the slice |
| `StoreState.EditsKeepDistinctIds` | internal/coordinator/storage.go:226-274 | Adding, replacing and deleting keep node ids distinct |
| `StoreState.WithNodeMeans` | internal/coordinator/storage.go:226-243 | A node put in takes the place of the first with its id, or comes last; all others stay in place |
| `StoreState.WithoutNodeMeans` | internal/coordinator/storage.go:261-273 | Deleting takes out the first node of the id and leaves all others, in order |
| `StoreState.RefusedStaysRefused` | internal/coordinator/auth.go:45-57 | A key that is turned away is turned away at every later time |
| `StoreState.MarkedIsRefusedIff` | internal/coordinator/storage.go:311-322 | After an ephemeral key is marked its secret is refused for good if and only if no earlier key has its id, or it expires anyway |
| `Stores.Compact` | internal/coordinator/storage.go:463-475 | Appending the kept elements into the slice being read yields the filter of the old contents, in order |
| `Stores.Store.RunGC` | internal/coordinator/storage.go:437-492 | The three phases leave the collected state; stamp and version move, and subscribers wake, exactly when something changed; the file is replaced only then |
| `Stores.MarkThenDropChanges` | internal/coordinator/storage.go:455-475 | The dirty flag of the two node loops is set exactly when the collection changes the nodes |
| `Stores.Store.AddNode` | internal/coordinator/storage.go:226-243 | Replaces the node of that id or appends; notifies every subscriber; a failed save keeps the change in memory only |
| `Stores.Store.UpdateNode` | internal/coordinator/storage.go:246-258 | Changes exactly the first node of that id; unknown ids change nothing |
| `Stores.Store.DeleteNode` | internal/coordinator/storage.go:261-273 | The tail moves down over the node; unknown ids change nothing |
| `Stores.Store.MarkAuthKeyUsed` | internal/coordinator/storage.go:311-322 | The first key of the id, and no other, is marked as used at that time and saved, without a wake-up; an unknown id changes nothing |
| `Stores.Store.GetNodeByPubKey` | internal/coordinator/storage.go:213-223 | Finds the first stored node of the key, exactly if there is one |
| `Stores.Store.Subscribe` | internal/coordinator/storage.go:178-183 | A fresh empty channel joins the list |
| `Stores.Store.Cancel` | internal/coordinator/storage.go:184-194 | Takes out that channel and leaves all others in order |
| `Poll.CancelRemovesOnlyItsOwn` | internal/coordinator/storage.go:184-194 | Cancelling removes its own subscriber and no other |
| `Stores.Store.Notify` | internal/coordinator/storage.go:166-175 | Every subscriber's channel holds a token afterwards |
| `Poll.EveryMutationIsVisibleOrSignalled` | internal/coordinator/poll.go:63-83 | In every interleaving, for a waiter that has not returned: a token is there exactly if some mutation notified after the subscribe, and the check returns exactly if the stamp of the last mutation is newer than the version |
| `Poll.CheckSleepsIff` | internal/coordinator/poll.go:63-83 | A version check goes to sleep without a token if and only if no mutation has notified since the subscribe and the stamp of the last one is not newer than the version, whatever order the stamps have |
| `Poll.EqualStampsAreMissed` | internal/coordinator/poll.go:63-83 | Two mutations within one clock reading: a waiter that knows of the first misses the second |
| `Poll.NoLostWakeup` | internal/coordinator/poll.go:63-83 | While the stamps came in order, a waiter with a completed mutation newer than its version can receive, or its check returns |
| `Poll.NewsWakesIff` | internal/coordinator/poll.go:63-83 | A waiter with a completed mutation newer than its version is woken or its check returns if and only if a mutation notified since the subscribe or the last stamp is newer than the version |
| `Poll.NotifyKeepsOrderIff` | internal/coordinator/storage.go:437-446 | A mutation keeps the stamps in order exactly if it is no collection whose clock reading is older than the last stamp |
| `Poll.OldReadingHidesNews` | internal/coordinator/storage.go:437-446 | Stamps 5, 6 and then 4 from a collector that read the clock first: a waiter that knows of 5 sleeps through 6 |
| `Poll.BlockedMeansUpToDate` | internal/coordinator/poll.go:63-83 | A blocked waiter has no token exactly if nothing notified since its subscribe, and then the stamp of the last mutation is not newer than its version |
| `Poll.CancelTouchesNoOtherWaiter` | internal/coordinator/storage.go:184-194 | Cancel removes only its own subscriber and no token |
| `Poll.WaitsEnd` | internal/coordinator/poll.go:75-83 | Every wait can end, by a token, which is used up, or by giving up, and is then cancelled |
| `Poll.NextKeepsInv` | internal/coordinator/storage.go:166-195 | Every step of subscribe, mutate, notify, check, receive and cancel keeps the protocol invariant |
| `Coordinator.NoTwoNodesShareAnAddress` | internal/coordinator/api.go:291-347 | Over all interleaved registrations, deletions, collections, failed saves and restarts no two nodes in the store, on disk, or in the store and in flight share an address |
| `Coordinator.ReserveRestoresAll` | internal/coordinator/server.go:49-55 | Re-reserving distinct loaded addresses in any subnet never fails and gives every node its address back |
| `Coordinator.RestartKeepsInv` | internal/coordinator/server.go:49-55 | A restart from the last saved state keeps the invariant |
| `Coordinator.RestartHoldsTheSaved` | internal/coordinator/server.go:37-70 | After a restart the pool holds the addresses of the saved nodes and no other |
| `Coordinator.CollectKeepsInv` | internal/coordinator/storage.go:437-492 | So does a collection |
| `Api.Server.constructor` | internal/coordinator/server.go:37-70 | Starting over the saved state is the restart step |
| `Api.Server.ReserveLoaded` | internal/coordinator/server.go:49-55 | The loop reserves every loaded address, skipping failures |
| `Api.Server.HandleRegister` | internal/coordinator/api.go:232-361 | Refused exactly if no key has the secret, or the first one expired or is ephemeral and used; pool exhausted only with a full pool. Otherwise a node with what was asked for is put in and answered: an unknown one carries the key's id and waits for approval exactly if approval is manual, a known one keeps id, address, status and key. Exactly a first registration with an ephemeral key marks it |
| `Api.Server.AdmitNew` | internal/coordinator/api.go:314-361 | The first registration: node stored, then the ephemeral key marked; nothing is marked if the save failed |
| `Api.Server.CheckKey` | internal/coordinator/api.go:274-283 | The first key with the secret, if it is not refused |
| `Api.CheckID` | internal/coordinator/api.go:173-183 | The loop accepts exactly the non-empty ids of letters, digits and dashes |
| `Api.DrawnIDsAreValid` | internal/coordinator/api.go:173-183 | Every hexadecimal id is accepted, and none with a separator of a path |
| `Api.Server.UpdateExisting` | internal/coordinator/api.go:291-312 | Re-registration keeps id, key, address and status, takes routes, exit flag and name, and is one store step |
| `Api.Server.RegisterNew` | internal/coordinator/api.go:314-361 | Allocation then insertion of the node as requested; on a failed save the node stays in memory and the client gets an error |
| `Registrations.StepKeepsRuleIff` | internal/coordinator/api.go:275-355 | In any state with the invariant a step can be relied on to keep one node per single-use key, or per public key, if and only if it is neither a second lookup while a handler holds the key or is about to store that public key, nor (for the first rule) a failed save |
| `Registrations.SafeRegistrationsKeepRules` | internal/coordinator/api.go:275-355 | Over all runs of interleaved registrations without such steps each single-use key admits one node and each public key has one |
| `Api.Server.HandleApprove` | internal/coordinator/api.go:576-590 | Exactly the named node becomes active; an unknown id or a failed save is answered as not found |
| `Api.Server.HandleDelete` | internal/coordinator/api.go:595-606 | Exactly the named node leaves the store; the pool keeps its address |
| `RateLimit.AdmissionsAreLimited` | internal/coordinator/server.go:227-290 | At most rps + rps*(b-a) tokens are taken in any interval [a,b] by one address, in every interleaving of safe steps: takes before a refill would be capped, cleanups only when every holder of the bucket has refilled it |
| `RateLimit.LimitIs` | internal/coordinator/server.go:244-252 | The limit of an interval is rps + rps*(b-a) |
| `RateExact.StepKeepsLimitIff` | internal/coordinator/server.go:244-290 | In every state that safe steps reach, all continuations of a cleanup or of a take from the bucket of the map keep the limit if and only if that step is safe |
| `RateExact.StaleTakeOvershoots` | internal/coordinator/server.go:254-290 | A handler with a token in hand of a deleted bucket can always break the limit |
| `RateLimit.PromptTakesAreSafe` | internal/coordinator/server.go:276-284 | A take with no clock reading since the last refill is safe |
| `RateLimit.LateAdmissionsAreLimited` | internal/coordinator/server.go:227-290 | However late takes come, at most 2*rps + rps*(b-a) are admitted while no cleanup deletes a held bucket |
| `RateExact.LateTakeAdmitsTwice` | internal/coordinator/server.go:276-284 | Concrete run without any cleanup: a late take makes two admissions at one instant at one request per second |
| `RateLimit.BudgetPays` | internal/coordinator/server.go:244-290 | Every safe region of a handler and every safe cleanup pays one token of the remaining budget per admission |
| `RateLimit.NextKeepsInv` | internal/coordinator/server.go:244-290 | Tokens stay within [0, rps]; every handler holds the bucket of the map or has already refilled a deleted one |
| `RateLimit.IdleIsFull` | internal/coordinator/server.go:254-264 | A bucket idle over five minutes is full at its next refill |
| `RateExact.RaceAdmitsTwice` | internal/coordinator/server.go:254-290 | Concrete interleaving with a cleanup between lookup and refill: two admissions at one instant at one request per second |
| `RateExact.RaceIsReachable` | internal/coordinator/server.go:254-290 | Safe steps lead there from the first request on |
| `RateTransparency.CleanupIsTransparent` | internal/coordinator/server.go:254-264 | Runs with and without the cleanup take the same decisions, now and later, when no held bucket is deleted |
| `RateTransparency.CleanupIsTransparentIff` | internal/coordinator/server.go:254-264 | A cleanup that deletes a bucket changes no decision of any continuation if and only if no handler holds that bucket |
| `RateMiddleware.Middleware.Handle` | internal/coordinator/server.go:266-290 | One undisturbed request is admitted exactly when its refilled or new bucket holds a token; no other address changes |
| `RateMiddleware.Middleware.Refill` | internal/coordinator/server.go:244-252 | Refill by elapsed time times rps, capped at rps |
| `RateMiddleware.Middleware.Cleanup` | internal/coordinator/server.go:254-264 | Deletes exactly the buckets idle for over 300 seconds |
| `Hub.RegisteredClientsMissNothing` | internal/coordinator/websocket.go:86-146 | A registered client was queued its greeting and then every broadcast since, in order without a gap; any other an unbroken prefix; no channel is closed twice or written after closing |
| `Hub.LeavesOnlyWhen` | internal/coordinator/websocket.go:104-139 | A client leaves exactly when it unregisters, the hub stops, or a broadcast finds its channel full with 256 messages |
| `Hub.AcceptedAreBroadcast` | internal/coordinator/websocket.go:118-282 | Every message that found room in the hub's channel is broadcast once, in order, or still waits there |
| `Hub.TouchingClosedPanics` | internal/coordinator/websocket.go:110-139 | What counts as a panic: a send to a closed channel, or a second close |
| `Hub.PumpTakesOldest` | internal/coordinator/websocket.go:86-146 | The write pump takes the oldest message and so makes room |
| `Hub.ShutdownIsLast` | internal/coordinator/websocket.go:92-100 | After a shutdown no event but those of write pumps follows, and no client is left |
| `Hub.NextKeepsInv` | internal/coordinator/websocket.go:86-146 | Every event keeps that relation between queues and history |
| `Hub.OfferedIsBounded` | internal/coordinator/websocket.go:217-282 | Periodic updates leave what was pending followed by the first messages there is room for among 64, in order |
| `Hub.Loop.DoRegister` | internal/coordinator/websocket.go:102-108 | The client enters the table and is offered its greeting |
| `Hub.Loop.DoUnregister` | internal/coordinator/websocket.go:110-116 | A client in the table leaves and is closed; any other is untouched |
| `Hub.Loop.DoUpdate` | internal/coordinator/websocket.go:217-282 | Each update is offered to the hub's own channel without blocking |
| `Hub.Loop.SendToAll` | internal/coordinator/websocket.go:118-128 | Every client is offered the message; exactly the full ones are collected |
| `Hub.Loop.Evict` | internal/coordinator/websocket.go:130-139 | Exactly the collected clients are closed, once, and leave |
| `Hub.Loop.DoBroadcast` | internal/coordinator/websocket.go:118-139 | Clients with room are queued the message and stay; the others are closed and leave |
| `Hub.Loop.DoShutdown` | internal/coordinator/websocket.go:92-100 | Every client is closed once and the table is empty |
| `Mesh.ApplyReconciles` | internal/mesh/topology.go:30-71 | After an undisturbed Apply every non-expired peer is an online node other than this one, and every online node with valid key and address other than this one is held non-expired |
| `Mesh.ApplyBrings` | internal/mesh/topology.go:30-71 | What a reconciliation makes of each peer: a listed one has name and routes of its last node, the last endpoint that parsed, and is alive, and keeps id, address and last-seen time if it was held; one named without an address is as before; any other is expired |
| `Mesh.ApplyIsIdempotent` | internal/mesh/topology.go:30-71 | Applying a snapshot again, at any time, with nothing in between changes nothing |
| `MeshRuns.ApplyIsARun` | internal/mesh/topology.go:30-71 | The separately locked calls of a reconciliation with nothing in between, in any listing order, amount to Apply |
| `MeshRuns.ReconciledIff` | internal/mesh/topology.go:30-71 | With collections, received packets and other calls in between, an online node that is not updated or expired again is a live peer at the end if and only if no collection after its update finds it silent for over ten minutes |
| `MeshRuns.TransitionDecides` | internal/mesh/peer.go:76-115 | A state transition decides alone whether a held peer is live |
| `MeshRuns.UnseenEndExpired` | internal/mesh/topology.go:64-70 | And no peer outside the snapshot is live at the end |
| `Mesh.ApplyKeepsIndex` | internal/mesh/manager.go:51-101 | Reconciliation keeps every index entry leading to a held peer of that address, and every held address indexed |
| `Mesh.GcDropsExactlyTheExpired` | internal/mesh/manager.go:151-171 | Collection keeps exactly the peers that are not expired and were heard of within 600 seconds |
| `Mesh.GcKeepsSound` | internal/mesh/manager.go:151-171 | And leaves no index entry of a dropped peer |
| `Mesh.GcKeepsCoveredIff` | internal/mesh/manager.go:161-168 | Every surviving peer stays indexed if and only if no expired peer shares its address |
| `Mesh.CoveredIsScan` | internal/mesh/manager.go:123-128 | With distinct addresses the index answers as a scan exactly when every held address is indexed |
| `MeshRuns.IndexIsAlwaysSound` | internal/mesh/manager.go:51-171 | Over all runs, lock by lock, the index is sound, and equals a scan when addresses are distinct and collections met no shared address |
| `MeshRuns.ReassignedAddressIsLost` | internal/mesh/manager.go:161-168 | For every pair of nodes: passing an address to a new node before the old peer is collected leaves the new peer out of the index |
| `Managers.Manager.AddOrUpdate` | internal/mesh/manager.go:51-101 | A new peer enters both maps; a held one keeps id and address, takes the new name and routes, an endpoint only if it parsed, and revives |
| `Managers.Manager.Remove` | internal/mesh/manager.go:104-112 | Marks the peer expired and keeps it held |
| `Managers.Manager.GetPeerByVIP` | internal/mesh/manager.go:123-128 | The held peer that the index names |
| `Managers.Manager.CollectExpired` | internal/mesh/manager.go:160-169 | The two loops over records and maps amount to the collection |
| `Managers.TopologyManager.Apply` | internal/mesh/topology.go:30-71 | The two loops over records amount to the reconciliation |
| `Managers.TopologyManager.AddNodes` | internal/mesh/topology.go:31-62 | The first loop, and the set of keys seen, which includes nodes without a usable address |
| `Managers.TopologyManager.ExpireUnseen` | internal/mesh/topology.go:65-70 | The second loop expires exactly the peers not seen |
| `Peers.IdleCheckSettles` | internal/mesh/peer.go:142-166 | A connected peer is idle after 300 seconds of silence and expired after 600, an idle one expired after 600, no other state changes; a second check changes nothing, and no check decides whether a peer is expired |
| `Peers.PeerRecord.IdleCheck` | internal/mesh/peer.go:150-166 | The two timed transitions, in order |
| `Peers.PeerRecord.Touch` | internal/mesh/peer.go:102-115 | Refreshes the last-seen time and revives an idle peer |
| `Routing.Router.RoutePacket` | internal/mesh/routing.go:37-86 | Never an expired peer; the live owner of the address first, else a live peer with a longest matching prefix, the exit node only when nothing matches, an error exactly when no rule applies |
| `Routing.Router.SetExitNode` | internal/mesh/routing.go:25-29 | Sets or clears the exit node |
| `Routing.ContainsIff` | internal/mesh/routing.go:62-63 | A prefix of length bits contains exactly the 2^(32 - bits) addresses from its base on, bits of the base beyond the prefix masked off |
| `Routing.ContainsAtTheEnds` | internal/mesh/routing.go:62-63 | One address at length 32, every address at length 0 |
| `Routing.MatchingPrefixesNest` | internal/mesh/routing.go:60-71 | Any two prefixes that contain the destination are nested |
| `Routing.LongestIsMostSpecific` | internal/mesh/routing.go:60-78 | The chosen route lies inside every other matching route of every live peer |
| `Routing.Router.Candidates` | internal/mesh/routing.go:46-71 | Exactly the matching routes of live peers are collected |
| `Routing.SortDescending` | internal/mesh/routing.go:74-76 | A permutation in descending prefix length |
| `Frames.FrameRoundTripIff` | internal/relay/protocol.go:43-76 | A written frame is read back, whatever follows, if and only if its payload is at most 65536 bytes; the length field keeps 32 bits |
| `Frames.FramesRoundTripIff` | internal/relay/protocol.go:43-76 | Any list of frames is read back identically if and only if no payload is longer |
| `Frames.ReadIsWritten` | internal/relay/protocol.go:43-76 | Whatever reads as a frame was written as that frame |
| `Frames.RelayedPacketArrivesIff` | internal/relay/protocol.go:84-115 | A packet crosses both connections with the sender's key in place of the receiver's if and only if it leaves room for a key in a frame |
| `Frames.WireLayout` | internal/relay/protocol.go:43-56 | Type in one byte, length in four with the most significant first, then the payload |
| `Frames.WriteFrame` | internal/relay/protocol.go:43-56 | Appends the frame's bytes to the stream |
| `Frames.ReadFrame` | internal/relay/protocol.go:59-76 | Reads one frame or fails as the byte-level parser does, consuming only that frame |
| `Relay.TableQueuesAreOpen` | internal/relay/server.go:198-215 | In every run a client in the table has an open queue of its own key, and no queue is closed twice, across replacement and removal |
| `Relay.FramesArriveInOrder` | internal/relay/server.go:183-196 | Frames of one sending connection reach one receiving connection as an in-order subsequence, without omission of what is queued, of what it sent there, each stamped with the sender's key |
| `Relay.QueuesGrowAsTold` | internal/relay/server.go:150-244 | What each step leaves in each queue: a packet routed to an open queue of fewer than 64 frames is its last frame with the sender's key, others in the table are told who came or went, a ping is answered, nothing else is queued |
| `Relay.UndisturbedRouteDelivers` | internal/relay/server.go:183-196 | A packet routed without interruption is the last frame of its destination's queue if there was room; no other queue changes |
| `Relay.OneThingAtATime` | internal/relay/server.go:140-196 | A read loop reads, or has one packet in hand, or is on its way out, and what each leads to |
| `Relay.SendMeetsClosedIff` | internal/relay/server.go:183-196 | A routed packet meets a closed queue exactly when its target left the table between lookup and send |
| `Relay.RemovalEvictsAnotherIff` | internal/relay/server.go:207-215 | A departing connection evicts another one exactly when it was itself replaced |
| `Relay.NextKeepsTable` | internal/relay/server.go:183-244 | Every step keeps: closed exactly when not in the table, and at most once |
| `Relay.NextKeepsLogs` | internal/relay/server.go:183-244 | Every step keeps order and stamps of what is queued |
| `RelayServer.Server.AddClient` | internal/relay/server.go:198-205 | The replaced queue is closed and only the new one is in the table |
| `RelayServer.Server.RemoveClient` | internal/relay/server.go:207-215 | Whatever connection holds the key leaves and is closed |
| `RelayServer.Server.Route` | internal/relay/server.go:183-196 | An uninterrupted route leaves the packet, stamped with its sender, as the last frame of its destination's queue if that had fewer than 64; otherwise it is dropped |
| `RelayServer.Server.BroadcastPresence` | internal/relay/server.go:225-244 | Everyone else in the table with fewer than 64 frames is told who came or went; no queue is closed |
| `Dns.ParseInvertsEncode` | internal/dns/resolver.go:265-313 | Parsing inverts encoding in any surrounding bytes for non-empty dot-free labels of up to 191 bytes, so all that RFC 1035 allows, without following a pointer; the root too |
| `Dns.ParseInvertsEncodeIff` | internal/dns/resolver.go:265-313 | For labels up to 255 bytes, exactly when none is longer than 191 |
| `Dns.PiecesParse` | internal/dns/resolver.go:265-298 | A name in pieces, each ending in a pointer to the next, parses over any number of pointers to the labels of all pieces joined in order, with a dot behind them if it ends in a pointer to the root |
| `Dns.PiecesParseIff` | internal/dns/resolver.go:265-298 | So to the labels joined in order exactly if it does not end in a pointer to the root behind a label |
| `Dns.QuestionRoundTrip` | internal/dns/resolver.go:250-263 | A question laid out as name, type and class parses to exactly that name and that type, in any surrounding bytes |
| `Dns.SplitInvertsJoin` | internal/dns/resolver.go:301-303 | Splitting a joined name gives its labels back |
| `Dns.ParsingEndsIff` | internal/dns/resolver.go:265-298 | Parsing ends at all if and only if it ends within as many pointers as the packet has bytes |
| `Dns.BackwardPointersEnd` | internal/dns/resolver.go:277-288 | It ends whenever each pointer targets an offset below the start of its segment |
| `Dns.SelfPointerNeverEnds` | internal/dns/resolver.go:277-288 | A pointer to the start of its own segment is followed forever |
| `Dns.AnswerNamesTheQuestion` | internal/dns/resolver.go:250-263 | For a pointer-free question the question name and the 0xC00C answer name of the response both parse to the name asked for |
| `Dns.ReadName` | internal/dns/resolver.go:265-298 | The loop with its one recursive call computes that parse |
| `Dns.WriteName` | internal/dns/resolver.go:301-313 | The loop computes that encoding, skipping empty labels |
| `Dns.BuildAnswer` | internal/dns/resolver.go:332-381 | Filling header and record by offset gives the response layout, for A and AAAA |
| `Dns.AnswerFields` | internal/dns/resolver.go:332-381 | What a client reads: its transaction id, an authoritative answer to one question, one record of that type and of class 1, for 60 seconds, with the address |
| `Stun.ResponseYieldsLastAddress` | internal/nat/stun.go:88-145 | On any well-formed padded attribute list the result is the last decodable XOR-MAPPED-ADDRESS, else the last decodable MAPPED-ADDRESS, else an error; magic cookie and trailing bytes make no difference |
| `Stun.FoundOnlyInResponse` | internal/nat/stun.go:88-145 | Whatever the bytes, an address is found only with type 0x0101, this transaction id and room for the stated length; each refusal says which of these fails, in order |
| `Stun.WalkReadsList` | internal/nat/stun.go:114-137 | From any point of such a list the walk takes up the remaining attributes |
| `Stun.XorMappedRoundTrip` | internal/nat/stun.go:174-213 | XOR decoding inverts the encoding of section 15.2 of RFC 5389 for IPv4 and IPv6 |
| `Stun.MappedRoundTrip` | internal/nat/stun.go:148-170 | Decoding inverts the encoding of section 15.1 of RFC 5389 |
| `Stun.EncodingsAreStandard` | internal/nat/stun.go:148-213 | The encodings that decoding inverts are those of RFC 5389: family 1 or 2, the port against 0x2112 and each address byte against cookie and transaction id, bit by bit |
| `Stun.ParseBindingResponse` | internal/nat/stun.go:88-145 | On any bytes the loop ends in bounds and computes the walk, with the four ways to refuse a response |
| `Stun.DecodeXorMapped` | internal/nat/stun.go:174-213 | The byte loops compute the XOR decoding |

## Left out

- Real cryptography: X25519, ChaCha20-Poly1305 and BLAKE2s are symbolic; low-order points, key zeroing and error
  texts are not modelled. Nonces and prologue are kept.
- Sockets, HTTP, TLS, JSON, file formats, TUN devices, netlink, firewall, CLI, logger, configuration, the web tree,
  NAT detection and hole punching: foreign calls or thin code. A save is a step that succeeds or fails.
- Clocks and random values are parameters. Session ids are assumed below 2^32 in number, as the invariant needs.
- Tunnel.InitiatorPacketsAreDelivered: the network of `Tunnel` carries only what the two engines sent; forged packets
  are the subject of `Attacker`, which has no tables or windows. Delivery of older counters after a slide of 1 to 2047
  is stated in terms of the window alone (`Tunnel.SealedPacketsOpenAtThePeer`). Session lifetime is not part of the
  two-engine model, which lets a session that was ever established go on sealing and opening, more than the code allows.
- NodeEngine.Engine.SendToPeer: choosing between the UDP endpoint and the relay, endpoint learning, peer states and
  metrics have no effect on the tables and are not modelled.
- NodeEngine.Engine.HandleData: the access list is a parameter, a test on the opened packet; what it parses out of the
  packet is not part of this model. In `Tunnel` and `Deliveries` a packet is delivered when its handler has advanced
  the window; the list may still drop it.
- Deliveries.DeliveredAtMostOnceIff: stated for sessions whose window only made whole slides; after a slide of 1 to
  2047 the window itself lets counters through again (`Replay.PartialSlideForgets`,
  `Repeats.OnePacketIsDeliveredTwice`).
- NodeEngine.Engine.HandleHandshakeInit: the handlers work on parsed messages; the byte layouts are in `Messages`.
- Sessions.Session.Rotate: never called by the engine, so runs are stated for sessions that are not rotated.
- Poll.NoLostWakeup: mutations out of order are in `Poll.NewsWakesIff`. A waiter blocks, so `WaitForUpdate` is modelled
  as steps and not as a method. The snapshot reads nodes, ACL and version under separate locks; that its parts match is
  not claimed.
- Stores.Store.UpdateNode: nodes are values in the array; that callers share node objects with the store is not
  captured.
- Api.Server.HandleRegister: the method runs alone; registrations side by side are in `Registrations`, over keys and
  nodes alone. Request decoding and hostname, key, route and signature checks come before it; a node's
  endpoint and traffic counters are not part of its model.
- RateLimit.AdmissionsAreLimited: floating-point rounding is not modelled. With rps of 0 or less the program installs
  no limiter.
- Hub.RegisteredClientsMissNothing: the greeting is the list of up to four messages that were encoded; what they
  contain, and a connection whose write pump has died, are not modelled.
- Mesh.ApplyIsIdempotent: stated for Apply with nothing between its calls; with collections or received packets in
  between a second Apply may add or revive peers.
- MeshRuns.ReconciledIff: further updates or expiries of that very peer after its update are excluded; in
  `UnseenEndExpired` a transition by a handshake that revives a peer outside the snapshot is not among the events
  considered. Base64, address, endpoint and route parsing enter as the parsed result.
- Managers.Manager.CollectExpired: state-change callbacks only log and are left out.
- Routing.Router.RoutePacket: addresses have 32 bits; IPv6 and mixed-family prefixes are not modelled. The table is read
  at one moment. Which of two equally long candidates the library sort puts first is left open.
- Relay.FramesArriveInOrder: connection limits, key verification and the write loop's errors are not modelled; a
  send on a closed queue ends the sending connection's read loop, as the server's panic recovery does.
- Dns.ParseInvertsEncodeIff: labels of 256 bytes and more, whose length byte is truncated, are not characterised.
- Dns.AnswerNamesTheQuestion: magic-name lookup, error and NXDOMAIN responses and forwarding are left out.
