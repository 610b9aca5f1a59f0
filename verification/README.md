# Sechat client: a verified model

Sechat is a two-party encrypted chat client. This project models the parts of it
that carry unbounded promises and proves those promises for every input, every
run and every interleaving:

- **Sessions** (`PeerFrame`, `Handshake`, `HighWater`, `SessionLoops`, `Protocol`).
  Connect attempts by any number of participants, each with a fresh ephemeral,
  over a network that loses, repeats, delays, reorders and misdelivers frames and
  moves signatures between them, across variants too.
  Main results: `Protocol.DeliveredWasSent`, `Protocol.StrangersNeverDeliver`,
  `Protocol.NoNonceReuse`, `Protocol.TextsCanArrive`, `Handshake.HandshakesMeet`,
  `HighWater.DeliversExactlyRecords`, `SessionLoops.SessionEndToEnd`.
- **Connecting** (`Retry`, `RetryHistory`, `Connect`). The retry ladder as a timed
  machine, the same told by its history, its driver over all peers, and the
  concurrent reservation of a peer. Main results:
  `Retry.AnnouncementsClimbTheLadder`, `Retry.ParksInTime`,
  `RetryHistory.TickExactly`, `RetryHistory.DriverLogIsPeersLog`,
  `Connect.ReservationIsExact`, `Connect.WhenRelayingIsReserved`,
  `Connect.EveryTracePrefixBalances`.
- **Stores** (`OrderedDb`, `ChatStore`, `Mailbox`, `BlobSignatures`, `OnlineCache`). A byte-keyed
  store that is a log, a mailbox drain that is a fold of valid payloads, a lazily
  pruned vector that is a map with a time to live. Main results:
  `ChatStore.StoreRefinesLog`, `Mailbox.DrainReplaysValidPayloads`,
  `Mailbox.OfflineMessageArrives`, `BlobSignatures.ReusedOfflineSignature`,
  `OnlineCache.WhenReadIsComplete`.
- **Aliases** (`Aliases`). The alias file's round trip, with the exact condition
  for it.

`Bytes`, `Crypto` and `Common` hold what these share.

## How the source is idealised

Primitives are symbolic, so nothing is assumed about them beyond the shape of a
datatype. A byte string is a sequence of atoms: plain octets where the layout is
the point (nonces, big- and little-endian numbers, envelopes, signed bytes), and
one atom for an AEAD box, a signature, a MessagePack document or a UTF-8 text.
X25519 agreement is the unordered pair of public keys (section 6.1 of RFC 7748),
HKDF a constructor over key and label (section 2.3 of RFC 5869), an AEAD box opens
only under its own key and nonce (section 2.8 of RFC 8439), SHA-256 and HMAC are
free of collisions. HKDF's 12-byte output is an arbitrary function passed as a
parameter. Clocks, random draws, transport successes and the order in which a hash
map yields its keys are parameters or non-deterministic choices.

Code that updates state is modelled by classes and loops proved against
specification functions; concurrent tasks are modelled as steps, one per lock taken,
used and released. The runtime is multi-threaded, so another task may come between
any two of them: between a task's look at the session map and its reservation it is
not suspended (`crates/client/src/lib.rs:1070-1075`), and being overtaken there, as in
`Connect.LiveCanBeReserved`, takes a second thread. The other two runs in `Connect`
need none.

Since signed bytes carry no variant tag, the network may hand over a sent signature
on a frame of any variant. Because a ciphertext is one atom here, its length is not
visible; in the code a counter with the ciphertext of an 8-byte text is as long as an
ephemeral, so the network may in addition present any sent chat as an `Init` whose
ephemeral nobody drew. Fresh means: unlike every ephemeral drawn or accepted so far.

Where the code and the documentation differ the code is followed: the relay path
runs an ephemeral handshake (`crates/p2p/src/lib.rs:288-341`), although
`README.md:227-231` of the repository still describes a static key.

Three promises one might expect do not hold, and the model says exactly when they do:

- A task can start connecting to a peer whose session is still running, because the
  session map is looked up before the reservation is taken and because entries are
  removed by peer id. `Connect.WhenRelayingIsReserved` gives the exact condition for
  any running session: it landed after the task's look, or its map entry was removed
  before the look by something other than its own end. `Connect.LiveCanBeReserved`,
  `Connect.EvictedSessionIsReserved` and `Connect.OlderEndEvictsNewer` give the runs;
  `Connect.WhenLiveIsReserved` is the condition for peers still in the map.
- An alias with a line feed does not survive being written and read, and what is left
  of it can damage a later write: `Aliases.RoundTripIffClean`, `Aliases.StepIsMeant` and
  `Aliases.FileTracksMap` give the exact conditions for one file, one operation and a
  whole run; `Aliases.LineFeedIsLost` and `Aliases.CarriageReturnIsLost` the inputs.
- A read of the online cache is complete exactly when no earlier read came too late for
  an announcement that is current now: `OnlineCache.WhenReadIsComplete`, with
  `OnlineCache.BackwardClockLosesPeers` as the input.

## Model

| member | source | states |
|---|---|---|
| `Bytes.LexTotal` | crates/p2p/src/lib.rs:157-159 | two different byte strings are ordered lexicographically one way and not the other |
| `Bytes.LexFirstDifference` | crates/p2p/src/lib.rs:157-159 | the first differing byte decides the order, and a proper prefix comes first |
| `Bytes.BE64Order` | crates/crypto/src/lib.rs:502-521 | big-endian u64 keys sort lexicographically exactly as numbers and read back as themselves |
| `Bytes.LE64Injective` | crates/p2p/src/lib.rs:75-80 | little-endian i64 bytes determine the number |
| `Bytes.LE64Weighs` | crates/p2p/src/lib.rs:75-80 | the eight bytes of an i64, the first weighing least, add up to its value modulo 2^64 |
| `Bytes.LittleEndianWeighs` | crates/crypto/src/lib.rs:329 | the eight bytes of a u64, the first weighing least, add up to it |
| `Bytes.XorIsBitwise` | crates/crypto/src/lib.rs:330-332 | each bit of the exclusive or is set exactly where the two bytes differ |
| `Crypto.ComputeNonce` | crates/crypto/src/lib.rs:327-334 | the in-place XOR loop over a copy of the base computes the message nonce |
| `Crypto.NonceLayout` | crates/crypto/src/lib.rs:327-334 | bytes 0 to 3 are the base's; over a zero base bytes 4 to 11 are the counter, least byte first; over any base they are those exclusive-or the base's |
| `Crypto.NonceUndo` | crates/crypto/src/lib.rs:327-334 | folding the counter in twice restores the base nonce |
| `Crypto.NonceInjective` | crates/crypto/src/lib.rs:316-334 | under any base nonce, two u64 counters give one nonce exactly when equal |
| `Crypto.ChatOpensExactly` | crates/crypto/src/lib.rs:316-353 | a chat ciphertext opens to its own text under its own key and counter, and under any other fails as a cryptographic error |
| `Crypto.StoredRoundTrip` | crates/crypto/src/lib.rs:535-559 | a stored message decodes to itself under its key and to nothing under another |
| `Crypto.StoredLayout` | crates/crypto/src/lib.rs:535-559 | a stored value is its 12-byte nonce and one box; only a value too short for a nonce is reported corrupted |
| `Crypto.BlobRoundTrip` | crates/crypto/src/lib.rs:560-599 | the 32+12-byte envelope opens with the recipient's secret and with no other |
| `Crypto.BlobLayout` | crates/crypto/src/lib.rs:560-599 | an envelope is the 32-byte ephemeral, the 12-byte nonce and one box; only a blob shorter than 44 is reported corrupted |
| `Crypto.PurposesDiffer` | crates/crypto/src/lib.rs:355-440 | session, storage, blob and presence keys never coincide, and within a purpose only the unordered pair of people counts |
| `Crypto.PresenceTokensAgree` | crates/crypto/src/lib.rs:369-389 | tokens of any parties at any times agree exactly for the same pair of people and the same truncated 15-second bucket |
| `Crypto.PresenceBuckets` | crates/crypto/src/lib.rs:369-389 | at non-negative times the two ends agree exactly when both times lie in one 15-second bucket, and what is authenticated is the bucket's start |
| `PeerFrame.SignedBytesInjective` | crates/p2p/src/lib.rs:59-88 | within one variant the signed bytes determine sender, timestamp and payload |
| `PeerFrame.SignedLayout` | crates/p2p/src/lib.rs:62-80 | the signed bytes: sender (32), little-endian timestamp (8), payload; a chat's payload is its little-endian counter (8) and its body |
| `PeerFrame.VerifyExactly` | crates/p2p/src/lib.rs:59-116 | a made message verifies against its maker's two keys and against no other identity |
| `PeerFrame.SignatureBindsBytes` | crates/p2p/src/lib.rs:62-116 | a verifying frame carrying an honest signature, of whatever variant, has that signer, timestamp and payload bytes |
| `PeerFrame.SignatureBindsFrame` | crates/p2p/src/lib.rs:89-116 | a verifying frame carrying an honest signature of its variant is the honest frame |
| `PeerFrame.ReframedPayload` | crates/p2p/src/lib.rs:59-88 | across variants, payload bytes that read as an Init or as a chat that could open were sent as just that |
| `PeerFrame.FreshWindow` | crates/p2p/src/lib.rs:362-364 | a frame is fresh exactly up to 120 seconds from the clock, on either side |
| `Handshake.RunHandshake` | crates/p2p/src/lib.rs:227-341 | our own Init has always been sent first, and the outcome is settled by the first decisive wake-up: the key agreed between our ephemeral and the accepted one, an error or a timeout |
| `Handshake.AcceptsExactly` | crates/p2p/src/lib.rs:254-276 | a made message is accepted exactly if it is an Init of the expected peer within 120 seconds, and yields its ephemeral |
| `Handshake.NoiseIsIgnored` | crates/p2p/src/lib.rs:254-341 | after any resends, frames that are no timely Init of the peer, and socket errors, the first timely Init, closed relay channel or deadline decides |
| `Handshake.HandshakesAgree` | crates/p2p/src/lib.rs:227-341 | two handshakes that accepted an Init return one key exactly when they are about the same unordered pair of ephemerals |
| `Handshake.HandshakesMeet` | crates/p2p/src/lib.rs:227-445 | two people whose handshakes first accept each other's Init hold one key, and splitting it gives both ends' session keys, crossed |
| `HighWater.DeliversExactlyRecords` | crates/p2p/src/lib.rs:381-426 | for every sequence of frames, what is delivered is exactly the running-maximum records up to the first authentic fresh End |
| `HighWater.DroppingRejected` | crates/p2p/src/lib.rs:381-426 | deleting a frame that neither delivers nor ends changes nothing |
| `HighWater.InOrderStreamDeliversAll` | crates/p2p/src/lib.rs:381-426 | an in-order loss-free stream with duplicates and junk delivers every text once, in order |
| `SessionLoops.ExactlyOneIsFirst` | crates/p2p/src/lib.rs:157-159 | of two different static keys exactly one side is first |
| `SessionLoops.KeysCross` | crates/p2p/src/lib.rs:439-445 | two sides that accepted each other's ephemerals hold crossed, distinct directional keys |
| `SessionLoops.LargerSendsA2b` | crates/p2p/src/lib.rs:439-445 | the side whose key is larger at the first difference sends under a2b and receives under b2a, the other the reverse |
| `SessionLoops.HandlingIsTaking` | crates/p2p/src/lib.rs:381-426 | testing the counter before decrypting equals filtering the frames that open |
| `SessionLoops.DroppingRejectedFrame` | crates/p2p/src/lib.rs:381-426 | deleting a frame the handler rejects, or that comes after the loop stopped, changes nothing |
| `SessionLoops.ReceiverLoop` | crates/p2p/src/lib.rs:454-483 | the receive loop emits exactly the records as messages, followed by exactly one Closed |
| `SessionLoops.SendTurn` | crates/p2p/src/lib.rs:490-512 | one turn of the send loop, and what its frame is at the far end read in time: the text under the counter reached, the end, or nothing |
| `SessionLoops.SenderLoop` | crates/p2p/src/lib.rs:486-513 | the send loop emits the frames of the folded turns and stops at the first failure or close |
| `SessionLoops.SessionEndToEnd` | crates/p2p/src/lib.rs:428-581 | whatever wakes the sender, over crossed keys and a faithful transport exactly the texts that left are delivered, and the receiver stops exactly if an End left |
| `SessionLoops.HealthySessionDeliversAll` | crates/p2p/src/lib.rs:428-581 | with nothing failing and closing last if at all, the events are every text handed in, in order, then Closed |
| `SessionLoops.LossFreeDeliversAll` | crates/p2p/src/lib.rs:381-426 | frames in order without loss, with repeats and anything that says nothing mixed in, deliver every text once |
| `Protocol.SendingIsTheLoop` | crates/p2p/src/lib.rs:486-513 | every sending step of the system, text, heartbeat or close, is a turn of the send loop |
| `Protocol.ReceivingIsTheLoop` | crates/p2p/src/lib.rs:470-481 | a receive step of the system is a turn of the receive loop |
| `Protocol.ReceiveInitIsTheHandshake` | crates/p2p/src/lib.rs:272-274 | a receiving step in a handshake takes the attempt up exactly when the handshake returns a key, with the directional keys split from that key |
| `Protocol.FallsBack` | crates/client/src/lib.rs:1087-1157 | a failed punch or direct handshake goes on to the relay, a failed relay handshake gives up, and a session is past all that |
| `Protocol.ArrivalWasSent` | crates/p2p/src/lib.rs:89-116 | an arrival read as an Init or as a chat that could open is the very frame an attempt of the peer sent, unless it is a chat passed off as an Init |
| `Protocol.StepKeeps` | crates/p2p/src/lib.rs:227-341 | every step of every participant and of the network keeps the protocol invariant |
| `Protocol.SendMeetsReceive` | crates/p2p/src/lib.rs:439-445 | one session's sending key is another's receiving key exactly when each accepted the other's ephemeral |
| `Protocol.SendKeysDiffer` | crates/p2p/src/lib.rs:439-445 | no two sessions ever send under one key |
| `Protocol.OneSessionPerEphemeral` | crates/client/src/lib.rs:1087-1168 | over every run, an attempt that is up keeps its ephemeral pair for good and its counter and texts only grow |
| `Protocol.DeliveredWasSent` | crates/p2p/src/lib.rs:381-426 | over every run, delivered texts are a strictly counter-increasing subsequence of what the one mutually accepted session of the peer sent |
| `Protocol.StrangersNeverDeliver` | crates/p2p/src/lib.rs:381-426 | over every run, nothing signed by an earlier or unrelated attempt ever delivers, whatever variant it is read as |
| `Protocol.NoNonceReuse` | crates/p2p/src/lib.rs:486-500 | over every run, no message key and nonce are used for two encryptions, across all sessions and directions |
| `Protocol.EveryCiphertextIsLogged` | crates/crypto/src/lib.rs:316-325 | over every run, every ciphertext that reached the network was sealed under a key and nonce counted by the theorem above |
| `Protocol.PartnersReadEachOther` | crates/p2p/src/lib.rs:439-445 | over every run, every text of a mutually accepted session opens at the other end under its own number |
| `Protocol.TextsCanArrive` | crates/p2p/src/lib.rs:227-581 | for any two people, ephemerals, routes through punch, direct and relay handshake, and texts, some run makes the two attempts mutual and delivers exactly those texts, numbered from 1 |
| `Protocol.SessionCanEnd` | crates/p2p/src/lib.rs:501-512 | from there, closing the first end stops the second, which keeps what it delivered |
| `Protocol.LostIsFinal` | crates/p2p/src/lib.rs:454-483 | over every run, a session that lost its transport never delivers again |
| `Retry.AnnouncementsClimbTheLadder` | crates/client/src/lib.rs:377-412 | under any mix of inputs, announcements since the last arming are a prefix of Retrying(1..5), GaveUp, as long as the attempt count |
| `Retry.GiveUpNeedsFivePunches` | crates/client/src/lib.rs:386-410 | giving up takes five punches that left the client |
| `Retry.FailedSendsAreSilent` | crates/client/src/lib.rs:397-404 | failed sends alone never announce anything nor burn an attempt |
| `Retry.ReachableLadder` | crates/client/src/lib.rs:258-317 | attempts at most 6, backoff one of 1, 2, 4, 8, 16, 30 and at least the ladder's, exactly 30 at give-up and when parked |
| `Retry.FourTriesTakeFifteenSeconds` | crates/client/src/lib.rs:291-317 | four tries apart within one arming is at least 15 seconds apart |
| `Retry.FifthPunchTakesFifteenSeconds` | crates/client/src/lib.rs:386-404 | whatever fails in between, the fifth punch that left the client comes at least 15 seconds after the first |
| `Retry.ForgottenIsSilent` | crates/client/src/lib.rs:875-905 | a purged or removed peer announces nothing until connected again |
| `Retry.ParksInTime` | crates/client/src/lib.rs:291-312 | however armed, an intent online, unconnected and with sends succeeding, ticked at most G apart and announced online at any times, is parked within 15 s + 6G |
| `Retry.PeersAreIndependent` | crates/client/src/lib.rs:364-414 | over every run of the driver each peer behaves as the single-peer machine on its own inputs |
| `Retry.Driver.DriveRetries` | crates/client/src/lib.rs:364-414 | one pass in any map order is a move of the driver: the per-peer step for each peer; it punches no live or in-flight peer |
| `Retry.Driver.HandleInput` | crates/client/src/lib.rs:781-796 | connect, removal and presence events are moves of the driver that touch one peer's intent |
| `RetryHistory.PresenceIsKept` | crates/client/src/lib.rs:781-796 | an intent exists and is online exactly as its connects, removals and presence events say |
| `RetryHistory.AnnouncementsAreThePunches` | crates/client/src/lib.rs:386-410 | announcements are exactly the punches that left, numbered, each with the delay then in force, and giving up after five |
| `RetryHistory.ArmingIsExact` | crates/client/src/lib.rs:258-275 | a connect, a session seen after some try and a return after giving up leave a fresh intent due at once; no other input takes anything back |
| `RetryHistory.TickExactly` | crates/client/src/lib.rs:291-412 | what a tick does, in terms of presence, session, tries made, announcements made and time since the last try or arming |
| `RetryHistory.SessionRestartsLadder` | crates/client/src/lib.rs:380-384 | however far it had climbed, a tick that finds a session puts the ladder back to the start |
| `RetryHistory.ReturnRestartsLadder` | crates/client/src/lib.rs:781-789 | coming online after giving up puts the ladder back to the start, and before that only sets the flag |
| `RetryHistory.AnnouncementsRestart` | crates/client/src/lib.rs:380-412 | after a session was seen, whatever was announced before, the following announcements are a prefix of Retrying(1..5), GaveUp |
| `RetryHistory.WholeLadderAgain` | crates/client/src/lib.rs:380-412 | and with the peer online, unconnected and sends succeeding all six come within 15 s + 6G |
| `RetryHistory.DriverLogIsPeersLog` | crates/client/src/lib.rs:364-414 | over every run of the driver, in any map order, what it announced of a peer is exactly that peer's own log |
| `Connect.ReservationIsExact` | crates/client/src/lib.rs:1064-1086 | over every interleaving the reservation set is exactly the peers with a task between reserve and release, one task each |
| `Connect.OnlyTheHolderReleases` | crates/client/src/lib.rs:605-615 | a reservation is cleared by its holder dropping its guard and by nothing else |
| `Connect.AllReturnedMeansFree` | crates/client/src/lib.rs:1083-1157 | every exit path frees the peer |
| `Connect.SessionsBalance` | crates/client/src/lib.rs:1182-1203 | per peer, sessions up minus sessions down is the number of live forwarder tasks |
| `Connect.EveryTracePrefixBalances` | crates/client/src/lib.rs:1182-1203 | the same on every prefix of the application trace |
| `Connect.MapIsHistory` | crates/client/src/lib.rs:1175-1201 | over every interleaving a peer is in the session map exactly if some landing of it was followed by no removal |
| `Connect.MapEntriesAreReal` | crates/client/src/lib.rs:1175-1203 | over every interleaving an entry in the map stands for a running session or one about to be announced |
| `Connect.WhenRelayingIsReserved` | crates/client/src/lib.rs:1069-1082 | a task starts connecting over a running session exactly when the peer is unreserved and that session landed after the look, or its entry was removed before it by something else than its own end |
| `Connect.WhenLiveIsReserved` | crates/client/src/lib.rs:1069-1082 | a task reserves a peer in the map exactly when every landing before its look was undone by then, one after it was not, and the peer is unreserved again |
| `Connect.AbsentWhileWorking` | crates/client/src/lib.rs:1073-1181 | a peer reserved while absent from the map stays absent for as long as the attempt runs |
| `Connect.RelaysPredateAttempt` | crates/client/src/lib.rs:1073-1203 | any session running during an attempt was already running when the attempt reserved its peer |
| `Connect.LiveCanBeReserved` | crates/client/src/lib.rs:1069-1082 | a run in which a task is overtaken and reserves a peer with a session in the map |
| `Connect.EvictedSessionIsReserved` | crates/client/src/lib.rs:875-949 | a run in which a purge, removal or failed send unlists a running session and the next task reserves over it |
| `Connect.OlderEndEvictsNewer` | crates/client/src/lib.rs:1201-1202 | a run in which the end of an older session unlists a newer one, which is then reserved over |
| `Connect.SessionLife` | crates/client/src/lib.rs:1064-1203 | a session's life: up once, each message reported, down once, nothing left behind |
| `Connect.FailedLife` | crates/client/src/lib.rs:1073-1157 | a failed attempt, or a broken reservation lock, leaves no trace |
| `OrderedDb.InsertKeepsSorted` | crates/crypto/src/lib.rs:515-534 | an insert keeps the database in strict byte order wherever the key falls |
| `OrderedDb.InsertHolds` | crates/crypto/src/lib.rs:515-534 | an insert changes what is under its own key and nothing else |
| `OrderedDb.RemoveHolds` | crates/crypto/src/lib.rs:494-496 | a removal takes away what is under its key and nothing else |
| `OrderedDb.RemovingUnreadable` | crates/crypto/src/lib.rs:494-496 | removing the unreadable keys one by one leaves exactly the readable entries |
| `ChatStore.InsertIsAppend` | crates/crypto/src/lib.rs:502-534 | a numbered store's insert appends under last key plus one, 0 when empty, and never collides |
| `ChatStore.WhenInsertFails` | crates/crypto/src/lib.rs:502-534 | on any store an insert fails exactly when the last key is not eight bytes or is the largest |
| `ChatStore.StoreRefinesLog` | crates/crypto/src/lib.rs:468-534 | after any inserts, loads and purges the history is what the append-only log since the last purge reads as, and nothing failed |
| `ChatStore.InsertedMessageIsRead` | crates/crypto/src/lib.rs:515-522 | each inserted message extends the history by exactly itself |
| `ChatStore.ChatDb.InsertMessageStored` | crates/crypto/src/lib.rs:515-522 | the store object moves as the specification, unchanged on error |
| `ChatStore.ChatDb.LoadMessages` | crates/crypto/src/lib.rs:468-501 | a load returns the history and leaves exactly the readable entries |
| `ChatStore.ChatDb.PurgeChat` | crates/crypto/src/lib.rs:601-608 | a purge empties the conversation |
| `Mailbox.HandledAsMeant` | crates/serverclient/src/handlers.rs:20-112 | handling succeeds exactly for blobs that open, are in time, signed by a known sender and readable, and reports a stored message exactly then |
| `Mailbox.BlobMovesConversations` | crates/serverclient/src/handlers.rs:20-98 | a blob changes only its sender's conversation, by exactly its message, or to nothing for a purge |
| `Mailbox.OfflineRoundTrip` | crates/serverclient/src/generators.rs:74-105 | exactly within thirty days, a generated message means: append this text, author Peer, dated by the sender; else nothing |
| `Mailbox.PurgeRoundTrip` | crates/serverclient/src/generators.rs:54-73 | exactly within thirty days, a generated purge means: empty the sender's conversation; else nothing |
| `Mailbox.OfflineMessageArrives` | crates/serverclient/src/generators.rs:43-105 | generated, opened and handled, the text is appended to the sender's conversation and nothing else changes |
| `Mailbox.DrainReplaysValidPayloads` | crates/serverclient/src/handlers.rs:278-300 | for every sequence of blobs, good or bad, each conversation is the fold of its sender's valid payloads |
| `Mailbox.AcksInOrder` | crates/serverclient/src/handlers.rs:278-300 | while acknowledgements go out, connecting or running, one per blob, in order |
| `Mailbox.AtMostOneUnacked` | crates/serverclient/src/handlers.rs:278-300 | at every moment, connecting or running, at most one handled blob is unacknowledged |
| `Mailbox.ServedApart` | crates/serverclient/src/handlers.rs:120-140 | folding messages one by one gives the drained disk, the ordered steps and the reports of stored messages |
| `Mailbox.ReportsAreAppends` | crates/serverclient/src/handlers.rs:70-74 | a stored message is reported for exactly the valid messages, in order |
| `Mailbox.AnswersAreExact` | crates/serverclient/src/handlers.rs:173-190 | the running loop accepts exactly known peers' hole-punch requests and refuses exactly the others', in order; connecting answers none |
| `Mailbox.Inbox.HandleMessage` | crates/serverclient/src/handlers.rs:115-189 | a blob is processed and acknowledged whatever the outcome, a hole-punch request answered by whether the peer is known, and the loop goes on unless a response cannot be queued |
| `Mailbox.Inbox.Drain` | crates/serverclient/src/handlers.rs:278-300 | the connect-time drain is the fold up to its first decisive message, and ends well at the end marker and nowhere else, each other way with its own error |
| `Mailbox.Inbox.Dispatch` | crates/serverclient/src/lib.rs:191-209 | the dispatch loop is the same fold with hole-punch answers, ended only by the first response that cannot be queued |
| `BlobSignatures.BlobSignedLayout` | crates/serverclient/src/generators.rs:54-92 | the bytes under an offline signature are tag, ciphertext, timestamp; under a purge's tag, timestamp |
| `BlobSignatures.OfflinePayloadHolds` | crates/serverclient/src/generators.rs:74-105 | a generated payload holds its sender's hash, its date and, for whoever shares the storage key, the text as the sender's own |
| `BlobSignatures.OfflineSignatureBinds` | crates/serverclient/src/handlers.rs:35-49 | an offline signature passes only with its signer, ciphertext and timestamp, and never on a purge |
| `BlobSignatures.PurgeSignatureBinds` | crates/serverclient/src/handlers.rs:77-92 | a purge signature passes only with its signer and timestamp, and never on a message |
| `BlobSignatures.ReusedOfflineSignature` | crates/serverclient/src/handlers.rs:26-63 | any blob built around an offline signature does exactly what that message does, or nothing: re-dated, refilled or misattributed it has no effect |
| `BlobSignatures.ReusedPurgeSignature` | crates/serverclient/src/handlers.rs:75-95 | any blob built around a purge signature empties a conversation with its signer, dated as it was, or does nothing |
| `BlobSignatures.EffectIsThePayloads` | crates/serverclient/src/handlers.rs:60-63 | whatever a blob does is filed, dated and attributed by its own payload |
| `BlobSignatures.WhyRefused` | crates/serverclient/src/handlers.rs:20-112 | each refusal exactly when everything tested before it was in order |
| `OnlineCache.VectorHoldsKept` | crates/serverclient/src/lib.rs:57-94 | under any clock and a directory that may change between announcements, the vector has one entry per hash and holds exactly the latest announcements no read has dropped |
| `OnlineCache.WhenReadIsComplete` | crates/serverclient/src/lib.rs:57-64 | a read returns the standing announcements of the last 35 seconds exactly when no earlier read came more than 35 seconds after one of them |
| `OnlineCache.ReadReturnsRecent` | crates/serverclient/src/lib.rs:57-94 | when no earlier read ran ahead of the clock, a read returns exactly those |
| `OnlineCache.ReadHoldsExactly` | crates/serverclient/src/lib.rs:57-94 | such a read holds exactly the standing announcements at most 35 seconds old |
| `OnlineCache.BackwardClockLosesPeers` | crates/serverclient/src/lib.rs:57-64 | a run with a clock set back in which a read is incomplete |
| `OnlineCache.Cache.LoadOnlinePeers` | crates/serverclient/src/lib.rs:57-64 | a read prunes by age and returns what is left |
| `OnlineCache.Cache.AppendOnlinePeer` | crates/serverclient/src/lib.rs:66-86 | a known peer is updated in place or pushed; an unknown one is refused |
| `OnlineCache.Cache.RemoveOnlinePeer` | crates/serverclient/src/lib.rs:88-94 | all entries of the hash go |
| `Aliases.HexRoundTrip` | crates/client/src/lib.rs:105-126 | hexadecimal ids decode to themselves |
| `Aliases.HexDecodesExactly` | crates/client/src/lib.rs:105-126 | a string decodes to bytes exactly when it is their encoding in either case |
| `Aliases.ParsesExactly` | crates/client/src/lib.rs:104-111 | a line names an id exactly when it is a 32-byte hexadecimal id, a tab and the name |
| `Aliases.LastLine` | crates/client/src/lib.rs:103-104 | text after the last line feed is a line of its own, carriage return and all |
| `Aliases.TrimExactly` | crates/client/src/lib.rs:117-120 | trimming takes the white space off both ends and nothing else |
| `Aliases.RoundTripIffClean` | crates/client/src/lib.rs:100-133 | printing in any order then loading gives the map back exactly when no name has a line feed or ends in a carriage return |
| `Aliases.StepIsMeant` | crates/client/src/lib.rs:116-154 | from any file, an operation that writes does what it means exactly when it writes no line feed and no other name ends in a carriage return; one that does not write always does |
| `Aliases.CleanStepIsMeant` | crates/client/src/lib.rs:116-154 | on a file of clean names only a line feed in the new name goes wrong, and cleanness is kept |
| `Aliases.RemovedIsGone` | crates/client/src/lib.rs:140-154 | from any file, a removed id is gone afterwards and no other is |
| `Aliases.NameIsGiven` | crates/client/src/lib.rs:116-133 | from any file, an accepted name without a line feed is what its id has afterwards, trimmed, and no id is lost; a refused one changes nothing |
| `Aliases.LineFeedCutsName` | crates/client/src/lib.rs:116-133 | what loads after setting a name broken by a line feed: the part before it, less one carriage return |
| `Aliases.LineFeedIsLost` | crates/client/src/lib.rs:116-133 | a concrete accepted name that loads cut short |
| `Aliases.CarriageReturnIsLost` | crates/client/src/lib.rs:116-133 | a concrete run in which setting another name, without a line feed, changes an earlier one |
| `Aliases.FileTracksMap` | crates/client/src/lib.rs:100-154 | any sequence of sets and removes loads throughout as the same updates on an abstract map exactly when no accepted name holds a line feed |
| `Aliases.AliasFile.LoadAliases` | crates/client/src/lib.rs:100-114 | the parse loop computes the loaded map |
| `Aliases.AliasFile.SetAlias` | crates/client/src/lib.rs:116-133 | a name of 1 to 32 characters after trimming is written with the rest in some order, any other refused |
| `Aliases.AliasFile.RemoveAlias` | crates/client/src/lib.rs:140-154 | an absent id leaves the file alone, a present one rewrites it without it |

## Left out

- The graphical and terminal front ends, keyfiles, directories, permissions, zeroisation, environment variables and signals: input, output and platform effects.
- WebSocket, UDP and TLS plumbing, STUN discovery and hole punching; the direct receive loop's filter on the source address is part of what the network may drop.
- The inside of X25519, Ed25519, HKDF, HMAC, Argon2, ChaCha20-Poly1305, MessagePack and sled; I/O failures of the store and of the alias file.
- `SyncRequest` and `SyncResponse` handling, `relay_session_key`, `resolve_query`, `default_stun_addr`, `fingerprint` and error display: placeholders or members that would be easy.
- Liveness of handshakes and delivery, and end-to-end establishment of a relay session: the code gives no such guarantee.
- A session's event listener disappearing while the receive loop runs: the forwarder holds it until it has read Closed.
- 64-bit overflow: a sender stops when its i64 counter is exhausted, a store insert fails when the last key is the largest u64, and age comparisons use unbounded integers.
- Error events of a failed punch request, what the dispatch loop passes on to the application for messages other than blobs and hole-punch requests, and the presence refresh loop.
- Peers added to or removed from the directory while blobs are being drained: the mailbox is folded over one directory.
- The concurrent tasks of `Connect` are steps over values, not classes: what is not captured is memory ordering below the locks the source takes.
- Mailbox lemmas with `Room`: they ask that the stores' 64-bit counters can number the blobs being drained; storage is at least once, so a redelivered blob is stored again.
