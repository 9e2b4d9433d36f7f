# Verified model of Konvo's end-to-end messaging core

This project models, in Dafny, the parts of Konvo that carry a private message from one device to
another: the X3DH bootstrap and the Double Ratchet of the `crypto` package, the client outbox, the
WebSocket gateway and the recipient's inbox. It also models four smaller state machines with bounds
over whole runs: the token bucket, refresh-token rotation, log redaction and the broadcast routes.
`dafny verify dfyconfig.toml` checks everything.

## The modules

The ratchet, from symbols to conversations:

- `Symbols` gives the symbolic cryptography: every 32-byte string is a term, X25519 is an unordered
  pair of key ids, the KDFs are one-way constructors, AES-GCM opens exactly what was sealed.
- `Ratchet` says what one call of `ratchet.ts` does to a session, on values. `SkippedStore` follows
  the bounded store over any sequence of calls, for any inputs at all.
- `Buffers`, `RatchetBuffers` and `RatchetCalls` are the same code on the heap: sessions are records
  of byte arrays, calls work on clones, walk chains in loops, evict and scrub. Each method is proved
  against `Ratchet`; no public one may write a buffer that existed before the call, and none leaves a
  consumed chain key in any buffer it made.
- `History` and `Conversation` put two sessions on a network that keeps every packet and may
  deliver it in any order, any number of times or never; `Conversation.Decide` computes the
  complete outcome of delivering any honest packet in any reachable state.
- `SingleUse` follows one message key through one session over any calls on any inputs: a ciphertext
  that has opened never opens again.
- `InStep`, `Ledger`, `Recovery` and `Secrecy` are the consequences over whole runs: which runs keep
  the roots in step, which packets give their text back, what a loss costs and what heals it, and
  exactly which message keys a captured session can compute. `EveryRun` has what survives even the
  packets that put the roots out of step: no text twice, and forward secrecy. `Parting` has what
  such a packet costs for good.
- `X3dh` and `SessionBuffers` do the same for the bootstrap, on values and on the heap, and
  `X3dh.EndToEnd` joins it to all of the above.

Delivery:

- `Outbox` is the client's bounded store with its two sweeps.
- `Delivery` interleaves the outbox, the gateway's handlers and the table, with crashes, disconnects,
  failed queries and failed publishes between any two awaits. `Gateway` is the handler as one method,
  proved to be one sequence of those steps. `Announcement` says when a row is published at all.
  `Handshake` is the HELLO exchange of one connection.
- `Replay` is the outbox coordinator and `Inbox` the recipient's connection. Both are classes with a
  method for each stretch of code between two awaits, so their class invariants hold in every
  reachable state. `Journey` joins `Delivery` to `Inbox`, from the sender's outbox to the
  recipient's socket.

The rest: `TokenBucket`, `RefreshTokens`, `Redaction` and `Broadcast`, one source file each.

## What is assumed

Cryptography is ideal: distinct inputs of a KDF give distinct outputs, only the holder of a private
key computes its shared secrets, a ciphertext opens only under the key, IV and additional data it was
sealed with. Every 32-byte buffer holds the bytes of one term. Randomness is a parameter: the `seed`
of a fresh key pair is one that no earlier key used. A run's packets are honest, except in `Ratchet`,
`SkippedStore`, `SingleUse`, `RatchetBuffers`, `RatchetCalls` and `EveryRun.RetiredForGood`, which hold
for any header and ciphertext.
A database transaction is one step; so is a stretch of JavaScript between two awaits.

## Where the code and its comments differ

The model follows the code. Each point names the input that shows it and the exact condition.

- `ratchet.ts:36-37` and `ratchet.ts:260-262` say later messages of a chain still decrypt after
  `message_lost`. The receiving chain key is then null, so every later message of that chain without
  a stored key is a `duplicate`, however many calls later (`Recovery.LossEndsChain`; from the start of
  a conversation, `Recovery.NextOnChainRefused`). The next ratchet key heals the session
  (`Recovery.NextKeyHeals`).
- `ratchet.ts:17-22` says a one-byte change to a header gives `invalid_message` and no advance. With
  the high byte of the message number changed the call reports a loss and takes a ratchet step
  (`Recovery.FlippedByteRatchets`). A call without a plaintext moves the session exactly when the
  header is over the cap (`Ratchet.MovesWithoutText`).
- `ratchet.ts:23-26` says decrypting a consumed envelope again gives `duplicate` and no advance. It does
  exactly while its chain is the current one; later it is an `invalid_message`, or over the caps a
  loss that moves the session (`Ledger.ConsumedReplay`; a run from the start with both,
  `Recovery.ConsumedReplayed`).
- `ratchet.ts:1095-1100` says a replay from an evicted old chain is an `invalid_message`. If its number
  is over the cap it is reported lost before any tag is checked, the session keeps the ratchet step,
  and the two parties' roots part (`Recovery.ReplayDesynchronizes`, a run from the start). Among honest
  packets this one, with the gap check passed and no stored key, is the only one that does so
  (`InStep.RunInStep`), and nothing heals it (`Parting.FirstHarmIsFinal`).
- `redis-fanout.ts:201-206` says a failed replay query is rethrown; the code returns an empty set, as
  the model does exactly when the query fails (`Inbox.InboxConnection.OnSelected`).
- `redis-fanout.ts:287-289` says the dedup set rejects the second copy of a racing envelope; a copy
  handled before the set is seeded goes out twice (`Inbox.RaceForwardsTwice`), exactly when it is also
  listed and its own query found the row (`Inbox.TwiceExactly`).
- `ws/outbox.ts:178-180` promises that a trigger during a pass is followed by another; not if the pass
  dies on `listInOrder` with the trigger remembered (`Replay.ForgottenTrigger`), and only then
  (`Replay.TriggersAnswered`).
- `ws/outbox.ts:22-24` has rows evicted by age alone, and `repositories/outbox.ts:15-17` has none ever
  older than seven days. A full store drops a row of no age at all (`Outbox.FullStoreDrops`), and a
  row enqueued again under its own nonce waits on past its time (`Delivery.OldRowWaits`). What goes,
  and why: `Outbox.SweptExactly`, `Outbox.DropReason`.
- `gateway.ts:820-823` promises exactly one publish across all retries. There is at most one
  (`Delivery.SentOnce`), and one exactly if the handler that inserted the row gets it through
  (`Announcement.AnnouncedExactly`); a handler cut off before it leaves a row that no retry
  announces (`Announcement.LostAnnouncement`). The recipient's next attach lists it
  (`Journey.EnvelopeArrives`).
- `logger.ts:149-150` says the seen set holds the current path. It is never unwound, so an object
  that is merely shared also comes out as `[Circular]` (`Redaction.SharedReadsCircular`): the marker is
  written exactly when some object is reached twice (`Redaction.MarksExactly`).
- `gateway.ts:1484` calls a second HELLO a protocol violation; two that overlap are both accepted
  (`Handshake.OverlappingHellos`, `Handshake.OneHandshake`).
- `rate-limit.ts:71-76` says a clock that jumps back gives no extra burst. The refill anchor jumps back
  with it, so the time gained again is refilled again (`TokenBucket.BackwardClockRefills`); the refill
  is for the elapsed time exactly if the clock never goes back (`TokenBucket.ClimbIsElapsed`).
- Cursor pagination compares microseconds with a cursor of milliseconds, so posts sharing a
  millisecond with the end of a page can be skipped: exactly when, `Broadcast.CrawlComplete`; three
  posts read two to a page, `Broadcast.CrawlSkips`.

## Model

| member | source | states |
|---|---|---|
| Symbols.AgreeExactly | packages/crypto/src/session.ts:233-235 | two key pairs agree on a secret and on nobody else's, whichever side computes it |
| Symbols.ChainInjective | packages/crypto/src/ratchet.ts:385-393 | chains that start from root KDF outputs never meet: a chain key determines its root step and its position |
| Ratchet.CounterInjective | packages/crypto/src/ratchet.ts:444-456 | the four bytes of a header counter determine it |
| Ratchet.HeaderInjective | packages/crypto/src/ratchet.ts:444-456 | the 40 bytes bound into the AAD determine every header field, for all headers a receiver accepts |
| Ratchet.HeaderLayout | packages/crypto/src/ratchet.ts:444-456 | the 40 bytes one by one: the key at 0, the chain length at 32, the number at 36, high byte first, modulo 2^32 |
| Ratchet.SameChainExactly | packages/crypto/src/ratchet.ts:980-1007 | on the current chain: a duplicate exactly behind the session or on a dead chain, and then nothing moves; a loss exactly more than a thousand ahead, with the number of skipped keys and the state it leaves |
| Ratchet.NewChainExactly | packages/crypto/src/ratchet.ts:1102-1201 | on a new chain: a loss exactly if more than a thousand keys are left on the old one or the message is past the thousandth, and the state of each: without a ratchet step, or ratcheted and without a receiving chain |
| Ratchet.StoreStep | packages/crypto/src/ratchet.ts:878-961 | for any state, header and ciphertext a call leaves the store, takes out the one entry it hit, or appends with oldest-first eviction, even when it walks two chains |
| Ratchet.MovesWithoutText | packages/crypto/src/ratchet.ts:17-26 | for any state, header and ciphertext: a loss is reported exactly for a header over the cap, a duplicate exactly behind the session or on a dead chain, a throw exactly out of range; with no plaintext the session moves exactly when the header is over the cap |
| Ratchet.TamperRejected | packages/crypto/src/ratchet.ts:865-877 | what was sealed under one header gives its text under no other, and bytes never sealed give none |
| SkippedStore.StoreIsTail | packages/crypto/src/ratchet.ts:1260-1275 | over any sequence of calls on any inputs the store is within 1000 entries and equals the tail of its append history, oldest dropped first, less the entries consumed |
| SkippedStore.CallTracks | packages/crypto/src/ratchet.ts:1110-1140 | one call keeps that account, including when it appends from the old chain and the new one |
| Buffers.BytesEqual | packages/crypto/src/ratchet.ts:329-339 | true exactly for buffers of the same bytes |
| Buffers.HoldSame | packages/crypto/src/ratchet.ts:329-339 | two key buffers compare equal exactly when they hold one key |
| RatchetBuffers.Clone | packages/crypto/src/ratchet.ts:293-313 | the clone holds the same session in buffers that are all new and pairwise apart |
| RatchetBuffers.SerializeHeaderBuffer | packages/crypto/src/ratchet.ts:444-456 | the bytes laid out by the loops are the header's 40 bytes, big-endian and truncated to 32 bits |
| RatchetBuffers.TryOpen | packages/crypto/src/ratchet.ts:925-938 | trial decryption under one message key gives what the ideal AEAD gives, and every buffer it made is scrubbed |
| RatchetBuffers.Evict | packages/crypto/src/ratchet.ts:1266-1269 | the shift loop leaves the newest 999 entries intact and scrubs the key of every entry it drops, of no other |
| RatchetBuffers.AppendSkipped | packages/crypto/src/ratchet.ts:1260-1275 | the store then holds the old entries and the new one, last 1000, in new buffers |
| RatchetBuffers.WalkedEntries | packages/crypto/src/ratchet.ts:1037-1049 | appending the keys of a walk one at a time, evicting as it goes, equals appending them all and keeping the newest 1000 |
| RatchetBuffers.Walk | packages/crypto/src/ratchet.ts:1037-1049 | the skip loop stores exactly the keys of its positions and ends at the chain key that many steps on, the only new buffer that holds any chain key; the one it started from is scrubbed |
| RatchetBuffers.WalkAndOpen | packages/crypto/src/ratchet.ts:1050-1064 | after the walk the message is tried under the key of its own position; of all chain keys only the next one is left, and not even that if the message does not open |
| RatchetBuffers.StepAndOpen | packages/crypto/src/ratchet.ts:1050-1074 | one step and a trial decryption: of all the buffers it makes only the next chain key is not scrubbed, and that one only if the message opens |
| RatchetCalls.StoreWithout | packages/crypto/src/ratchet.ts:943-948 | splicing one entry out leaves the others intact and out of reach of the scrubbed key |
| RatchetCalls.FindSkipped | packages/crypto/src/ratchet.ts:920-924 | the byte-wise search finds the first entry for the header's key and number, or none |
| RatchetCalls.OpenStored | packages/crypto/src/ratchet.ts:925-949 | a stored key is used up if the message opens, on a session of new buffers; if not the very input comes back |
| RatchetCalls.AdvancePastLossThreshold | packages/crypto/src/ratchet.ts:1288-1314 | the loss notice carries the gap; the returned session has no receiving chain and shares no buffer with the input |
| RatchetCalls.Advance | packages/crypto/src/ratchet.ts:1034-1080 | the walk and trial decryption on a candidate: committed if the message opens; otherwise its stored keys are scrubbed and no chain key of the walk is left |
| RatchetCalls.DecryptAdvanceChain | packages/crypto/src/ratchet.ts:1025-1081 | the same-chain walk does what the specification says; a failed tag gives back the very input, any success a session of new buffers only |
| RatchetCalls.SkipOld | packages/crypto/src/ratchet.ts:1110-1140 | what is left of the old chain is stored, no chain key of it is left, and nothing else of the candidate is disturbed |
| RatchetCalls.RootStep | packages/crypto/src/ratchet.ts:576-588 | a shared secret mixed into a root: of all the buffers it makes only the new root and the new chain key are not scrubbed |
| RatchetCalls.DhStep | packages/crypto/src/ratchet.ts:1142-1178 | both halves of the DH ratchet: root, keys, chains and counters of the ratcheted session, all in new buffers; the root, private key and chain key they replace are scrubbed |
| RatchetCalls.FinishNew | packages/crypto/src/ratchet.ts:1180-1244 | the over-cap report, the walk and the trial decryption on the new chain agree with the specification; a candidate whose message does not open is scrubbed |
| RatchetCalls.DecryptNew | packages/crypto/src/ratchet.ts:1102-1245 | a new chain's outcome agrees with the specification; a failed tag gives back the very input |
| RatchetCalls.DecryptFromDevice | packages/crypto/src/ratchet.ts:878-961 | for every session, header and ciphertext the result and returned session are the specification's; failures return the input itself, everything else only new buffers; no earlier buffer is written; and, the session's other fields holding no chain key (`RatchetCalls.StaysPlain`), every chain key in any buffer the call made is one that the returned session still lives on, so no consumed chain key outlives the call |
| RatchetCalls.EncryptToDevice | packages/crypto/src/ratchet.ts:758-814 | throws exactly without a sending chain; otherwise the envelope is the chain's next one, the returned session shares no buffer with the input, and the consumed chain key is in no buffer the call made |
| RatchetCalls.InitSenderRatchet | packages/crypto/src/ratchet.ts:641-676 | throws exactly on a buffer of the wrong length; otherwise a sender's session in new buffers |
| RatchetCalls.InitReceiverRatchet | packages/crypto/src/ratchet.ts:698-728 | throws exactly on a buffer of the wrong length; otherwise a receiver's session in new buffers |
| RatchetCalls.StartsPlain | packages/crypto/src/ratchet.ts:641-728 | a new session holds chain keys in its fields for chain keys and nowhere else |
| RatchetCalls.StaysPlain | packages/crypto/src/ratchet.ts:758-961 | and so does every session after any calls, so that the promise about consumed chain keys applies to all of them |
| History.KeysDiffer | packages/crypto/src/ratchet.ts:359-393 | two messages of a conversation have one key only if they are the same message |
| Conversation.NeverTwoAhead | packages/crypto/src/ratchet.ts:1142-1178 | a receiver never meets a peer chain two ahead of the last one it saw |
| Conversation.StaleNeverOpens | packages/crypto/src/ratchet.ts:1095-1100 | a replay from an old chain is tried under a key that chain never had |
| Conversation.Decide | packages/crypto/src/ratchet.ts:878-1245 | in any reachable state the outcome of delivering any honest packet, by where its chain stands: state and result, every branch |
| InStep.GenesisInv | packages/crypto/src/ratchet.ts:641-728 | two sessions initialised from one root key satisfy the two-party invariant |
| InStep.SendKeepsInv | packages/crypto/src/ratchet.ts:758-814 | sending keeps the two-party invariant: roots, chain keys at their counters, every stored key the true key of its position |
| InStep.DeliverKeepsInv | packages/crypto/src/ratchet.ts:878-1245 | so does every delivery but a harmful one, through both skip loops |
| InStep.HarmBreaks | packages/crypto/src/ratchet.ts:1185-1201 | an unstored replay from an old chain whose own number is over the cap puts the roots out of step |
| Parting.HarmIsFinal | packages/crypto/src/ratchet.ts:1185-1201 | over every run after such a delivery the receiver reads only what it had stored keys for at that moment, and the other party nothing that the receiver sends from then on |
| Parting.FirstHarmIsFinal | packages/crypto/src/ratchet.ts:1185-1201 | the same from the start of a conversation, for the first harmful packet of any run |
| InStep.StepKeepsInStep | packages/crypto/src/ratchet.ts:641-1245 | a step keeps the sessions in step if and only if it is not such a delivery |
| InStep.RunInStep | packages/crypto/src/ratchet.ts:641-1245 | over any run of sends, deliveries, repeats, reorderings and losses the roots stay in step throughout if and only if no harmful packet is delivered |
| InStep.ShortRunHarmless | packages/crypto/src/ratchet.ts:113 | runs whose chains stay within 1001 messages deliver no harmful packet |
| Ledger.ExactDelivery | packages/crypto/src/ratchet.ts:878-1245 | in any reachable state a packet gives its own text back if and only if it has not before, its stored key was not evicted, its place was not abandoned and the caps allow it |
| Ledger.RunKeepsBooks | packages/crypto/src/ratchet.ts:916-999 | over runs without a harmful packet the ledger of what was delivered, stored, evicted and lost stays right, and nothing delivered is forgotten |
| Ledger.PassedExactlyOnce | packages/crypto/src/ratchet.ts:916-999 | under that ledger every number the receiver has passed is exactly one of delivered, stored, evicted and lost, and a number not reached is none |
| Ledger.ConsumedReplay | packages/crypto/src/ratchet.ts:23-26 | a second delivery of a consumed packet is a duplicate if and only if its chain is the current one; later it is invalid, or over the caps a loss that moves the session |
| Recovery.ConsumedReplayed | packages/crypto/src/ratchet.ts:23-26 | a run from the start in which Bob reads the first and the last of 1002 messages, both parties move on, and the two come again: an invalid message, and a loss that moves the session |
| SingleUse.OpensOnce | packages/crypto/src/ratchet.ts:916-949 | over any calls on a sound session, with any headers and ciphertexts, a ciphertext that has opened never opens again under any header |
| SingleUse.EvictedSpent | packages/crypto/src/ratchet.ts:1260-1275 | a key the store held or was given and no longer has is spent: it never opens anything again |
| EveryRun.AtMostOnce | packages/crypto/src/ratchet.ts:916-949 | over any run of two parties from the start, harmful packets included, a packet that gave its text back never does again |
| Ledger.ShortRunDelivery | packages/crypto/src/ratchet.ts:878-1245 | in runs whose chains stay within 1001 messages a packet gives its own text back exactly if it has not yet and its stored key was not evicted |
| Ledger.GenesisBooks | packages/crypto/src/ratchet.ts:641-728 | the ledger's invariant holds before anything is sent |
| Recovery.LossEndsChain | packages/crypto/src/ratchet.ts:980-1007 | after a same-chain loss, and any further calls on that chain, every message of it without a stored key is a duplicate and changes nothing |
| Recovery.NextOnChainRefused | packages/crypto/src/ratchet.ts:1299-1303 | the promise of lines 36-37 fails in a run from the start: Alice sends 1004, Bob gets 0, loses 1002 and is refused 1003 |
| Recovery.NextKeyHeals | packages/crypto/src/ratchet.ts:1102-1245 | the first honest message under the peer's next key and within the cap decrypts |
| Recovery.GapHeals | packages/crypto/src/ratchet.ts:1111-1119 | after an old-chain gap over the cap one notice is given and the next message on the new chain within the cap decrypts |
| Recovery.ReplayDesynchronizes | packages/crypto/src/ratchet.ts:1185-1201 | an honest run from the start, in step to its end, after which one replay takes the sessions out of step |
| Recovery.FlippedByteRatchets | packages/crypto/src/ratchet.ts:17-22 | the promise fails: a first message with one header byte changed is reported lost and takes a ratchet step |
| Secrecy.DerivesLeast | packages/crypto/src/ratchet.ts:359-393 | derivability is the least set that holds the given terms and is closed under every KDF and DH |
| Secrecy.Reach | packages/crypto/src/ratchet.ts:38-45 | exactly which message keys a captured session can compute: stored ones, those ahead on its live chains, and the peer's next chain |
| Secrecy.Healing | packages/crypto/src/ratchet.ts:43-45 | post-compromise security: of everything sent later, a captured session reaches those keys and no others |
| Secrecy.PassedKeysGone | packages/crypto/src/ratchet.ts:38-42 | in step, a key that was sent, received or evicted cannot be computed from anything its holder keeps |
| EveryRun.ForwardSecrecy | packages/crypto/src/ratchet.ts:38-42 | over any run from the start, harmful packets included, a key a party sealed under, opened with or evicted can never be computed from anything it holds from then on |
| EveryRun.RetiredForGood | packages/crypto/src/ratchet.ts:38-42 | the same for one session and any calls on it, forged headers and ciphertexts included |
| X3dh.RootsAgreeExactly | packages/crypto/src/session.ts:272-454 | with three shares or four the two roots are equal if and only if Bob holds the very keys of the bundle and saw Alice's own identity and ephemeral keys; a one-time key on one side only is refused |
| X3dh.EstablishExactly | packages/crypto/src/session.ts:272-360 | a bundle is refused if and only if its prekey does not carry the signature of its own identity key; otherwise the root is the KDF of DH1, DH2, DH3 and any DH4 in that order, and the init record names both keys and the bundle's own two ids |
| X3dh.ForgedBundleRefused | packages/crypto/src/session.ts:284-291 | a prekey nobody signed, or somebody else signed, is refused |
| X3dh.AcceptExactly | packages/crypto/src/session.ts:402-454 | the responder refuses if and only if he and the init record disagree about a one-time key; otherwise his root has the same shares in the same order |
| X3dh.IdsFindTheKeys | packages/crypto/src/session.ts:352-358 | a responder who looks his keys up by the two ids of the init record gets the initiator's root, and by any other ids he does not |
| X3dh.FirstMessage | packages/crypto/src/ratchet.ts:1102-1245 | what a new responder session makes of any message of the first chain, by roots, prekeys and the cap |
| X3dh.FirstContact | packages/crypto/src/session.ts:272-454 | the first message opens if and only if both sides mixed matching keys |
| X3dh.BootstrapInStep | packages/crypto/src/session.ts:272-454 | the sessions X3DH seeds satisfy the base case of every invariant above |
| X3dh.EndToEnd | packages/crypto/src/session.ts:272-454 | from X3DH through any run within the cap: roots in step throughout, exact delivery, forward secrecy |
| SessionBuffers.ConcatAt | packages/crypto/src/session.ts:190-202 | byte 32k of the concatenation is the first of share k, so the IKM determines the shares |
| SessionBuffers.ConcatBytes | packages/crypto/src/session.ts:190-202 | the two loops lay the chunks end to end in one new buffer |
| SessionBuffers.DeriveSessionKey | packages/crypto/src/session.ts:216-223 | the root is the KDF of the shares in order, and of all the buffers the call made it is the only one not scrubbed |
| SessionBuffers.EstablishSession | packages/crypto/src/session.ts:272-360 | refuses exactly a bundle whose prekey its identity key has not signed, and then makes no buffer at all; otherwise root and init record of the specification, with the bundle's ids; no caller's buffer is written, and every buffer made but the root and the two public keys is scrubbed |
| SessionBuffers.AcceptSession | packages/crypto/src/session.ts:402-454 | throws exactly when init record and caller disagree about a one-time key; otherwise the specification's root, the only buffer made that is not scrubbed |
| Delivery.StepKeepsInv | apps/api/src/ws/gateway.ts:724-1008 | every step of client, handlers and faults keeps the delivery invariant |
| Delivery.ReceiveExactly | apps/api/src/ws/gateway.ts:724-768 | a frame that names another sender gets INVALID_PAYLOAD, one over the limit RATE_LIMITED, and nothing else happens; any other starts one handler |
| Outbox.SweptExactly | apps/web/src/db/repositories/outbox.ts:214-246 | the two sweeps of an enqueue keep exactly the rows at most seven days old with fewer than 999 such rows after them |
| Outbox.DropReason | apps/web/src/db/repositories/outbox.ts:67-77 | a row goes only for its age or because a thousand rows were added from it on |
| Outbox.FullStoreDrops | apps/web/src/db/repositories/outbox.ts:67-77 | of a thousand rows of one moment the first goes when another is added at that moment |
| Delivery.NothingEnqueuedLost | apps/web/src/ws/outbox.ts:146-171 | over every interleaving an envelope whose nonce was used for no other is in its device's outbox or in the table, unless a sweep dropped it for its age or for a thousand rows added from it on |
| Delivery.KeptForAWeek | apps/web/src/ws/outbox.ts:10-24 | so from the envelope's own enqueue on, up to a thousand enqueues on its device, none more than seven days later, lose nothing, whatever went before |
| Delivery.OldRowWaits | apps/web/src/db/repositories/outbox.ts:93-106 | an enqueue under a waiting nonce sweeps nothing, so a row can wait on past seven days |
| Delivery.ReusedNonceDropped | apps/web/src/db/repositories/outbox.ts:93-100 | without fresh nonces this fails: the second envelope under a waiting nonce is nowhere, and no sweep dropped it |
| Delivery.SentOnce | apps/api/src/ws/gateway.ts:769-876 | over every interleaving nothing is announced without a row addressed to that channel, no row twice, and two confirmations name one id exactly if they are for one nonce of one device |
| Announcement.AnnouncedExactly | apps/api/src/ws/gateway.ts:820-823 | over any run from its INSERT on, a row is announced if and only if its inserting handler gets its publish through |
| Announcement.NeverAnnounced | apps/api/src/ws/gateway.ts:820-823 | a row that is not announced and that no handler is about to announce never is, whatever is sent again |
| Announcement.LostAnnouncement | apps/api/src/ws/gateway.ts:820-823 | the promise of one publish fails: a crash between INSERT and publish, a retry that completes, and no announcement ever |
| Delivery.RowsStay | apps/api/src/ws/gateway.ts:769-789 | a row once written never changes, whatever is retried |
| Delivery.RetryCompletes | apps/web/src/ws/outbox.ts:206-244 | whatever failed before, one more send with no fault leaves a row and clears the outbox, without a second announcement |
| Gateway.HandlingEnds | apps/api/src/ws/gateway.ts:724-1008 | where the interleaved steps of one admitted handler lead, for every outcome of its queries |
| Gateway.EnvelopeGateway.OnSendEnvelope | apps/api/src/ws/gateway.ts:724-1008 | the handler is one sequence of the interleaved steps, for every fault, charges the rate limiter only after the sender check, and answers a refused frame with its error and nothing else |
| Handshake.Connection.OnMessage | apps/api/src/ws/gateway.ts:1453-1490 | exactly which frames pass before and after the handshake, whatever their type; all others close the connection |
| Handshake.Connection.OnQueuedCount | apps/api/src/ws/gateway.ts:534-548 | the flag flips and HELLO_OK goes out only when the query succeeded |
| Handshake.OneHandshake | apps/api/src/ws/gateway.ts:509-571 | no frame is handled before HELLO_OK; there are two HELLO_OKs if and only if a HELLO's query answered after another's had raised the flag, which takes overlapping HELLOs; otherwise at most one, and one inbox |
| Handshake.OverlappingHellos | apps/api/src/ws/gateway.ts:1466-1476 | two HELLOs in flight are both accepted and the first inbox is never released |
| Replay.OutboxCoordinator.KickReplay | apps/web/src/ws/outbox.ts:190-204 | a trigger during a pass is remembered, one at rest starts a pass |
| Replay.OutboxCoordinator.FinishPass | apps/web/src/ws/outbox.ts:196-203 | after a pass, whose end is logged with its reason, a remembered trigger starts the next one; otherwise the flag is lowered |
| Replay.OutboxCoordinator.OnListed | apps/web/src/ws/outbox.ts:206-222 | a pass takes the whole outbox as its snapshot; if the socket is ready and the send goes through, the first row is sent and the wait is for the rest; otherwise the pass ends for the reason that applies |
| Replay.OutboxCoordinator.OnRecorded | apps/web/src/ws/outbox.ts:213-228 | if the store recorded, the socket is ready and the send goes through, the next row of the snapshot is sent; otherwise the pass ends for the reason that applies |
| Replay.OutboxCoordinator.HandleQueued | apps/web/src/ws/outbox.ts:231-244 | exactly the acknowledged nonce leaves the outbox, order kept |
| Replay.OutboxCoordinator.Enqueue | apps/web/src/db/repositories/outbox.ts:83-119 | a waiting nonce changes nothing; a new one is added after both sweeps; the store stays within a thousand rows, ordered, one for each nonce |
| Replay.OutboxCoordinator.SweepAged | apps/web/src/db/repositories/outbox.ts:214-228 | exactly the rows more than seven days old go, order kept |
| Replay.OutboxCoordinator.SweepCapacity | apps/web/src/db/repositories/outbox.ts:230-246 | the oldest rows go, and no more than leave room for one |
| Replay.PassesDisjoint | apps/web/src/ws/outbox.ts:190-204 | passes never overlap |
| Replay.SendsPrefix | apps/web/src/ws/outbox.ts:213-228 | at every moment a pass has sent a prefix of its snapshot in strictly increasing row order |
| Replay.EndsForItsReason | apps/web/src/ws/outbox.ts:206-229 | over whole logs a pass that ends with nothing amiss has sent every row of its snapshot, once each and in order, and one that blames the socket ends while it is down |
| Replay.RunPass | apps/web/src/ws/outbox.ts:206-229 | while the socket stays up and nothing throws, one pass sends the whole outbox in order |
| Replay.TriggersAnswered | apps/web/src/ws/outbox.ts:173-184 | at rest every trigger has been followed by a pass begun after it if and only if none is still remembered, and one is only if the store killed the latest pass |
| Replay.ForgottenTrigger | apps/web/src/ws/outbox.ts:190-212 | that exception is real |
| Inbox.ListingExactly | apps/api/src/ws/redis-fanout.ts:224-241 | the listing holds exactly the rows of the table that are addressed to the device and not delivered, each later one with a later time, or the same time and a higher id |
| Inbox.InboxConnection.OnPayload | apps/api/src/ws/redis-fanout.ts:356-369 | a payload that is empty or has a character other than 0 to 9 changes nothing; any other is handled as the id it spells |
| Inbox.DecimalReadsBack | apps/api/src/ws/redis-fanout.ts:356-369 | every id in the decimal text a publisher sends passes the check and is read back as itself |
| Inbox.InboxConnection.HandleLivePublish | apps/api/src/ws/redis-fanout.ts:370-376 | an id already seen goes no further; any other is marked before its query |
| Inbox.InboxConnection.OnHydrated | apps/api/src/ws/redis-fanout.ts:377-418 | the row is forwarded if and only if the query answers and the row exists and is addressed to the device |
| Inbox.InboxConnection.OnSelected | apps/api/src/ws/redis-fanout.ts:214-257 | exactly the device's undelivered rows are forwarded, by time and then id, after whatever went out before; none if the query fails |
| Inbox.InboxConnection.Seed | apps/api/src/ws/redis-fanout.ts:333-338 | the ids the replay forwarded join the seen set |
| Inbox.InboxComplete | apps/api/src/ws/redis-fanout.ts:267-310 | subscribing before the SELECT leaves no gap: with no failed query every undelivered row inserted before the SELECT, or announced at any time, has been forwarded |
| Inbox.HeardAccounted | apps/api/src/ws/redis-fanout.ts:348-418 | with failures, a heard publish comes to nothing only if its own query failed or found no row |
| Inbox.AtMostTwice | apps/api/src/ws/redis-fanout.ts:311-346 | no id is forwarded three times |
| Inbox.TwiceExactly | apps/api/src/ws/redis-fanout.ts:287-289 | with no query outstanding, an id has been forwarded twice if and only if it was listed, its publish was handled before the seeding and its own query found the row |
| Inbox.RaceForwardsTwice | apps/api/src/ws/redis-fanout.ts:287-289 | such a race, step by step, with both frames sent |
| Journey.RowArrives | apps/api/src/ws/redis-fanout.ts:214-310 | a row that was in the table before a connection's SELECT, or was announced, is marked delivered or has been forwarded once its recipient's connection is live with no query failed or outstanding |
| Journey.EnvelopeArrives | apps/api/src/ws/redis-fanout.ts:214-310 | from end to end: at the recipient's next attach an enqueued envelope has arrived, or is still in its sender's outbox, or was swept there for its age or for a thousand rows added from it on |
| Journey.Attach | apps/api/src/ws/redis-fanout.ts:267-346 | an attach with no failed query, on a table that holds those rows, is such a connection |
| TokenBucket.RateLimiter.TryConsume | apps/api/src/ws/rate-limit.ts:77-103 | admits exactly when the refilled bucket holds a token, and leaves other devices alone |
| TokenBucket.TokensBounded | apps/api/src/ws/rate-limit.ts:77-103 | tokens stay between zero and capacity over any calls on any clock |
| TokenBucket.WindowBound | apps/api/src/ws/rate-limit.ts:3-17 | from any call of a device on, it is admitted at most a full bucket plus the refill for the clock's positive increments |
| TokenBucket.ClimbIsElapsed | apps/api/src/ws/rate-limit.ts:71-76 | those increments sum to at least the elapsed time, and to exactly that if and only if the clock never goes back |
| TokenBucket.BackwardClockRefills | apps/api/src/ws/rate-limit.ts:71-76 | a concrete run in which one jump back and forth admits an extra call at one and the same time |
| TokenBucket.SpacedNeverRefused | apps/api/src/ws/rate-limit.ts:57-63 | a device whose calls are a token's time apart is never refused |
| TokenBucket.BurstExactly | apps/api/src/ws/rate-limit.ts:8-11 | a new device gets exactly its whole capacity at one instant |
| TokenBucket.SendLimit | apps/api/src/ws/rate-limit.ts:48-51 | on a clock that does not go back, from any one call on a device is admitted at most 50 times and once more for every tenth of a second |
| TokenBucket.PartsKept | apps/api/src/ws/rate-limit.ts:77-103 | through any number of refused calls the bucket gains the refill for all the time that has gone by: no part of a token is lost |
| TokenBucket.AdmittedExactly | apps/api/src/ws/rate-limit.ts:77-103 | after any stretch of refusals the next call is admitted if and only if what the bucket held and what it has gained since make up a token |
| RefreshTokens.RefreshTokenStore.Issue | apps/api/src/services/auth/tokens.ts:260-278 | one live row of that user with that token, expiring one ttl from now, is added and the family invariant kept |
| RefreshTokens.RefreshTokenStore.Rotate | apps/api/src/services/auth/tokens.ts:280-395 | outcome and table for unknown, replayed, expired and good tokens: a good one is neither rotated nor revoked and not expired, and is marked rotated beside one new live row; the family invariant kept |
| RefreshTokens.RefreshTokenStore.Revoke | apps/api/src/services/auth/tokens.ts:397-413 | only the presented token's row is revoked |
| RefreshTokens.RefreshTokenStore.RevokeAllForUser | apps/api/src/services/auth/tokens.ts:415-427 | exactly the user's rows are revoked |
| RefreshTokens.RotateExactly | apps/api/src/services/auth/tokens.ts:286-376 | of a token in the table: it rotates if and only if it is neither rotated nor revoked and expires later than now, it is reuse if and only if it is rotated or revoked, else it is expired; and the whole table after each |
| RefreshTokens.UnknownExactly | apps/api/src/services/auth/tokens.ts:309-312 | a token is unknown if and only if no row holds it, and presenting it changes nothing |
| RefreshTokens.RevokeExactly | apps/api/src/services/auth/tokens.ts:397-413 | the presented token's row is revoked, it is refused as reuse from then on, and every other row is as it was |
| RefreshTokens.GoodTokenRotates | apps/api/src/services/auth/tokens.ts:345-376 | over any run a token that was issued or rotated out, and whose user's family and own row have been left alone since, rotates at any time before it expires, and so in turn does its successor |
| RefreshTokens.OneLiveLeaf | apps/api/src/services/auth/tokens.ts:345-370 | the descendants of one issue have at most one live token, the newest |
| RefreshTokens.LiveBound | apps/api/src/services/auth/tokens.ts:260-427 | over any run a user's live tokens never exceed the issues since the last family revoke |
| RefreshTokens.ReplayPurges | apps/api/src/services/auth/tokens.ts:320-344 | a rotated or revoked token leaves its user with none live and nobody else touched; an expired one changes nothing |
| RefreshTokens.PurgedForGood | apps/api/src/services/auth/tokens.ts:320-333 | after a family revoke every token held then is refused as reuse for ever |
| RefreshTokens.RotatesOnce | apps/api/src/services/auth/tokens.ts:286-352 | over any run a token rotates successfully at most once |
| Redaction.ExpandedOnce | apps/api/src/obs/logger.ts:166-178 | on any finite graph, cyclic or shared, the result has as many objects as were entered, each once |
| Redaction.AllCensored | apps/api/src/obs/logger.ts:144-146 | in the output every slot of a record whose key is one of the names holds the censor, at any depth |
| Redaction.SlotsExactly | apps/api/src/obs/logger.ts:180-200 | slot by slot: a redacted key of a record holds [REDACTED]; an element of an array, and any other key, holds what its own value redacts to after the properties before it |
| Redaction.ValueExactly | apps/api/src/obs/logger.ts:166-200 | value by value: what is no object stays, an object seen before is the marker, any other is an object of the same kind with the same keys in order |
| Redaction.Redactor.DeepRedact | apps/api/src/obs/logger.ts:89-164 | the walk with the nine field names of the source, none seen at the start: every redacted key of a record holds [REDACTED] in what it returns |
| Redaction.ShownExactly | apps/api/src/obs/logger.ts:162-201 | on any finite graph a text, number or byte array other than the two markers stands in the output if and only if it is the value itself or is held by a property that redaction follows from an object it reaches |
| Redaction.GuardedNeverShows | apps/api/src/obs/logger.ts:64-68 | so what stands only behind redacted keys of records, at any depth below them, appears nowhere in the output |
| Redaction.Idempotent | apps/api/src/obs/logger.ts:162-201 | on any graph that reads as the redacted tree, sharing nothing, redaction changes nothing |
| Redaction.Redactor.RedactTwice | apps/api/src/obs/logger.ts:162-201 | the objects one call builds are such a graph: a second call on them builds the same tree |
| Redaction.Reproduced | apps/api/src/obs/logger.ts:162-201 | a clean tree without sharing comes out as it went in, whatever order its objects were made in, and the walk visits its objects and no others |
| Redaction.MarksExactly | apps/api/src/obs/logger.ts:166-178 | on any finite graph the walk writes its circular marker if and only if some object is reached twice by properties that redaction follows |
| Redaction.VisitedExactly | apps/api/src/obs/logger.ts:166-178 | the objects visited are exactly those reached by such properties |
| Redaction.MarkShows | apps/api/src/obs/logger.ts:174-176 | where no input text is the marker, the output shows it if and only if the walk wrote it |
| Redaction.SharedReadsCircular | apps/api/src/obs/logger.ts:174-176 | an object shared without a cycle comes out as the circular marker the second time |
| Redaction.Redactor.DeepRedactImpl | apps/api/src/obs/logger.ts:166-201 | the loops build that tree out of new objects and leave every old object as it was |
| Broadcast.CursorShrinks | apps/api/src/routes/broadcast.ts:648-653 | each cursor leaves fewer posts than the one before, so following them ends |
| Broadcast.CrawlComplete | apps/api/src/routes/broadcast.ts:565-653 | the pages concatenate to the full descending list if and only if no page ends between two posts of one millisecond |
| Broadcast.NeverRepeats | apps/api/src/routes/broadcast.ts:565-653 | a client that follows the cursors from none sees no post twice, and newest first across pages |
| Broadcast.MissedSharesBoundary | apps/api/src/routes/broadcast.ts:565-653 | a post such a client misses shares its millisecond with a newer one it was shown |
| Broadcast.PostRateLimiter.TryAcquire | apps/api/src/routes/broadcast.ts:318-330 | refuses exactly the posts within the window of the last one admitted; all grants of a key stay a window apart on any clock |

## Left out

- X25519, Ed25519, HKDF, HMAC and AES-GCM at bit level, including low-order points and the exceptions the libraries raise: library code, replaced by the symbols above.
- The `Number.isInteger` checks on header counters: counters are integers here.
- `Delivery` is a state machine on values rather than classes, because its subject is the interleaving of two programs; the handler and the outbox coordinator are also given in the source's own form (`Gateway`, `Replay`).
- A party's own packets reflected back to it: `Conversation` delivers each packet to its peer only. `SkippedStore` and `SingleUse` hold for such calls too.
- Serialisation of sessions, their storage, and two calls racing on one stored session: the caller's business.
- Deleting rows of the envelope table: `Delivery` has no such step (`Inbox` has), so the lookup branch for a vanished row is reached here only as a failed query.
- `client.ts` beyond its ready flag: reconnect timers, backoff, frame errors, and `connect()` after `close()`. Connecting and disconnecting may happen at any time.
- ENVELOPE_RECEIVED, presence, room subscriptions, the offline push and metrics in `gateway.ts`: no effect on the properties stated.
- Message keys that a skip loop has copied into the store: the code does not scrub the buffers it copied them from (ratchet.ts:1039-1045), so what is promised of every buffer is about chain keys, and about the message keys tried (`RatchetBuffers.StepAndOpen`, `RatchetBuffers.TryOpen`).
- Inbox.InboxConnection.OnPayload: ids with leading zeros, which the code keeps apart as strings, are one number here; no publisher sends them.
- `redis-publisher.ts`: a subscription hears every publish on its channel from the moment it resolves.
- TokenBucket.WindowBound: over exact reals; floating-point rounding of the refill is not modelled.
- Refresh tokens: locking below the transaction, a COMMIT whose answer is lost, and hash collisions.
- Redaction: getters that throw and the failure counter, a property named `__proto__`, symbol and inherited keys; the elements of an array are appended rather than assigned by index.
- Broadcast.CrawlComplete: the table does not change while a client follows the cursors; parsing of the query and the joins are not modelled.
- The msgpack codec, zod schemas, prekey minting, safety numbers, the service worker, push, LiveKit, TURN, object storage, configuration and the UI: plumbing or easy members.
