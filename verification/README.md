# Verification of the messenger's stateful cores

A Dafny model of the parts of an end-to-end encrypted messenger that keep state over unbounded
runs, with proofs of what they promise. `dafny verify dfyconfig.toml` checks everything.

| part | files |
|---|---|
| Symbolic cryptography | `Symbolic.dfy` |
| Pairwise Double Ratchet and X3DH | `RatchetModel.dfy` (the algorithm on values), `LiveRatchet.dfy` (the same on byte arrays, in place), `RatchetSession.dfy`, `RatchetAgreement.dfy` (two parties and the network), `RatchetReplay.dfy` (one party, no trust), `X3dh.dfy` |
| Group sender keys | `SenderKey.dfy`, `SenderKeyChain.dfy` (the chain), `SenderKeyRecords.dfy` (stored records and replay), `SenderKeyLock.dfy`, `LocalSenderKeys.dfy` (the lock and what it guards), `LocalSenderKeyRuns.dfy` (what calls can rely on) |
| Direct calls | `CallSessions.dfy`, `CallIndex.dfy`, `CallRestarts.dfy` (the session store), `CallLifecycle.dfy`, `CallTransport.dfy`, `CallManager.dfy` (status and transport) |
| Bounded state | `RateWindows.dfy`, `HttpRateLimit.dfy`, `WsRateLimit.dfy`, `RoomModel.dfy`, `RoomState.dfy`, `Base64Url.dfy`, `DirectEnvelope.dfy`, `JsonBounds.dfy` |

## How to read it

- Code that changes things step by step is a class or a method with loops, proved equal to a
  function on values; the theorems about runs are lemmas about those functions.
- Keys are terms of free constructors. Diffie-Hellman is symmetric, an AEAD opens only with its
  own key and associated data, a signature verifies only for its signer and data. A public key is
  the name of its private half.
- The network of `RatchetSession` may do anything except seal under a key derived from the
  session's secret: such ciphertexts are the ones that were sent (`Possible`). A header is
  authenticated as it is encoded, counters modulo 2^32, and the network may deliver any header that
  encodes the same as the sent one, as long as the counters the sender used fit in 32 bits.
- `DeliveryIsExact` is stated at every state of every run, so it covers the acceptance of a
  message however long it was delayed and whatever arrived first.
- A key of the skipped-key map (`hex:n`) or of a storage record, built by joining strings, is a
  tuple here; the parts are taken not to contain the separator. A peer's key is the joined string.
- Every state `LocalSenderKeys` reaches from a starting one is `Sound` for it (`RunsStaySound`). Other
  work on the remote records may come in between at any point, except that nobody else imports a key
  under the id of one of this device's own distributions; a mirror found at the start is taken to be
  a point of its distribution's chain no later than the record.
- Time is a parameter of each operation. UUIDs, seeds and key pairs are fresh where a lemma says so.

## What the code does not promise

Some properties hold only under a condition; where it is a condition on the call or the
configuration it is proved to be the exact one:

- The HTTP limiter lets the first request of every window through even when `maxRequests` is zero or
  negative, so twice the configured limit is a bound exactly when the limit is at least 1 (or the
  window has no length): `HttpRateLimit.TwiceTheConfiguredLimitExactly`. The least bound that always
  holds is one less than twice the limit: `HttpRateLimit.LeastBoundIsExact`.
- A key refused by the HTTP limiter may be refused again at the retry time it was given, because
  another key took its place in a full map: `HttpRateLimit.LetThroughAtRetryExactly`, with the run in
  `HttpRateLimit.RetryCanBeLostToANewKey`.
- History replay is independent of everything else exactly when it has begun or a record with an
  `initialState` is stored. A record from before that field existed takes the state after the next
  live decrypt as its initial state: `SenderKeyRecords.ReplayIsFixedExactly`.
- A live call is listed for its devices, and a session is found for one TTL from when it was set and no
  longer, in a process that was not restarted (`CallIndex.StoreIsTheSimpleMap`). After a restart nothing
  is lost (`CallRestarts.RestartsLoseNothing`), but a session read from Redis is cached for a TTL of its
  own and can outlive its listing: `CallRestarts.ReadAfterRestartProlongs`.
- A room emptied by a sweep is spared exactly when `emptyRoomTtlMs` is not negative:
  `RoomModel.EmptiedRoomIsSparedExactly`.

The attach and remove functions of the room registry accept any id; the owner maps stay exact
exactly when no other peer holds it (`RoomModel.AttachKeepsExact`, `RoomModel.RemoveKeepsExact`).

## Model

| member | source | states |
|---|---|---|
| `RatchetAgreement.RunsStayInLockstep` | packages/crypto/src/double-ratchet.ts:158-366 | In every state of every run from one agreed secret, over a network that reorders, delays, drops, repeats, reflects or invents messages: the parties hold the last two DH epochs of one shared derivation, one each; every root, chain and counter sits at its point of it; each skipped-key store holds exactly the keys of passed messages neither accepted nor evicted |
| `RatchetAgreement.EpochsDifferByOne` | packages/crypto/src/double-ratchet.ts:321-366 | The sending epochs of the two parties always differ by exactly one, both root keys are points of one derivation, and `PN` is the length of the last finished sending chain |
| `RatchetAgreement.DeliveryIsExact` | packages/crypto/src/double-ratchet.ts:227-275 | The first delivery of a sent message returns the plaintext encrypted if and only if its gaps (`pn`, `n` against `Nr`) are within MAX_SKIP and its stored key was not evicted; every later delivery returns nothing |
| `RatchetAgreement.AcceptanceIsAuthentic` | packages/crypto/src/double-ratchet.ts:227-275 | Whatever the network delivers, a message accepted is one the peer sent to this party, accepted for the first time, and it reads as it was encrypted; its header is the sent one, except that a party which takes no DH step accepts any `pn` equal to the sent one modulo 2^32 |
| `RatchetAgreement.IgnoredCountReadsTheSame` | packages/crypto/src/double-ratchet.ts:240-263 | That altered `pn` has no effect: the delivery of such a message is the delivery of the sent one |
| `RatchetAgreement.OtherIdentitiesAreRefused` | packages/crypto/src/double-ratchet.ts:211-243 | In every state, reachable or not, a message sent in a session is refused under any associated data but the session's own, whatever header it is given |
| `RatchetAgreement.AlteredHeaderIsRefused` | packages/crypto/src/double-ratchet.ts:64-75 | A sent message whose public key or counters were changed, modulo 2^32, is refused in every state |
| `RatchetAgreement.SendIsGenuine` | packages/crypto/src/double-ratchet.ts:198-225 | Sending fails exactly for a responder that has received nothing; otherwise the message is the next of the sender's epoch |
| `RatchetAgreement.SentStaysOnSend` | packages/crypto/src/double-ratchet.ts:198-225 | A message sent earlier is still the same genuine message after another send |
| `RatchetAgreement.SentStaysOnDeliver` | packages/crypto/src/double-ratchet.ts:227-275 | A message sent earlier is still the same genuine message after any delivery, DH step included |
| `RatchetAgreement.DeliverKeepsLockstep` | packages/crypto/src/double-ratchet.ts:227-366 | One delivery of any possible message, accepted or refused, on any path, keeps the lockstep |
| `RatchetAgreement.SendKeepsLockstep` | packages/crypto/src/double-ratchet.ts:198-225 | One send keeps the lockstep |
| `RatchetAgreement.AcceptedInNextEpoch` | packages/crypto/src/double-ratchet.ts:240-263 | A message accepted by a DH step is a sent message of the very next epoch, with `pn` and `n` within MAX_SKIP |
| `RatchetAgreement.KeyAtInjective` | packages/crypto/src/double-ratchet.ts:34-62 | Two message keys of a session are equal only for the same epoch and the same index |
| `RatchetReplay.AcceptedAtMostOnce` | packages/crypto/src/double-ratchet.ts:227-319 | Trusting nobody: once any state of a party accepted a message, no later state accepts that ciphertext again, under any header and any associated data |
| `RatchetReplay.DecryptMovesOn` | packages/crypto/src/double-ratchet.ts:227-319 | Accepting a message spends its key and leaves every spent key spent; a message under a spent key is refused |
| `RatchetModel.CollectShortestPrefix` | packages/crypto/src/double-ratchet.ts:327-350 | Garbage collection drops the shortest oldest-first prefix of whole epochs that brings the store to MAX_SKIP or below, and nothing when it already is |
| `RatchetModel.EpochOrderExact` | packages/crypto/src/double-ratchet.ts:330-343 | The collection order lists each stored epoch once and no other |
| `RatchetModel.EpochOrderIsOldestFirst` | packages/crypto/src/double-ratchet.ts:341-343 | Epochs are ordered by their first entry in the store |
| `RatchetModel.StepBoundsStore` | packages/crypto/src/double-ratchet.ts:240-263 | After an accepted message that took a DH step the store holds at most 2 * MAX_SKIP keys |
| `RatchetModel.SkipMeaning` | packages/crypto/src/double-ratchet.ts:305-319 | Skipping fails exactly beyond MAX_SKIP; otherwise it stores the right key for each index passed, changes no other entry and leaves the chain at the target |
| `RatchetModel.DecryptKeepsMap` | packages/crypto/src/double-ratchet.ts:227-275 | Accepting a message keeps at most one stored key for each public key and index |
| `RatchetModel.DecryptBindsHeader` | packages/crypto/src/double-ratchet.ts:227-275 | For every state, message and associated data: what is read was sealed for exactly that associated data, that public key and those two counters modulo 2^32 |
| `RatchetModel.EncryptMeaning` | packages/crypto/src/double-ratchet.ts:198-225 | A send needs a sending chain; it carries the next index, is sealed under that chain's next key for the given associated data and its own header, and moves the chain one step |
| `RatchetModel.RefusalsAreExact` | packages/crypto/src/double-ratchet.ts:227-319 | Which error a refused message gives: with a stored key only authentication can fail; otherwise a gap above 1000 comes first, then a receiving chain that was never started, then authentication |
| `LiveRatchet.RatchetState.RatchetDecrypt` | packages/crypto/src/double-ratchet.ts:227-275 | On byte arrays: a success leaves the value the model gives and writes only this state; a failure leaves the state and every byte array it holds unchanged, although clone keys are zeroed; at most 2 * MAX_SKIP + 1 message keys are derived |
| `LiveRatchet.RatchetState.CloneRatchetState` | packages/crypto/src/double-ratchet.ts:5-22 | The clone has the same value and shares no array with the original |
| `LiveRatchet.RatchetState.CommitRatchetState` | packages/crypto/src/double-ratchet.ts:277-290 | The live state takes the clone's value, in arrays of its own |
| `LiveRatchet.RatchetState.TrySkippedMessageKey` | packages/crypto/src/double-ratchet.ts:292-303 | A stored key is handed over and leaves the map; with none stored nothing changes |
| `LiveRatchet.RatchetState.SkipMessageKeys` | packages/crypto/src/double-ratchet.ts:305-319 | The loop computes the model's skip, or fails when it does, writes to no array and derives at most MAX_SKIP keys |
| `LiveRatchet.RatchetState.DhRatchetStep` | packages/crypto/src/double-ratchet.ts:321-366 | The in-place DH step, with its collection loops, computes the model's step |
| `LiveRatchet.RatchetState.EvictOldEpochs` | packages/crypto/src/double-ratchet.ts:327-350 | The grouping and eviction loops compute the model's collection |
| `LiveRatchet.GroupByEpoch` | packages/crypto/src/double-ratchet.ts:330-341 | The grouping loop lists, under each epoch, exactly its own keys, with epochs in first-seen order |
| `LiveRatchet.RatchetState.RatchetEncrypt` | packages/crypto/src/double-ratchet.ts:198-225 | The in-place send computes the model's send, or fails without a write |
| `LiveRatchet.CreateSender` | packages/crypto/src/double-ratchet.ts:158-178 | The sender's first state |
| `LiveRatchet.CreateReceiver` | packages/crypto/src/double-ratchet.ts:180-196 | The receiver's first state |
| `X3dh.AgreeIffSamePreKeys` | packages/crypto/src/x3dh.ts:82-154 | Both sides derive the same secret if and only if the bundle carried the signed prekey and the one-time prekey (or none) the receiver uses; the associated data always agrees |
| `X3dh.SignedPreKeyIsChecked` | packages/crypto/src/x3dh.ts:88-94 | A bundle is used if and only if its signature is by its signing key and over its signed prekey; otherwise the error is the invalid signature |
| `X3dh.SubstitutionIsRefused` | packages/crypto/src/x3dh.ts:88-94 | A bundle that is accepted is refused once its signed prekey, its signing key or both are replaced |
| `X3dh.SecretBindsIdentities` | packages/crypto/src/x3dh.ts:82-154 | Against the signed prekey it was made for, the receiver derives the sender's secret if and only if it takes the sender's own identity and ephemeral key, owns the bundle's identity key and uses the bundle's one-time prekey or none; the associated data is the two identities, sender first |
| `X3dh.AgreedSessionsStartInLockstep` | packages/crypto/src/x3dh.ts:82-191 | The two sessions made from one agreement are the start of a lockstep run |
| `X3dh.BootstrapReceiverSession` | packages/crypto/src/x3dh.ts:156-191 | Agreement, receiving session and first decrypt give what the model gives; the session keeps no array that the final wipe zeroes; the one-time prekey used, if any, is reported as consumed, and only when the message was read |
| `SenderKey.SenderKeyEncrypt` | packages/crypto/src/sender-keys.ts:82-112 | The array code computes the model's encryption and writes to no array of the old state |
| `SenderKey.SenderKeyDecrypt` | packages/crypto/src/sender-keys.ts:114-202 | The array code computes the model's decryption on both paths; the caller's state keeps its value on success and failure |
| `SenderKey.AdvanceTo` | packages/crypto/src/sender-keys.ts:163-181 | The advance loop caches the key of every index passed and returns the key and chain key of the target |
| `SenderKeyChain.ReceivingStaysCanonical` | packages/crypto/src/sender-keys.ts:114-202 | After any stream, forgeries and refusals included, the chain key is the base advanced to `chainId` and the cache holds the right key of exactly the passed-over, unopened indices |
| `SenderKeyChain.OrderDoesNotMatter` | packages/crypto/src/sender-keys.ts:114-202 | Two streams, in any order, that open the same indices end in equal states |
| `SenderKeyChain.DeliveryWindow` | packages/crypto/src/sender-keys.ts:139-161 | In every reachable state a genuine message opens, to its own plaintext, if and only if its key is cached or its index is at least `chainId` with gap plus cache size at most 1000; equivalently, at most 1000 indices below it are unopened |
| `SenderKeyChain.DecryptExact` | packages/crypto/src/sender-keys.ts:114-202 | For any message at all: it opens to a plaintext if and only if it is signed by the sender, sealed under the key of its own index and header, and in the window |
| `SenderKeyChain.SignatureCovers` | packages/crypto/src/sender-keys.ts:114-217 | In any state, what opens is signed by the sender's key over the message's own distribution, chain and index modulo 2^32 and its own ciphertext, and sealed for the same (a message of the legacy version, for no associated data) |
| `SenderKeyChain.ReplacedCiphertextIsRefused` | packages/crypto/src/sender-keys.ts:120-128 | After any stream, a message that carries the signature of another ciphertext, or another signer's, is refused |
| `SenderKeyChain.AlteredHeaderIsRefused` | packages/crypto/src/sender-keys.ts:204-217 | After any stream, a sent message whose distribution, chain or index was changed, modulo 2^32, is refused |
| `SenderKeyChain.RefusalsAreExact` | packages/crypto/src/sender-keys.ts:114-202 | Which error a refused message gives, in the order the checks are made |
| `SenderKeyChain.SendingNeedsSigningKey` | packages/crypto/src/sender-keys.ts:82-112 | Without a signing key nothing is sent; with one, the message is the one of the state's index and the state moves one step |
| `SenderKeyChain.CachedPlusConsumed` | packages/crypto/src/sender-keys.ts:163-181 | Cached keys and opened indices together count the indices passed |
| `SenderKeyChain.SentInOrder` | packages/crypto/src/sender-keys.ts:82-112 | A sender's k-th message carries index start + k, under that index's key |
| `SenderKeyChain.OpenedAtMostOnce` | packages/crypto/src/sender-keys.ts:135-161 | After a message opened, nothing with its distribution and index ever opens again, whatever comes between |
| `SenderKeyChain.CacheStaysBounded` | packages/crypto/src/sender-keys.ts:159-161 | The cache never exceeds 1000 keys, whatever the messages |
| `SenderKeyRecords.StoredKeysOnlyMoveForward` | apps/web/src/lib/group-sender-key-decrypt-runtime.ts:180-201 | Over any interleaving of honest imports, live decrypts, mirrors, replays and flushes: the stored index never decreases, an initial state once set never changes and is never ahead of the state, and both stay points of the sender's chain |
| `SenderKeyRecords.ImportKeepsTheLater` | apps/web/src/lib/group-sender-key-distribution-runtime.ts:63-95 | An import leaves the stored state if its index is above the imported one and the imported state otherwise, keeps an initial state that exists, and touches no other record |
| `SenderKeyRecords.ImportOpensTheWindow` | apps/web/src/lib/group-sender-key-distribution-runtime.ts:63-95 | Right after the sender's point was imported, the live path opens exactly the sender's messages from the stored index, the imported one unless an earlier state was ahead of it, to 1000 beyond |
| `SenderKeyRecords.MirrorStartsOnce` | apps/web/src/lib/group-sender-key-local-runtime.ts:163-182 | A mirror starts a record at the sender's own point, for both states, and only where there is none |
| `SenderKeyRecords.FlushBringsForward` | apps/web/src/lib/group-sender-key-decrypt-runtime.ts:367-381 | In a run a flush brings exactly the records behind their replay up to it, keeping an initial state and otherwise taking the stored state for one |
| `SenderKeyRecords.ReplayIsFixedByInitialState` | apps/web/src/lib/group-sender-key-decrypt-runtime.ts:336-365 | However replays interleave with anything else, they answer as if run alone from the record's initial state (or from the replay's own state once begun) |
| `SenderKeyRecords.ReplayIsFixedExactly` | apps/web/src/lib/group-sender-key-decrypt-runtime.ts:347-354 | For any key, stored or not: replay answers are independent of all other operations if and only if the replay has begun or a record with an initial state is stored |
| `SenderKeyRecords.ReplayDependsOnImport` | apps/web/src/lib/group-sender-key-distribution-runtime.ts:63-95 | The counterexample where neither holds: an import between two replays of one envelope turns a refusal into its content |
| `SenderKeyRecords.LegacyReplayDependsOnLiveTraffic` | apps/web/src/lib/group-sender-key-decrypt-runtime.ts:180-201 | The counterexample for a record without an initial state: one live decrypt makes a later replay of the same message fail |
| `SenderKeyRecords.LiveOpensOnlyAhead` | apps/web/src/lib/group-sender-key-decrypt-runtime.ts:252-288 | A live decrypt opens exactly the authentic messages at or ahead of the stored index with a gap of at most 1000, and stores the index after it |
| `SenderKeyRecords.LiveOpensExactly` | apps/web/src/lib/group-sender-key-decrypt-runtime.ts:252-288 | On a record of the sender's chain the live path opens exactly the sender's own messages from the stored index to 1000 beyond it |
| `SenderKeyRecords.EnvelopeNamesItsRecord` | apps/web/src/lib/group-sender-key.ts:38-40 | The record an envelope is read with is that of its own group, sender device and distribution |
| `SenderKeyRecords.RemoteKeyStore.DecryptEnvelope` | apps/web/src/lib/group-sender-key-decrypt-runtime.ts:203-288 | The live path: its answer, and the record saved even when the payload does not parse |
| `SenderKeyRecords.RemoteKeyStore.SaveRemoteSenderKeyState` | apps/web/src/lib/group-sender-key-decrypt-runtime.ts:180-201 | Saving keeps an initial state that exists |
| `SenderKeyRecords.RemoteKeyStore.ImportSenderKeyDistribution` | apps/web/src/lib/group-sender-key-distribution-runtime.ts:63-95 | An older import only backfills a missing initial state; any other replaces the state |
| `SenderKeyRecords.RemoteKeyStore.EnsureSelfRemoteSenderKeyState` | apps/web/src/lib/group-sender-key-local-runtime.ts:163-182 | The sender's own mirror is written only when absent |
| `SenderKeyRecords.RemoteKeyStore.DecryptForHistory` | apps/web/src/lib/group-sender-key-decrypt-runtime.ts:336-365 | A replay writes only its own context, never a record |
| `SenderKeyRecords.RemoteKeyStore.FlushGroupHistoryReplayContext` | apps/web/src/lib/group-sender-key-decrypt-runtime.ts:367-381 | The flush loop brings forward exactly the replayed records that are behind and touches no other |
| `SenderKeyRecords.FlushAllIsFlushOf` | apps/web/src/lib/group-sender-key-decrypt-runtime.ts:367-381 | What the flush promises fixes every record after it |
| `SenderKeyLock.LockIsAFairMutex` | apps/web/src/lib/group-sender-key-lock-runtime.ts:46-67 | Over every interleaving of requests, starts and releases: at most one call per key in its section, in request order, never stuck, and the map entry is gone exactly when the queue is empty |
| `SenderKeyLock.RunsStayQueued` | apps/web/src/lib/group-sender-key-lock-runtime.ts:46-67 | Each promise chain is the queue of the calls not yet released |
| `SenderKeyLock.SettledMeansFirst` | apps/web/src/lib/group-sender-key-lock-runtime.ts:46-58 | The promise a call waits for has settled exactly when the call is first in its queue |
| `SenderKeyLock.OneHolderInRequestOrder` | apps/web/src/lib/group-sender-key-lock-runtime.ts:57-66 | A call that holds or has held the lock has only finished calls ahead of it |
| `SenderKeyLock.SomeoneCanMove` | apps/web/src/lib/group-sender-key-lock-runtime.ts:46-67 | While calls are queued, the first of them holds the lock or can take it |
| `SenderKeyLock.FreeLockIsTaken` | apps/web/src/lib/group-sender-key-lock-runtime.ts:46-67 | Wherever a run stands, a call for a key nobody waits for gets the lock at once and can give it back |
| `SenderKeyLock.LockTable.Request` | apps/web/src/lib/group-sender-key-lock-runtime.ts:51-57 | What a call does to the map before it waits |
| `SenderKeyLock.LockTable.Release` | apps/web/src/lib/group-sender-key-lock-runtime.ts:61-65 | What it does when its section ends, by return or exception |
| `LocalSenderKeys.IssuedIdsAreConsecutive` | apps/web/src/lib/group-sender-key.ts:124-215 | Over every interleaving of encrypt, rotate and mark calls, one storage access at a time and with exceptions before any save: the i-th envelope issued for a distribution carries the index of the record the device started with, or 0 for a distribution made since, plus i |
| `LocalSenderKeys.MessageKeysAreUnique` | apps/web/src/lib/group-sender-key.ts:124-215 | No two envelopes ever issued, of one distribution or two, are sealed under the same key |
| `LocalSenderKeyRuns.CallsReturnInRequestOrder` | apps/web/src/lib/group-sender-key.ts:124-215 | Every envelope a call returns was issued, its record saved first, for the group and device of the call; of two calls that return envelopes of one distribution, the one that asked first has the lower index, so no two return the same |
| `LocalSenderKeyRuns.DistributionsServeOneMemberSet` | apps/web/src/lib/group-sender-key-local-runtime.ts:246-329 | Between any two states of a run: a stored record that stays on its distribution keeps its member set once stamped, and its index and recipients only grow; a record that leaves a distribution never returns to it |
| `LocalSenderKeyRuns.RotationEndsTheDistribution` | apps/web/src/lib/group-sender-key-local-runtime.ts:246-297 | Once a section for another member set has saved its record, nothing is issued on the old distribution any more, by calls already waiting or by later ones |
| `LocalSenderKeyRuns.SenderReadsBackWhatItSent` | apps/web/src/lib/group-sender-key-local-runtime.ts:163-234 | The device holds a mirror of every distribution it issued on; a history replay of all those envelopes, interleaved with anything, gives back all their plaintexts in order if and only if the mirror starts at most 1000 indices below the first, and for a distribution made during the run it starts at the first |
| `LocalSenderKeyRuns.AloneItIsTheCode` | apps/web/src/lib/group-sender-key-local-runtime.ts:201-329 | From any reachable state a call that meets nobody on its key runs to its end, and stores, mirrors, issues and returns what the code does when it is run alone |
| `LocalSenderKeys.RunsStaySound` | apps/web/src/lib/group-sender-key-local-runtime.ts:201-329 | A section between its load and its save always holds the record that is stored, and every record, seed and issued envelope stays in step |
| `LocalSenderKeys.OnlyHolder` | apps/web/src/lib/group-sender-key-local-runtime.ts:246-329 | At most one section per group and device is between its load and its save |
| `LocalSenderKeys.RotationFollowsMembership` | apps/web/src/lib/group-sender-key-local-runtime.ts:246-297 | The one-section fact beside the run theorems: the record left is stamped with exactly the non-empty device ids given; it is a new distribution with a new chain at index 0 and no recipients if and only if the recorded set was another one, and otherwise the same record |
| `LocalSenderKeys.MarkAddsRecipients` | apps/web/src/lib/group-sender-key-local-runtime.ts:299-329 | After a mark the recipients are the old ones and the given ones when the distribution is the record's own; for another distribution nothing changes |
| `LocalSenderKeys.LocalKeyStore.LoadOrCreateLocalSenderKeyRecord` | apps/web/src/lib/group-sender-key-local-runtime.ts:201-234 | The stored record, or a new one at index 0, saved; its mirror written among the remote records if it had none |
| `LocalSenderKeys.LocalKeyStore.EnsureForMemberDevices` | apps/web/src/lib/group-sender-key-local-runtime.ts:246-297 | Keeps, stamps or rotates the record by the member fingerprint; mirrors the record found, and the new one after a rotation |
| `LocalSenderKeys.LocalKeyStore.MarkSenderKeyDistributedToDevices` | apps/web/src/lib/group-sender-key-local-runtime.ts:299-329 | Adds recipients to the same distribution only, having mirrored the record; no recipients, no access |
| `LocalSenderKeys.LocalKeyStore.EncryptGroupEnvelope` | apps/web/src/lib/group-sender-key.ts:124-215 | One envelope, and the record, mirrored before, moved one step |
| `CallIndex.StoreIsTheSimpleMap` | apps/api/src/services/call-routing-state.ts:572-777 | After any run with a clock that never goes back, every answer is the one a plain map with expiry would give: `listByDevice(d)` is each live call d takes part in, once, and nothing else; the local maps and Redis agree |
| `CallIndex.CallsOfDeviceMeaning` | apps/api/src/services/call-routing-state.ts:743-768 | One `listByDevice`, with its tidying, in any sound state |
| `CallIndex.ParticipantsAreParties` | apps/api/src/services/call-routing-state.ts:338-345 | Who takes part in a call: the caller's device and, once a callee device is selected, that one, until then every device the offer was made to |
| `CallIndex.WithSessionMeaning` | apps/api/src/services/call-routing-state.ts:728-737 | One `set`: the indexes of every old and new participant stay right |
| `CallIndex.WithoutSessionMeaning` | apps/api/src/services/call-routing-state.ts:770-775 | One `delete` |
| `CallIndex.LoadSessionMeaning` | apps/api/src/services/call-routing-state.ts:705-725 | One `get`, with its lazy expiry |
| `CallIndex.TimeKeepsSound` | apps/api/src/services/call-routing-state.ts:609-627 | Passing time alone never makes cache and Redis disagree |
| `CallRestarts.RestartsLoseNothing` | apps/api/src/services/call-routing-state.ts:605-777 | Over any run with process restarts anywhere, which lose the local maps and keep Redis: until its TTL runs out a session that was set is found, and is listed for every device taking part in it; and what is found or listed, then or later, is the last session set, never a deleted or replaced one |
| `CallRestarts.ReadAfterRestartProlongs` | apps/api/src/services/call-routing-state.ts:705-718 | The counterexample to more: a session read after a restart is found beyond its TTL, while the lists of its devices have forgotten it |
| `CallRestarts.ReadsFallThrough` | apps/api/src/services/call-routing-state.ts:609-617 | Which copy a read takes, and what it does to the store: a live local one, else a readable one in Redis, cached for a full TTL; an unreadable one is deleted |
| `CallRestarts.IndexReadsFallThrough` | apps/api/src/services/call-routing-state.ts:619-654 | The same for the index of a device, with each id once |
| `CallSessions.CallSessionStore.Set` | apps/api/src/services/call-routing-state.ts:728-737 | The code computes the store's `set` |
| `CallSessions.CallSessionStore.Delete` | apps/api/src/services/call-routing-state.ts:770-775 | The code computes the store's `delete` |
| `CallSessions.CallSessionStore.GetSession` | apps/api/src/services/call-routing-state.ts:705-725 | The code computes the store's read, unreadable Redis values included |
| `CallSessions.CallSessionStore.ListByDevice` | apps/api/src/services/call-routing-state.ts:743-768 | The filtering loop computes the store's list |
| `CallSessions.CallSessionStore.UpdateDeviceIndexes` | apps/api/src/services/call-routing-state.ts:675-703 | The loop over old and new participants |
| `CallSessions.CallSessionStore.ReadDeviceIndex` | apps/api/src/services/call-routing-state.ts:629-654 | Local index first, then Redis, deduplicated; unreadable values deleted |
| `CallSessions.CallSessionStore.WriteDeviceIndex` | apps/api/src/services/call-routing-state.ts:656-673 | Both copies written with one expiry, or both removed |
| `CallLifecycle.OneWinnerPerCall` | apps/api/src/services/call-routing-state.ts:963-1380 | With only the row transition atomic and any session observed: at most one answer succeeds, at most one change to a terminal status commits, the history is ringing, then active and ended, or one terminal status; `answered_at` is set exactly when active was reached, `ended_at` exactly when terminal |
| `CallLifecycle.MutationsAreForward` | apps/api/src/services/call-routing-state.ts:963-1380 | A terminal row is never moved, an active one only to ended, and an answer wins exactly when it moves the row to active |
| `CallLifecycle.MutationsAreExact` | apps/api/src/services/call-routing-state.ts:963-1380 | For any row and any session observed, which move each transition makes: who may answer, reject, hang up or clean up, in which status, and to which status |
| `CallLifecycle.WinnerIsSelected` | apps/api/src/services/call-routing-state.ts:1017-1043 | A winning answer leaves its own device selected in the session it saw and stops exactly the other offered devices from ringing |
| `CallLifecycle.TimestampsAreExact` | apps/api/src/services/call-routing-state.ts:520-570 | Over every interleaving: `answered_at` and `ended_at` are the times the row first became active and first became terminal, a time that was there is kept, and no other column of a row changes |
| `CallTransport.EndedCallsLeaveNoTransport` | apps/api/src/services/call-routing-state.ts:892-1406 | After any run of lifecycle operations a terminal call has no session and is in no device's list, and an active call's session names one of its offered devices |
| `CallTransport.SelectionNeverChanges` | apps/api/src/services/call-routing-state.ts:892-1406 | From the moment a call is active its session stays what it is or disappears |
| `CallTransport.RunsAreGood` | apps/api/src/services/call-routing-state.ts:892-1406 | Every operation keeps rows and sessions in agreement |
| `CallTransport.DisconnectEndsItsCalls` | apps/api/src/services/call-routing-state.ts:1262-1380 | A disconnect ends and reports every call the device is in as caller or as the answering callee |
| `CallTransport.AnswerSelectsTheActor` | apps/api/src/services/call-routing-state.ts:963-1054 | An answer succeeds if and only if the call rings, the actor is its callee and a live offer was made to the device; the call is then active on that device, and exactly the other offered devices are to be told |
| `CallTransport.FailedAnswersAreExact` | apps/api/src/services/call-routing-state.ts:963-1054 | Why an answer fails, and that only one that finds no offer changes anything: the call is then missed and its session dropped |
| `CallTransport.OfferReachesEveryDevice` | apps/api/src/services/call-routing-state.ts:916-961 | An offer is stored if and only if the call rings, one to one, between that caller and callee and of that kind; it is offered to every device of the callee, once each, and the call is then listed for the caller's device and for all of those |
| `CallTransport.RefusedOffersAreExact` | apps/api/src/services/call-routing-state.ts:916-961 | Why an offer is refused, and which refusals drop the session |
| `CallTransport.RejectionTellsTheOthers` | apps/api/src/services/call-routing-state.ts:1056-1165 | A rejection succeeds if and only if the callee of a ringing call rejects on a device it was offered to (any device, where the session names none); the call is then rejected, its session gone, the caller told, and exactly the other offered devices |
| `CallTransport.ReconnectGetsOpenOffers` | apps/api/src/services/call-routing-state.ts:1382-1406 | A reconnecting device is sent exactly the offers still open to it, each once, with the caller's device and the offer as stored |
| `CallTransport.LoadIsExact` | apps/api/src/services/call-routing-state.ts:893-914 | A session is handed out if and only if the call is one to one, in an allowed status, and the session is between its users and of its kind; which error otherwise, and when the session is dropped |
| `CallTransport.CleanupIsExact` | apps/api/src/services/call-routing-state.ts:1262-1380 | One call of a disconnected device is ended if and only if it is not over and the device is in it or no session says who is; the role, the new status and the devices told |
| `CallTransport.StepsStampTheirTime` | apps/api/src/services/call-routing-state.ts:520-570 | Every lifecycle operation stamps a row it moves with its own time and changes nothing else of it |
| `CallTransport.HangupTellsTheOtherSide` | apps/api/src/services/call-routing-state.ts:1167-1260 | A hangup ends the call if and only if one of its two users hangs up a call not yet ended; it is missed or ended by who hung up and when. The targets are exactly the device at the other end of an active call, every offered device of a ringing one, or, where no session names a device, every device of the other user, each once |
| `CallTransport.ParticipantIsListed` | apps/api/src/services/call-routing-state.ts:338-345 | A device in a call is in the list the disconnect handler works through |
| `CallManager.DirectCallLifecycleManager.AcceptAnswer` | apps/api/src/services/call-routing-state.ts:963-1054 | On rows and live store: every outcome of an answer |
| `CallManager.DirectCallLifecycleManager.RejectCall` | apps/api/src/services/call-routing-state.ts:1056-1165 | Every outcome of a rejection |
| `CallManager.DirectCallLifecycleManager.HangupCall` | apps/api/src/services/call-routing-state.ts:1167-1260 | Every outcome of a hangup |
| `CallManager.DirectCallLifecycleManager.CleanupDisconnectedDevice` | apps/api/src/services/call-routing-state.ts:1262-1380 | The loop over the listed calls |
| `CallManager.DirectCallLifecycleManager.ReplayPendingOffers` | apps/api/src/services/call-routing-state.ts:1382-1405 | The loop over the listed calls, replaying only offers still open to the device |
| `CallManager.DirectCallLifecycleManager.StoreOffer` | apps/api/src/services/call-routing-state.ts:916-961 | Every outcome of storing an offer |
| `CallManager.DirectCallLifecycleManager.LoadAuthoritativeSession` | apps/api/src/services/call-routing-state.ts:893-914 | Every outcome of loading a session |
| `CallManager.DirectCallLifecycleManager.PersistAuthorityStatus` | apps/api/src/services/call-routing-state.ts:520-570 | The status write: nothing if the status is the same, otherwise the status and, where none was set, the time it became active or terminal |
| `CallManager.DirectCallLifecycleManager.ListByDevice` | apps/api/src/services/call-routing-state.ts:743-768 | Exactly the live calls of the device, each once |
| `HttpRateLimit.LeastBoundIsExact` | apps/sfu/src/http-rate-limit.ts:40-85 | Over all runs in time order from an empty map, the numbers that bound every half-open interval of length `windowMs` are exactly those from 2 * L - 1 up, where L is max(`maxRequests`, 1) (from L up for a window of 1 ms, from 0 for an empty one) |
| `HttpRateLimit.LessThanTwiceTheLimit` | apps/sfu/src/http-rate-limit.ts:40-85 | For a clock that never goes back, every half-open interval of length `windowMs` holds at most 2 * max(`maxRequests`, 1) - 1 allowed requests of a key |
| `HttpRateLimit.BoundIsReached` | apps/sfu/src/http-rate-limit.ts:40-85 | A run in which one such interval holds that many |
| `HttpRateLimit.TwiceTheConfiguredLimitExactly` | apps/sfu/src/http-rate-limit.ts:40-85 | Twice the configured limit is a bound if and only if `maxRequests` is at least 1 or the window is empty |
| `HttpRateLimit.DeniedExactly` | apps/sfu/src/http-rate-limit.ts:43-77 | A request is refused if and only if its window is spent, or its key is new and unexpired windows fill the map |
| `HttpRateLimit.DecisionIsExact` | apps/sfu/src/http-rate-limit.ts:43-85 | What the caller is told: a refused key has nothing left and waits for the end of its window, or a whole window where the map is full; an allowed one need not wait and has left what its window leaves |
| `HttpRateLimit.RefusedUntilRetry` | apps/sfu/src/http-rate-limit.ts:72-77 | A spent key is refused until the retry time it was given, whatever requests come between |
| `HttpRateLimit.LetThroughAtRetryExactly` | apps/sfu/src/http-rate-limit.ts:43-77 | At the retry time it was given a refused key is let through, after any requests in between that did not open its next window, if and only if it still has an entry or unexpired windows leave room in the map |
| `HttpRateLimit.RetryCanBeLostToANewKey` | apps/sfu/src/http-rate-limit.ts:49-66 | The counterexample: with the map full, a new key that comes first takes the place, and the key that waited is refused again |
| `HttpRateLimit.RemainingIsExact` | apps/sfu/src/http-rate-limit.ts:62-84 | After a request is allowed, and through any requests before its window ends, exactly as many more of the key are let through as the remaining count said, and the rest are refused |
| `HttpRateLimit.MapStaysBounded` | apps/sfu/src/http-rate-limit.ts:49-66 | The map never exceeds its cap |
| `HttpRateLimit.FixedWindowRateLimiter.Check` | apps/sfu/src/http-rate-limit.ts:40-85 | The code on mutable buckets computes the model's decision and new value |
| `HttpRateLimit.FixedWindowRateLimiter.Prune` | apps/sfu/src/http-rate-limit.ts:87-93 | The sweep loop keeps exactly the unexpired buckets |
| `RateWindows.RequestAdmitted` | apps/sfu/src/http-rate-limit.ts:72-84 | Admitting one more request inside an open window keeps every interval within the least bound |
| `WsRateLimit.LeastBoundIsExact` | apps/api/src/services/ws-rate-limit.ts:39-105 | The numbers that bound, over all runs in time order, how many messages of a class get through in any interval of a window's length since the socket's last clear are exactly those from 2 * L - 1 up, where L is the class's limit (from L up for a window of 1 ms, from 0 for an empty window or a limit of zero or less) |
| `WsRateLimit.LessThanTwiceTheLimit` | apps/api/src/services/ws-rate-limit.ts:39-105 | Between clears of a socket, every interval of a window's length holds less than twice the class's limit |
| `WsRateLimit.ConsumedStaysMetered` | apps/api/src/services/ws-rate-limit.ts:39-63 | One consumption keeps a bucket's tokens and refill time in step with what was admitted |
| `WsRateLimit.ClearedSocketIsNew` | apps/api/src/services/ws-rate-limit.ts:101-104 | A cleared socket is answered as one never seen, and no other socket notices |
| `WsRateLimit.ConsumeFromBucket` | apps/api/src/services/ws-rate-limit.ts:39-63 | The code on mutable buckets computes the model's consumption |
| `WsRateLimit.WsRateLimiter.Consume` | apps/api/src/services/ws-rate-limit.ts:81-99 | The message class picks the map; the other map is untouched |
| `WsRateLimit.WsRateLimiter.Clear` | apps/api/src/services/ws-rate-limit.ts:101-104 | Both buckets of a socket go |
| `RoomModel.IndexesStayExact` | apps/sfu/src/room-state.ts:94-272 | Over any run of operations on peers of the room with ids no other peer holds: each owner map is the union of what the peers hold, and source entries belong to owned producers |
| `RoomModel.AttachKeepsExact` | apps/sfu/src/room-state.ts:135-178 | Attaching keeps the maps exact if and only if no other peer holds the id |
| `RoomModel.RemoveKeepsExact` | apps/sfu/src/room-state.ts:214-240 | Removing keeps them exact if and only if no other peer holds the id |
| `RoomModel.FindIsExact` | apps/sfu/src/room-state.ts:180-212 | In an exact room a lookup finds the one peer holding the id and changes nothing |
| `RoomModel.CloseKeepsExact` | apps/sfu/src/room-state.ts:242-272 | Closing peers keeps the maps exact |
| `RoomModel.SweepRemovesOnlyExpired` | apps/sfu/src/room-state.ts:284-290 | A sweep removes exactly the expired peers of a room and leaves the others as they were |
| `RoomModel.GoesExactly` | apps/sfu/src/room-state.ts:292-296 | With a non-negative room TTL a room is removed if and only if it was already empty and inactive for long enough |
| `RoomModel.EmptiedRoomIsSparedExactly` | apps/sfu/src/room-state.ts:292-296 | A room emptied by the sweep is spared if and only if the room TTL is non-negative |
| `RoomModel.SecondSweepIsNoOp` | apps/sfu/src/room-state.ts:274-299 | A second sweep at the same time changes and counts nothing |
| `RoomState.RoomRegistry.CleanupStaleRooms` | apps/sfu/src/room-state.ts:274-299 | The nested loops on live records compute the sweep, and count the peers and rooms removed |
| `RoomState.Room.ClosePeer` | apps/sfu/src/room-state.ts:242-272 | The closing loops drop the peer and every index entry of what it held |
| `RoomModel.SameKeyExactly` | apps/sfu/src/room-state.ts:88-92 | For ids without a colon, two identities share a peer if and only if they agree on the user and on the trimmed device and session, an absent or blank one standing for its default |
| `RoomModel.TrimmedExactly` | apps/sfu/src/room-state.ts:89-90 | Trimming leaves exactly what stands between the first and the last character that is not white space |
| `RoomModel.BlankCharacters` | apps/sfu/src/room-state.ts:89-90 | The characters trimmed are the white space and line terminators of ECMAScript and no others |
| `RoomModel.CleanedHasSameKey` | apps/sfu/src/room-state.ts:109-113 | The ids a peer record keeps are the trimmed ones, absent when blank, and give back its key |
| `RoomModel.PeersStayFiled` | apps/sfu/src/room-state.ts:94-121 | Over any run every peer is filed under the key that its own stored ids give |
| `RoomModel.TimesAreOfTheLastUse` | apps/sfu/src/room-state.ts:123-178 | Over any run the times a sweep goes by are right: a peer was last seen when it was last asked for or given something to hold, a room last active then or when a peer was closed |
| `RoomModel.SourcesFollowProducers` | apps/sfu/src/room-state.ts:148-165 | A producer has the source it was last attached with, or none, until it is removed or its peer is closed; no other operation touches it |
| `RoomState.RoomRegistry.AddRoom` | apps/sfu/src/sfu-server.ts:208-213 | A new empty room takes its place in the registry, the others untouched |
| `RoomState.RoomRegistry.Join` | apps/sfu/src/sfu-server.ts:323-325 | A peer joins one room of the registry; the other rooms are untouched and the registry stays in order over one peer more |
| `RoomState.RoomRegistry.RoomWorkKeepsValid` | apps/sfu/src/room-state.ts:94-272 | Work inside one room that leaves the other rooms alone keeps the registry in order and changes the value of that room only |
| `RoomState.Room.GetOrCreatePeer` | apps/sfu/src/room-state.ts:88-121 | The room's peer of that identity, its ids trimmed, touched, or a new one with nothing |
| `RoomState.Room.AttachTransport` | apps/sfu/src/room-state.ts:135-146 | Both sides of the index written, peer and room touched |
| `RoomState.Room.AttachProducer` | apps/sfu/src/room-state.ts:148-165 | The same, with the source set or cleared |
| `RoomState.Room.AttachConsumer` | apps/sfu/src/room-state.ts:167-178 | The same for consumers |
| `RoomState.Room.FindPeerByTransport` | apps/sfu/src/room-state.ts:180-195 | The holder, or null with the stale entry removed |
| `RoomState.Room.FindPeerByConsumer` | apps/sfu/src/room-state.ts:197-212 | The same for consumers |
| `RoomState.Room.RemoveTransport` | apps/sfu/src/room-state.ts:214-221 | Both sides of the index cleared |
| `RoomState.Room.RemoveProducer` | apps/sfu/src/room-state.ts:223-231 | The same, with the source |
| `RoomState.Room.RemoveConsumer` | apps/sfu/src/room-state.ts:233-240 | The same for consumers |
| `DirectEnvelope.EnvelopeRoundTripExactly` | apps/web/src/lib/direct-envelope.ts:25-86 | Decoding an encoded envelope gives the same values with version 1 if and only if the key has 32 bytes, both counters are 32-bit and the body is not empty |
| `DirectEnvelope.WireLayout` | apps/web/src/lib/direct-envelope.ts:66-73 | The bytes on the wire: the key in the first 32, the two counters in four bytes each, most significant first, modulo 2^32, then the ciphertext |
| `DirectEnvelope.DecodeOfEncode` | apps/web/src/lib/direct-envelope.ts:25-86 | What comes back for any input: counters modulo 2^32, the key cut or zero-filled to 32 bytes, and a refusal of an empty body |
| `DirectEnvelope.DecodesExactly` | apps/web/src/lib/direct-envelope.ts:25-61 | A text decodes if and only if its payload carries an envelope and it has no version prefix, or one whose number is 1, leading zeros allowed; the version reported says which |
| `DirectEnvelope.RefusalsAreExact` | apps/web/src/lib/direct-envelope.ts:25-61 | Why a text is refused: a version of zero or too large for a number, a version other than one, a payload that is no base64, or one shorter than a header and a byte |
| `DirectEnvelope.LegacyIsNeverVersioned` | apps/web/src/lib/direct-envelope.ts:25-33 | A bare base64url payload is never taken for a versioned one and decodes to its own bytes as version 0 |
| `DirectEnvelope.EncodeDirectEnvelope` | apps/web/src/lib/direct-envelope.ts:66-73 | The array code, writing at its offsets, computes the encoding |
| `DirectEnvelope.Uint32RoundTrip` | apps/web/src/lib/direct-envelope.ts:53-54 | A big-endian field keeps its value modulo 2^32 |
| `Base64Url.RoundTrip` | packages/crypto/src/keys.ts:169-183 | Decoding undoes encoding for every byte string (RFC 4648, section 5, without padding) |
| `Base64Url.EncodingIsPlain` | packages/crypto/src/keys.ts:169-173 | The encoding is written in the url alphabet, with no padding left |
| `Base64Url.ToBase64Url` | packages/crypto/src/keys.ts:169-173 | The accumulator loop computes the encoding |
| `Base64Url.FromBase64Url` | packages/crypto/src/keys.ts:175-183 | The array loop computes the decoding, or fails |
| `JsonBounds.IsBoundedJson` | packages/protocol/src/common.ts:25-52 | The explicit-stack loop returns true if and only if the recursively counted nodes are at most 10 000 and the depth at most 32, and pops at most 10 001 values on any input |

## Left out

- Bodies of HKDF, HMAC, AES-GCM, X25519 and Ed25519: ideal terms stand for them, so weak or malformed public keys and verification errors other than "does not verify" are not distinguished.
- The skipped-key store inside one DH epoch is not bounded by the code, which collects only at a DH step; the bound proved is the one after such a step.
- Serialisation of ratchet and sender-key states, `clearRatchetState`, and zeroing of memory as a goal of its own: `fill(0)` is modelled where it could reach a state that lives on.
- In `skipMessageKeys` the check for a missing remote key comes after the distance check; no reachable state tells the two orders apart, and the model makes one check.
- Sender-key states and records of the storage layer are values: the stored form is text, and the array code is shown never to write to a state its caller holds.
- Payload parsing of group messages is a parameter; text and attachment variants share one method.
- Web Locks, several tabs and IndexedDB failures in the middle of a save: a save either happens or throws before it.
- The member fingerprint is the set of non-empty device ids, not its sorted and joined text.
- Interleaving inside one session-store operation or one lifecycle operation, and several API instances: the store and transport theorems take those operations as atomic in one process; the one-winner theorem and the lock do not. The transport theorems are about a process that has not restarted.
- Redis rejects a TTL of zero, so the store theorems assume a positive one; values other processes write under its keys are modelled only as unreadable text.
- A call id that begins with `device:` would share a Redis key with an index; the two key spaces are kept apart here.
- Routing of messages to devices, message builders and validators: results carry the target devices instead.
- Row creation, push notifications and everything else that writes call rows: a new row is ringing and has a new id.
- `close()` on mediasoup objects and its errors, routers, and the caps on rooms, peers and transports. `AddRoom` is what follows the wait for a router; two requests for one missing room both reach it, and the later room replaces the earlier.
- Default limits of the WebSocket limiter are parameters.
- Message counters are unbounded naturals in the states; they are taken modulo 2^32 where they are encoded.
- JSON values with cycles: the model's values are finite trees; object keys do not count as nodes in the code either.
- Strings of UTF-16 units: characters outside ASCII make base64 decoding fail in both readings.
- `sfu-server.ts`, the WebSocket call router, presence, refresh rotation, trust store and route parsing: more members of the same kinds of claim.
