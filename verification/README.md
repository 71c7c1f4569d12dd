# Verified model of a confidential compute service

A DON (a group of oracle nodes) sends signed compute requests to an enclave. An untrusted host in
front of the enclave gathers the requests into batches, dispatches a batch when enough different
signers ask for the same thing, and answers everyone who is waiting. The enclave checks each batch
again, keeps a record of what it has executed, and changes its configuration only by votes of the
signers it has. Inside the enclave an application asks relay nodes for results and believes what
enough of them agree on. This project models that protocol and the data structures and encodings it
rests on, and proves what holds in every run.

Check the whole project with `dafny verify dfyconfig.toml` (Dafny 4.11).

## How it is built

State machines are written twice. A value-level step function (`CacheModel`, `HostModel`,
`ConfigModel`, `System`, `KeychainModel`, `LruModel`) carries the theorems about whole runs. Beside it
stands the object the source has: a class whose methods update fields in place, each proved to do to
the abstract value exactly what the step function does. An event of a run is one critical section, so
a theorem about all runs is a theorem about all interleavings of the goroutines.

| file | what it holds |
|---|---|
| `Bytes.dfy`, `Crypto.dfy` | byte strings and their order; digests and first-match signature checking |
| `Cache.dfy` | the TTL cache with batch eviction: values, object, runs |
| `Encoding.dfy`, `Preimages.dfy`, `PreimageTheorems.dfy`, `Payload.dfy`, `Layout.dfy` | hash preimages and signature payloads, their writers, their decoders, where each field stands |
| `Protocol.dfy` | batch checks and quorum thresholds shared by host and enclave |
| `ConfigChain.dfy`, `ConfigLedger.dfy`, `EnclaveServer.dfy` | the enclave's configuration, the ledger of votes it behaves like, its request handler, the host's copy of the configuration |
| `Host.dfy`, `HostServer.dfy` | the host's batching: values, objects |
| `HostService.dfy` | what an arrival, a timer and a completion do in every run |
| `HostTheorems.dfy`, `HostFate.dfy`, `HostQuorum.dfy`, `HostDispatch.dfy` | who is answered with what, what becomes of a batch, what a dispatch holds, when a batch is dispatched |
| `Composition.dfy`, `Execution.dfy`, `Replay.dfy` | host and enclave running together; what stands behind an output; what a lost execution record allows |
| `Deployment.dfy` | a concrete deployment for the runs that show what can go wrong |
| `Relay.dfy`, `Secrets.dfy` | the vote over relay responses, the ordering of relayed secrets |
| `Keychain.dfy`, `KeychainPasses.dfy` | keypair rotation and the pinning of requests to keypairs; whole calls and sweeps from single steps |
| `Cpu.dfy`, `Lru.dfy`, `Selector.dfy` | CPU utilization across two processes, the binary cache, the choice of an enclave |

What is abstract:

- SHA-256 is a function parameter wherever bytes are hashed, and a theorem that needs it to be injective
  says "or these two inputs collide". Only the fingerprints of signer keys, which the source keeps in
  sets, use a free constructor: counts of signers assume that no two signer keys collide. A collision
  would make the code count fewer signers than there are, never more.
- `ed25519.Verify` is a function parameter; no general theorem depends on what it accepts, and only the
  example deployment fixes it.
- Time is an integer argument of each operation. The clock never runs back where a theorem says so.
- The application, the attestor, the storage service and the wire are arguments: what they answer is arbitrary.
- Goroutine interleaving is the order of events in a run; channels record what was delivered and dropped.

## Main results

- Host and enclave together: in every run at most one dispatch of a hash is in flight, two unfinished
  handlers never share a hash although the enclave checks and marks in separate critical sections, and
  the application is never called for a hash with a live record (`Composition`). Every output the host
  hands on was executed with success and recorded, for a batch that more than `F` signers of the config
  then in force had asked for (`Execution`).
- Replay: an executed hash is not executed again within its record's lifetime unless `max - max/10`
  hashes were entered after it. Within the lifetime a record is missing if and only if a later record
  displaced it, so every repetition comes after such a displacement. For every capacity there is a run that executes a hash twice
  at one moment (`Replay`).
- Configuration: a config is set exactly when there was a POST, and the server, with its cache of votes,
  replies as a plain ledger of voters does (`ConfigLedger`). Without reconfiguration every change is backed by more than `F` signers of the
  configuration it replaces, each of whom voted, under it, for exactly the new one. With
  reconfiguration, pending votes stay current if and only if each POST lists the pending voters; if
  not, a change can be applied with one current signer where two are asked for (`ConfigChain`).
- Waiters: under every interleaving of arrivals, completions, stale timers, shutdown and expiry, nobody
  is answered twice, no answer is dropped, and an output is always that of a completed dispatch of the
  right hash. While the clock does not run back, a batch is answered if and only if it has left the
  pending cache and its entry never expired; of one whose entry expired no waiter ever gets an answer. A
  completion reaches its own batch if and only if that batch's entry is there and live
  (`HostInvariants`, `HostAnswers`, `HostFate`, `HostQuorum`). What each arrival, timer and completion
  does is exact in the entries it finds, and a success is served from the cache for its whole lifetime
  (`HostService`).
- Dispatch: however `F` changes, a batch is dispatched exactly at the sizes that equal the threshold of
  the config under which it reached them, once each. So a batch whose requests agree on `F` is
  dispatched at most once; a rising `F` can dispatch it twice, a falling one strand it (`HostDispatch`).
- The relay vote is a function of the set of valid votes, goes to the largest group, and is right with up
  to `F` faulty signers.
- The host's config follows the enclave's as responses arrive, and is recovered after a restart.
- A published CPU utilization is off the true share by less than 2 divided by the seconds measured.
- Preimages of six message kinds decode uniquely, across kinds too; a legacy and a current request share
  a preimage exactly when stated.
- Keys: in every interleaving of calls, rotations, sweeps and collections a request's keypair stays
  retrievable and usable until `E - R` after the list of keys was read. Counted from the pin the same
  holds if and only if the granted keypair was at most `R` old at the pin, as it was when no rotation
  came between.
- Cache collection is invisible to callers if and only if the cache is unbounded or has one slot.

Three source comments say something else than the code, and the model follows the code. The selector
is said to use the hash of the request ID, but it uses the request ID itself as a number
(enclave-client/enclave-selector/round_robin_enclave_selector.go:18-20). The binary cache is called
size-bounded, but a single binary larger than the bound is still cached
(enclave/apps/confidential-workflows/app/fetcher.go:15-18 and 121-130). The equality test on the batch
size is said to rule out a second dispatch, which it does only while `F` does not change
(enclave/nitro/host/host.go:614-617).

## Model

| member | source | states |
|---|---|---|
| `TtlCache.Cache.constructor` | util/cache.go:44-61 | a new cache is empty and well formed under its cap |
| `TtlCache.Cache.Set` | util/cache.go:84-116 | in place, exactly the value-level store: an overwritten key keeps its position, a new one is appended, overflow drops the oldest keys |
| `TtlCache.Cache.Evict` | util/cache.go:102-115 | the loop deletes exactly the keys of the dropped prefix from the map |
| `TtlCache.Cache.GetOrSet` | util/cache.go:72-81 | first writer wins while the entry is live; otherwise stores |
| `TtlCache.Cache.Get` | util/cache.go:118-134 | answers exactly the live entries |
| `TtlCache.Cache.Delete` | util/cache.go:136-148 | removes the key from map and list, closing the gap in the list |
| `TtlCache.Cache.Flush` | util/cache.go:171-177 | leaves the empty cache |
| `TtlCache.Cache.GarbageCollect` | util/cache.go:197-215 | the reverse in-place sweep keeps exactly the live entries, in their order |
| `CacheModel.StoredWellFormed` | util/cache.go:84-116 | after a store the list is duplicate-free, equals the key set of the map, respects the cap, and the stored key is there |
| `CacheModel.DeletedWellFormed` | util/cache.go:136-148 | a deletion keeps list and map in agreement |
| `CacheModel.CollectedWellFormed` | util/cache.go:197-215 | a collection keeps list and map in agreement and drops exactly the expired entries |
| `CacheModel.CollectingStep` | util/cache.go:204-212 | one position of the reverse sweep: the key is still where it was, and goes exactly when expired |
| `CacheRuns.RunKeepsInvariant` | util/cache.go:63-215 | after every run the list is duplicate-free, agrees with the map, is in insertion order and within the cap |
| `CacheRuns.EvictionClampUnreachable` | util/cache.go:106-109 | in every run the number of keys to evict is below the number there are, so the clamp is dead code |
| `CacheRuns.EvictsOnlyOldKeys` | util/cache.go:100-115 | in every run a store keeps its own key, and a key it pushes out is older than all the `max - max/10` keys that remain |
| `CacheRuns.StoreKeepsUnlessCrowded` | util/cache.go:102-115 | a store pushes a key out only after `max - max/10` keys were inserted since that key was, whatever was stored again in between |
| `CacheRuns.CrowdedIsTight` | util/cache.go:102-115 | for every cap, a run in which a key is gone after exactly that many insertions |
| `CacheRuns.StoreDropsIff` | util/cache.go:96-115 | a store drops a key if and only if its own key is new, the cache is full and the key is among the oldest `max/10 + 1` |
| `CacheRuns.RefreshDoesNotRenew` | util/cache.go:96-106 | a key stored again after it expired keeps its old place and is pushed out by the next insertion |
| `CacheRuns.CollectionIsInvisible` | util/cache.go:72-215 | unbounded cache, clock never back: all replies of a run are those of a plain map with expiry times, and are unchanged by taking all collections out |
| `CacheRuns.CollectionNeverShowsIff` | util/cache.go:84-215 | over all runs, collections never change a reply if and only if the cap is at most one |
| `CacheRuns.RevealingReveals` | util/cache.go:84-215 | for every cap of two or more, a run whose replies do change |
| `Crypto.SignerFoundIff` | enclave/services/signature-verifier/ed25519_signature_verifier.go:17-30 | a signer is found if and only if the signature has 64 bytes and some allowed key verifies it |
| `Crypto.SignerIsFirst` | enclave/services/signature-verifier/ed25519_signature_verifier.go:17-30 | it is the first allowed key that does |
| `Encoding.WriteWithLength` | types/types.go:191-200 | writes the length-prefixed form that `BytesRoundTrip` reads back |
| `Encoding.BytesRoundTrip` | types/types.go:191-200 | a length-prefixed string is read back, and what follows it is left |
| `Encoding.ListRoundTrip` | types/types.go:108-118 | a counted list of any self-delimiting items is read back |
| `Encoding.ListOnto` | types/types.go:108-118 | whatever parses as a counted list is the encoding of what it parses to |
| `Encoding.WriteList` | types/types.go:112-115 | the writing loop produces the counted list |
| `Encoding.WriteInt64s` | types/types.go:291-330 | the loop over creation times and lifetimes produces a counted list of eight-byte values |
| `PreimageWriters.WriteEnclavesList` | types/types.go:102-127 | the bytes hashed are the tagged encoding of the list |
| `PreimageWriters.WriteComputeRequest` | types/types.go:154-189 | the bytes hashed are the tagged encoding of the covered fields, the last one the version or the application request ID |
| `PreimageWriters.WriteExecute` | types/types.go:257-276 | the bytes hashed are the request ID, then the tagged encoding |
| `PreimageWriters.WriteKeys` | types/types.go:291-330 | the bytes hashed are the tagged encoding of keys, times, lifetimes and config hash |
| `PreimageWriters.WriteConfig` | types/types.go:346-376 | the bytes hashed are the tagged encoding of signers, master key, T and F |
| `PreimageWriters.WriteSetConfig` | types/types.go:418-426 | the bytes hashed are the tag and the config hash |
| `PreimageTheorems.DecodeEncode` | types/types.go:102-426 | for every kind of message, one decoder recovers the kind and every hashed field from the preimage, over unbounded nested lists |
| `PreimageTheorems.EncodeDecode` | types/types.go:102-426 | the decoder answers only on preimages, with the fields that produce exactly those bytes |
| `PreimageTheorems.PreimageInjective` | types/types.go:102-426 | two messages share a preimage if and only if they are of one kind and agree on all hashed fields |
| `PreimageTheorems.KindsAreSeparated` | types/types.go:257-276 | no preimage of one kind is one of another, although an execute response starts with a free request ID |
| `PreimageTheorems.TagIsNotExecute` | types/types.go:257-276 | no choice of request ID makes an execute preimage start like another kind |
| `PreimageTheorems.ConfigHashInjective` | types/types.go:346-376 | equal config hashes mean equal configs, or a SHA-256 collision |
| `PreimageTheorems.ExecutePreimageInjective` | types/types.go:257-276 | equal preimages agree on request, hash, output, config and version class, across version classes |
| `PreimageTheorems.KeysPreimageInjective` | types/types.go:291-330 | equal preimages mean equal responses, or a collision of their configs |
| `PreimageTheorems.LegacyRequestAmbiguity` | types/types.go:176-188 | a legacy and a current request share a preimage if and only if the application request ID spells the legacy version and the other covered fields agree |
| `PreimageTheorems.LegacyPair` | types/types.go:176-188 | such a pair, for every request ID, both with an app and a version as the enclave asks for |
| `Payload.MakePayload` | types/copied/libocr/domain_separation.go:24-77 | the appending loop builds header, separator and message part |
| `Payload.PayloadRoundTrip` | types/copied/libocr/domain_separation.go:24-77 | separator and message, or the digest of a long message, are read back |
| `Payload.PayloadInjective` | types/copied/libocr/domain_separation.go:24-77 | equal payloads mean equal separators and equal messages, or long messages that collide; short and long are never confused |
| `Payload.VoteIsNotRequest` | util/common.go:95-101 | no config-vote payload equals a compute-request payload, whatever is signed |
| `Layout.RequestIsLaidOut` | types/types.go:154-189 | the offset of every field in a request's preimage |
| `Layout.ConfigIsLaidOut` | types/types.go:346-376 | the same for a config |
| `Layout.KeysAreLaidOut` | types/types.go:291-330 | the same for a key response |
| `Layout.ResponseIsLaidOut` | types/types.go:257-276 | the same for an execute response, with and without the application request ID |
| `Layout.ListIsLaidOut` | types/types.go:102-127 | the same for a list of enclaves and each enclave in it |
| `Layout.StringStands` | types/types.go:191-200 | a string is its length in eight bytes, then itself |
| `Layout.ListStands` | types/types.go:108-118 | a list is its length in eight bytes, then its items in order |
| `Layout.BigEndianByte` | types/types.go:191-200 | which byte of a number stands where: the most significant first |
| `Layout.PayloadIsLaidOut` | types/copied/libocr/domain_separation.go:24-77 | the offset of every part of a signed payload, the first 64 bytes being spaces |
| `Layout.DeployedPayloads` | util/common.go:95-101 | requests and votes are signed under their own prefixes |
| `Protocol.CheckBatch` | enclave/server/server.go:529-562 | admits exactly the batches of one hash with valid signatures by more than `F` different signers; otherwise names the first bad request |
| `Protocol.CheckSignatures` | enclave/server/server.go:536-552 | finds the first bad request, or collects exactly the fingerprints of all signers |
| `Protocol.FingerprintCount` | enclave/server/server.go:551-559 | requests by different signers count as that many |
| `Protocol.AdmissibleIff` | enclave/server/server.go:529-562 | admissible means: not empty, one hash, every request signed by an allowed key, and more than `F` different keys |
| `Protocol.HonestSignerAsked` | enclave/server/server.go:554-562 | with at most `F` faulty signers an honest one signed a request of the batch |
| `Protocol.ThresholdExceedsFaults` | enclave/nitro/host/host.go:438-443 | the 32-bit threshold exceeds `F` if and only if its computation does not wrap around |
| `EnclaveServer.EnclaveServer.constructor` | enclave/server/server.go:70-105 | a new server has no config set, no votes and no records |
| `EnclaveServer.EnclaveServer.HandleSetConfig` | enclave/server/server.go:274-305 | in place, the step that `PostSetsConfig` is about |
| `EnclaveServer.EnclaveServer.HandleUpdateConfig` | enclave/server/server.go:383-470 | a vote counts only when signed by a current signer for another config; the last of `F + 1` installs it and clears all votes |
| `EnclaveServer.EnclaveServer.HandleExecute` | enclave/server/server.go:529-738 | the application is called exactly for admissible, unclaimed, unrecorded batches; the record is made exactly on success; no mark is left behind |
| `EnclaveServer.EnclaveServer.Process` | enclave/server/server.go:584-738 | between marking and unmarking: refusal of a recorded hash, the call, the record |
| `ConfigChain.SetIffPosted` | enclave/server/server.go:282-305 | after every run, with or without reconfiguration, a config is set if and only if the run has a POST |
| `ConfigChain.PostSetsConfig` | enclave/server/server.go:282-305 | after every run, the first POST, and with reconfiguration every one, is accepted and puts its config in force; without, a later one is a conflict that changes nothing |
| `ConfigChain.NothingBeforePost` | enclave/server/server.go:387-390 | before the first POST nothing has changed, whatever PATCHes came |
| `ConfigLedger.ServerIsLedger` | enclave/server/server.go:383-470 | in every run whose clock never runs back the server has the config, and gives the reply, of a ledger of voters that has no cache and collects nothing |
| `ConfigChain.RunKeepsInv` | enclave/server/server.go:282-470 | in every run without reconfiguration, every stored vote was cast in that run, under the config still in force, by one of its signers |
| `ConfigChain.PendingVotesAreCurrent` | enclave/server/server.go:422-450 | in every such run, with votes expiring at any time, pending votes are by current signers only |
| `ConfigChain.EveryChangeIsApproved` | enclave/server/server.go:444-470 | every change of a set config has more than `F` distinct signers of the replaced one who voted for the new one |
| `ConfigChain.HonestSignerApproved` | enclave/server/server.go:444-470 | with at most `F` faulty signers an honest one voted for every change |
| `ConfigChain.ApprovalIsForThatConfig` | enclave/server/server.go:409-418 | such a vote names exactly the installed config, or two configs collide under SHA-256 |
| `ConfigChain.QuorumInstalls` | enclave/server/server.go:444-470 | conversely, `F + 1` timely votes by different current signers do install the config |
| `ConfigChain.VotesStayCurrentIff` | enclave/server/server.go:282-305 | with reconfiguration allowed, over every run, pending votes are by current signers at every moment if and only if each POST lists every voter then pending |
| `ConfigChain.AppliedPatchIsVoted` | enclave/server/server.go:444-470 | with or without reconfiguration a PATCH is applied only with more than `F` keys that voted for it in the run; all of them are signers of the replaced config where each POST listed the pending voters |
| `ConfigChain.ForeignVoteCounts` | enclave/server/server.go:282-305 | where a POST does not list a pending voter, that vote stays and counts: one current signer installs a config though two are asked for |
| `ConfigExamples.ReconfigurationKeepsForeignVotes` | enclave/server/server.go:282-305 | a deployment, with configs of 32-byte keys, in which that happens |
| `ConfigSync.HostConfigWasHeld` | enclave/nitro/host/host.go:246-298 | in every run, with responses lost, repeated or reordered and the host restarting, its config is zero or one the enclave has held |
| `ConfigSync.HostConfig.OnSetConfigResponse` | enclave/nitro/host/host.go:267-279 | adopts the attested config |
| `ConfigSync.HostFollows` | enclave/nitro/host/host.go:267-298 | in every run, delivering the answer to a POST, or to a PATCH that was applied or already current, while that config is in force makes host and enclave agree; an unapplied one changes nothing |
| `ConfigSync.HostRecovers` | enclave/nitro/host/host.go:246-263 | in every run, delivering the answer to a read of the keys makes them agree exactly when the host has no config and the enclave's is complete, and otherwise changes nothing |
| `ConfigSync.AgreeAfterRestart` | enclave/nitro/host/host.go:246-263 | after every run, a restart, a read of the keys and its answer make them agree |
| `ConfigSync.HostConfig.OnUpdateConfigResponse` | enclave/nitro/host/host.go:284-298 | in place, the step that `HostFollows` is about |
| `ConfigSync.HostConfig.MaybeRecoverConfig` | enclave/nitro/host/host.go:246-263 | adopts only over a zero config, and refuses exactly the incomplete ones |
| `HostServer.Channel.TrySend` | enclave/nitro/host/host.go:785-793 | a non-blocking send delivers into an empty buffer and drops otherwise |
| `HostServer.BatchRequest.Contribute` | enclave/nitro/host/host.go:607-622 | the batch object grows by one request, one signer and one waiter, and is marked when the count equals the threshold |
| `HostServer.BatchRequest.Subscribe` | enclave/nitro/host/host.go:599-606 | a repeated signer only adds a waiter |
| `HostServer.HostServer.HandleExecute` | enclave/nitro/host/host.go:515-671 | on objects, one arrival is exactly the value-level step: screening, cached response, joining, dispatch at equality with the threshold |
| `HostServer.HostServer.JoinBatch` | enclave/nitro/host/host.go:574-637 | finds or creates the batch, then subscribes or contributes |
| `HostServer.HostServer.NotifyWaiters` | enclave/nitro/host/host.go:781-801 | the sending loop changes exactly the waiters' channels |
| `HostServer.HostServer.CompleteBatch` | enclave/nitro/host/host.go:805-837 | on objects, the step that `CompletionSettles` is about |
| `HostServer.HostServer.FailBatchIfNotProcessed` | enclave/nitro/host/host.go:842-911 | on objects, the step that `TimerFails` is about; it returns true exactly when it found a live entry of a batch that is not processing |
| `HostService.ArrivalIsServed` | enclave/nitro/host/host.go:515-637 | after every run, exactly when an arrival is refused, answered from the cache, or waits; one that waits is counted unless its signer was, in the batch of its live pending entry or a new one, which is then pending for a full lifetime; nothing else changes |
| `HostService.TimerFails` | enclave/nitro/host/host.go:842-892 | after every run, a timer or shutdown takes a hash with a live entry out if and only if its batch is not processing, then gives each waiter exactly the stated error, and in every other case changes nothing |
| `HostService.CompletionSettles` | enclave/nitro/host/host.go:805-837 | after every run, a completion answers and drops the batch with the live entry of its hash and caches a success; otherwise it changes neither batches, channels nor caches |
| `HostService.ServedFromCache` | enclave/nitro/host/host.go:550-563 | in every run, after a success of a hash every validly signed arrival of it within the lifetime gets that output, or that of a later completion, and opens no batch, collections included |
| `HostInvariants.RunKeepsInv` | enclave/nitro/host/host.go:530-911 | in every run each channel belongs to one batch and holds an answer exactly when that batch was answered |
| `HostInvariants.AtMostOneAnswer` | enclave/nitro/host/host.go:781-801 | in every run each waiter gets at most one answer and the drop branch is never taken |
| `HostInvariants.LeavesOnlyAnswered` | enclave/nitro/host/host.go:805-892 | in every run an unexpired batch leaves the pending cache only by a completion of its hash, whose answer all its waiters get, or by a timer while it is not processing, whose error they all get |
| `HostFate.EveryBatchIsAccountedFor` | enclave/nitro/host/host.go:574-892 | in every run every batch has been answered, is pending under its hash, or had its pending entry expire at some event |
| `HostFate.AnsweredIff` | enclave/nitro/host/host.go:805-892 | in every run whose clock never runs back a batch is answered if and only if it has left the pending cache and its entry never expired; of those gone from the cache exactly the expired ones are unanswered, and the waiters of an unanswered batch have empty channels |
| `HostFate.LapsedIsUnheard` | enclave/nitro/host/host.go:811-817 | once its entry has expired a batch is never answered and no waiter of it has got anything, in every continuation |
| `HostFate.ForgottenForGood` | enclave/nitro/host/host.go:805-892 | over every continuation of a run, whatever the clock reads, a batch that is neither answered nor pending stays exactly as it is, and no waiter of it gets anything |
| `HostFate.ExpiryForgets` | enclave/nitro/host/host.go:811-817 | it happens: a waiter whose batch's entry expires and is collected |
| `HostQuorum.CompletionReachesIff` | enclave/nitro/host/host.go:805-837 | in every run a completion answers the waiters of the batch that was dispatched if and only if that batch's pending entry is there and live; otherwise none of them gets anything |
| `HostAnswers.CachedAnswerIsGenuine` | enclave/nitro/host/host.go:550-563 | in every run a request served from the response cache gets the output of a completed dispatch of its own hash |
| `HostAnswers.DeliveredAnswerIsGenuine` | enclave/nitro/host/host.go:781-837 | in every run an output given to a waiter is the answer of a completed dispatch of the hash its batch was made for |
| `HostInvariants.SendAllDelivers` | enclave/nitro/host/host.go:781-801 | notifying distinct empty channels fills each once and touches no other |
| `HostQuorum.RunKeepsQuorumInv` | enclave/nitro/host/host.go:574-671 | in every run, whatever `F` does, a batch holds one valid request of its hash per signer, and a dispatch is a prefix of its batch of threshold length |
| `HostDispatch.DispatchedExactlyAt` | enclave/nitro/host/host.go:607-671 | in every run, however `F` changes, a batch is dispatched with n requests if and only if n was the threshold of the config its n-th request was checked under, and then once |
| `HostDispatch.SingleDispatch` | enclave/nitro/host/host.go:601-671 | for every batch whose requests agree on `F`: processing, dispatched and threshold reached coincide, it has one request per signer, and it is dispatched at most once |
| `HostDispatch.DispatchHolds` | enclave/nitro/host/host.go:607-671 | every dispatch holds valid requests of one hash by as many different signers as its last config asks for |
| `HostDispatch.StrandsIff` | enclave/nitro/host/host.go:618-622 | a counted request leaves its batch at or above the threshold and undispatched if and only if it was so before, under the threshold of the moment |
| `HostDispatch.StrandedUntilMoreAsked` | enclave/nitro/host/host.go:618-622 | such a batch is not dispatched again while no config asks for more than it had |
| `HostQuorum.SecondDispatchIff` | enclave/nitro/host/host.go:601-637 | with `F` changing: an arrival dispatches an already dispatched batch if and only if its signer is new and the grown count equals the threshold of the moment |
| `HostDispatch.RisingFDispatchesTwice` | enclave/nitro/host/host.go:515-518 | a run of two arrivals in which `F` rises and one batch is dispatched twice |
| `HostDispatch.FallingFStrands` | enclave/nitro/host/host.go:515-518 | a run of two arrivals in which `F` falls and the batch is never dispatched |
| `HostDispatch.PairExists` | enclave/nitro/host/host.go:515-518 | a deployment, with 32-byte keys, in which every request can be signed for both runs |
| `HostQuorum.DispatchedIsNeverTimedOut` | enclave/nitro/host/host.go:842-855 | in every run a timer or shutdown leaves a dispatched batch and its waiters' channels as they were |
| `HostQuorum.DispatchIsAdmissible` | enclave/server/server.go:534-562 | a batch gathered under one config passes the enclave's checks under it if and only if the host's threshold did not wrap around |
| `Composition.RunKeepsInv` | enclave/server/server.go:564-582 | in every joint run an uncompleted dispatch holds its pending entry and a cleared handler's hash is still unrecorded |
| `Composition.OneDispatchInFlight` | enclave/nitro/host/host.go:574-671 | in every joint run at most one dispatch of a hash is in flight |
| `Composition.OneHandlerPerHash` | enclave/server/server.go:564-582 | two enclave handlers that have not replied are of different hashes, though check and mark are separate critical sections |
| `Composition.NeverRunsARecordedHash` | enclave/server/server.go:584-591 | whenever the application is called, its hash has no live executed record |
| `Execution.CalledWasAdmitted` | enclave/server/server.go:529-562 | in every joint run, whenever the application is called the batch had been found admissible under the config of that moment |
| `Execution.ClearedIff` | enclave/server/server.go:529-591 | undisturbed, from every state, a handler is cleared for the call if and only if its batch is admissible and its hash has neither a live mark nor a live record |
| `Execution.MarkComesAndGoes` | enclave/server/server.go:573-582 | a claim is visible for its lifetime and gone once removed |
| `Execution.OutputWasExecuted` | enclave/server/server.go:690-738 | in every joint run, an output the host completes a dispatch with was admitted, executed with success and recorded |
| `Composition.NoRepeatWithinLifetime` | enclave/server/server.go:735-738 | in every run, a call for a recorded hash comes after the record's lifetime or after `max - max/10` hashes were entered since that one was |
| `Replay.RecordMissingIff` | enclave/server/server.go:584-591 | in every run, within its lifetime a record is missing if and only if a later record displaced it from a full cache and none of its hash was made since |
| `Replay.RepeatWasDisplaced` | enclave/server/server.go:584-591 | in every feasible run that comes to call the application again for a hash within its record's lifetime, an act in between displaced the record and none made it again |
| `ReplayRun.ExecutedTwice` | enclave/server/server.go:735-738 | for every positive capacity of the replay cache and one more request of different hashes than it holds, a feasible run at one moment that executes and records a request and then comes to execute it again |
| `ReplayRun.RequestsExist` | enclave/server/server.go:601-614 | a deployment, with 32-byte keys, that has such requests for every capacity that fits in 64 bits, each passing the enclave's checks of its fields |
| `Relay.CapabilityEntries` | enclave/apps/confidential-workflows/app/remote_dispatcher.go:576-619 | one entry per hashable response, in bundle order, with its own index, signed hash and group hash |
| `Relay.SecretsEntries` | enclave/apps/confidential-workflows/app/remote_dispatcher.go:624-647 | the same, grouped by the signed hash |
| `Relay.EntryCarries` | enclave/apps/confidential-workflows/app/remote_dispatcher.go:576-647 | an entry is checked against the hash its node signed and grouped by the canonical hash where there is another one |
| `Relay.Collect` | enclave/apps/confidential-workflows/app/remote_dispatcher.go:689-713 | the loop's two maps hold exactly the signer sets and first valid indices of the groups |
| `Relay.Winners` | enclave/apps/confidential-workflows/app/remote_dispatcher.go:721-732 | exactly the groups with the required number of signers |
| `Relay.Foremost` | enclave/apps/confidential-workflows/app/remote_dispatcher.go:757-762 | no other group has more signers, and of those with equally many it has the smallest hash |
| `Relay.SelectQuorumResult` | enclave/apps/confidential-workflows/app/remote_dispatcher.go:675-780 | returns the first valid entry of the group that wins among those with `F + 1` signers, and fails exactly when none has them |
| `RelayTheorems.WinnerUnique` | enclave/apps/confidential-workflows/app/remote_dispatcher.go:757-779 | at most one group wins, so map iteration order cannot matter |
| `RelayTheorems.WinnerExists` | enclave/apps/confidential-workflows/app/remote_dispatcher.go:757-779 | if some group qualifies, one wins |
| `RelayTheorems.ChosenHasMostSigners` | enclave/apps/confidential-workflows/app/remote_dispatcher.go:757-779 | the chosen group has at least as many different signers as any other, and where another has as many, the chosen hash has the smaller byte where the two first part |
| `RelayTheorems.SelectionDependsOnVotes` | enclave/apps/confidential-workflows/app/remote_dispatcher.go:689-779 | bundles with equal sets of valid votes, under whatever signature checks, choose the same group or none |
| `RelayTheorems.SelectionIsDeterministic` | enclave/apps/confidential-workflows/app/remote_dispatcher.go:689-779 | bundles with the same valid entries up to order, repetition and invalid noise both fail or choose the same group |
| `RelayTheorems.SelectionIsAFunction` | enclave/apps/confidential-workflows/app/remote_dispatcher.go:689-779 | for one bundle index and group are determined |
| `RelayTheorems.ChosenIsFirstInBundle` | enclave/apps/confidential-workflows/app/remote_dispatcher.go:576-647 | the index is in range of the original bundle and no earlier response of that group had a valid signature |
| `RelayTheorems.FaultySignersCannotWin` | enclave/apps/confidential-workflows/app/remote_dispatcher.go:675-780 | with at most `F` faulty signers and honest ones agreeing on a group, only that group can be returned |
| `RelayTheorems.HonestQuorumIsSelected` | enclave/apps/confidential-workflows/app/remote_dispatcher.go:675-780 | with `F + 1` honest signers present that group is selected, whatever else is in the bundle |
| `RelaySecrets.OrderRelaySecrets` | enclave/apps/confidential-workflows/app/remote_dispatcher.go:491-526 | accepts exactly the lists in which every entry was asked for and none is repeated, names the first offender otherwise, and aligns the entries with the requests |
| `RelaySecrets.FirstRequestsOnceEach` | enclave/apps/confidential-workflows/app/remote_dispatcher.go:492-501 | each requested identifier has exactly one place in the answer |
| `RelaySecrets.FirstRequestsKeepOrder` | enclave/apps/confidential-workflows/app/remote_dispatcher.go:492-501 | asking for more never moves what was asked for before |
| `RelaySecrets.EveryEntryIsDelivered` | enclave/apps/confidential-workflows/app/remote_dispatcher.go:515-526 | an entry was sent if and only if it stands, unchanged, under its own identifier |
| `RelaySecrets.ArrivalOrderDoesNotMatter` | enclave/apps/confidential-workflows/app/remote_dispatcher.go:491-526 | any permutation of the entries is accepted alike and gives the same answer |
| `BoxKeychain.BoxKeychain.CreateKeyPair` | enclave/services/keychain/box_keychain.go:121-131 | stores the new keypair under its identifier |
| `BoxKeychain.BoxKeychain.GetKeyPairs` | enclave/services/keychain/box_keychain.go:148-160 | the live keypairs, in creation order |
| `BoxKeychain.BoxKeychain.FindNewest` | enclave/services/keychain/box_keychain.go:187-192 | the loop finds the keypair that `NewestIsNewest` is about |
| `BoxKeychain.BoxKeychain.GetKeyPairForRequest` | enclave/services/keychain/box_keychain.go:167-209 | undisturbed: a live mapping is followed or fails with its keypair gone; otherwise the newest keypair is pinned |
| `BoxKeychain.BoxKeychain.SweepRequestKeyMap` | enclave/services/keychain/box_keychain.go:258-266 | exactly the mappings to vanished keypairs go |
| `KeychainPasses.CallFinishes` | enclave/services/keychain/box_keychain.go:167-209 | from every state, the steps of a call with nothing in between come to what the whole operation answers and does to the mapping |
| `KeychainPasses.SweepFinishes` | enclave/services/keychain/box_keychain.go:258-266 | the steps of a sweep with nothing in between remove exactly the stale mappings |
| `KeychainModel.NewestIsNewest` | enclave/services/keychain/box_keychain.go:187-192 | no keypair was created after the one picked |
| `KeychainModel.NewestIsFirst` | enclave/services/keychain/box_keychain.go:187-192 | among equally new ones it is the first |
| `KeychainModel.LivePairsMembers` | enclave/services/keychain/box_keychain.go:148-160 | the listed keypairs are exactly those a lookup finds |
| `RequestPinning.RunKeepsInv` | enclave/services/keychain/box_keychain.go:167-209 | in every interleaving of calls, rotation, sweeps, collection and eviction, every call's keypair is the one its mapping's lifetime was given |
| `RequestPinning.SameLifeSameKeypair` | enclave/services/keychain/box_keychain.go:167-209 | two successful calls decided in one lifetime of a request's mapping return the same keypair |
| `RequestPinning.LiveMappingIsNeverReplaced` | util/cache.go:72-81 | no step changes the keypair of a live mapping |
| `KeyRotation.AlwaysAKeypair` | enclave/services/keychain/box_keychain.go:235-254 | with creations at most R apart and R at most the lifetime E, the latest keypair is listed, retrievable and usable at every moment after the first creation |
| `KeyRotation.ListingFindsOne` | enclave/services/keychain/box_keychain.go:178-185 | a call that lists after the first creation and looks the keys up within E - R finds a keypair |
| `KeyRotation.PinnedKeypairLasts` | enclave/services/keychain/box_keychain.go:167-209 | in every interleaving at cache-operation granularity, a granted keypair is retrievable and usable at every moment up to t + E - R, where t is when the call that made the mapping read the list of keys |
| `KeyRotation.GrantedWasPinned` | enclave/services/keychain/box_keychain.go:194-209 | in every run the keypair granted to a call is the one picked at the act that made the request's mapping |
| `KeyRotation.LastsFromPinIff` | enclave/services/keychain/box_keychain.go:194-198 | the granted keypair is good exactly while at most E old: at every moment up to E - R after its pin if it was at most R old at the pin, and not at the last such moment if it was older |
| `KeyRotation.QuietPinIsYoung` | enclave/services/keychain/box_keychain.go:187-198 | the picked keypair is at most R old at the pin whenever no keypair was created between the listing and the pin |
| `KeyRotation.LatePin` | enclave/services/keychain/box_keychain.go:179-198 | a run with a rotation in between, in which it is gone E - R after the pin |
| `Cpu.SumCpuTicks` | enclave/server/cpu.go:106-115 | the sum, refused exactly when it does not fit in 64 bits |
| `Cpu.GuestCpuTicks` | enclave/server/cpu.go:91-101 | busy and total ticks, refused exactly when the total of all eight counters does not fit |
| `Cpu.TickedTicks` | enclave/server/cpu.go:91-101 | ticks of user, nice, system, irq and softirq add to busy and total, those of idle, iowait and steal to the total alone |
| `Cpu.TicksAreSpent` | enclave/server/cpu.go:91-101 | for every history of the counters, busy ticks are those spent working and total ticks are all |
| `Cpu.ReadGuestCpuSeconds` | enclave/server/cpu.go:57-67 | both rounded to seconds, or zeros when refused |
| `Cpu.RoundsToNearest` | enclave/server/cpu.go:118-124 | rounding is to the nearest second, halves up |
| `Cpu.RoundedDeltas` | enclave/server/cpu.go:118-124 | rounding four readings separately puts the busy difference at most one second above the total difference |
| `Cpu.BusyCanLead` | enclave/nitro/host/metrics.go:535-539 | genuine counters that need the one-second allowance |
| `Cpu.BadSampleClears` | enclave/nitro/host/metrics.go:509-547 | which samples withdraw the value, which also the baseline, and exactly which intervals are rejected |
| `Cpu.IntervalIsAccepted` | enclave/nitro/host/metrics.go:513-547 | the host never rejects two consecutive genuine samples |
| `Cpu.GenuineRunIsNeverRejected` | enclave/nitro/host/metrics.go:509-558 | over every run of polls of genuine counters, some failing, the baseline is the latest sample and a value is published if and only if the rounded total moved at some poll since the last failure |
| `Cpu.PublishedAlwaysAFraction` | enclave/nitro/host/metrics.go:539-547 | over every run of polls, whatever numbers they bring, a published utilization lies in [0, 1] |
| `Cpu.PublishedIsClose` | enclave/nitro/host/metrics.go:527-547 | what is published from two genuine samples differs from the true share of busy ticks between them by less than 2 divided by the rounded total seconds |
| `CpuMeter.HostMetrics.RecordGuestCpuUtilization` | enclave/nitro/host/metrics.go:509-548 | the object's fields follow the value-level meter |
| `CpuMeter.HostMetrics.ClearEnclaveMemory` | enclave/nitro/host/metrics.go:553-558 | the value is withdrawn and the baseline stays |
| `LruModel.KeptIsLongestPrefix` | enclave/apps/confidential-workflows/app/fetcher.go:121-127 | eviction keeps the longest run of most recent entries that fits, and nothing more has to go |
| `LruModel.HitIff` | enclave/apps/confidential-workflows/app/fetcher.go:99-109 | a key is found exactly when it is cached, with its value, and only the order changes |
| `LruModel.StoredIsHit` | enclave/apps/confidential-workflows/app/fetcher.go:82-131 | a stored binary is found next time, and a positive bound takes effect at once |
| `LruRuns.RunKeepsInv` | enclave/apps/confidential-workflows/app/fetcher.go:51-131 | in every run keys are distinct, the size is within the bound or a single entry is left, and every cached binary hashes to its key |
| `LruRuns.StoreExceedsIff` | enclave/apps/confidential-workflows/app/fetcher.go:121-130 | storing a new key leaves the cache over its bound if and only if the binary alone is larger, and then it is the only one |
| `LruRuns.RunExceedsIff` | enclave/apps/confidential-workflows/app/fetcher.go:82-131 | in every run with a positive bound it is exceeded if and only if a single binary larger than it is cached |
| `LruRuns.OversizeRun` | enclave/apps/confidential-workflows/app/fetcher.go:121-130 | for every bound, a run that exceeds it |
| `LruRuns.RunKeepsMostRecent` | enclave/apps/confidential-workflows/app/fetcher.go:99-131 | in every run the cached keys are sorted by last use and every key not cached was last used before all of them |
| `BinaryFetcher.HexInjective` | enclave/apps/confidential-workflows/app/fetcher.go:59 | different hashes have different cache keys |
| `BinaryFetcher.HitIsGenuine` | enclave/apps/confidential-workflows/app/fetcher.go:59-62 | in every run of critical sections, those of other fetches included, a hit gives bytes that hash to what was asked for |
| `BinaryFetcher.BinaryFetcher.CacheGet` | enclave/apps/confidential-workflows/app/fetcher.go:99-109 | on map and list elements, a hit promotes and a miss changes nothing |
| `BinaryFetcher.BinaryFetcher.CachePut` | enclave/apps/confidential-workflows/app/fetcher.go:113-131 | promotes a known key; otherwise evicts from the back and pushes to the front, keeping map, list and byte count in agreement |
| `BinaryFetcher.BinaryFetcher.MakeRoom` | enclave/apps/confidential-workflows/app/fetcher.go:121-127 | the eviction loop is the longest fitting prefix |
| `BinaryFetcher.BinaryFetcher.SetMaxCacheBytes` | enclave/apps/confidential-workflows/app/fetcher.go:82-96 | ignores bounds that are not positive, otherwise evicts down to the bound |
| `BinaryFetcher.BinaryFetcher.Fetch` | enclave/apps/confidential-workflows/app/fetcher.go:51-77 | whatever storage answers, returned bytes hash to what was asked for; each error exactly in its case, and only verified bytes are cached |
| `EnclaveOrder.SortingConverges` | capabilities/framework/executor.go:1689-1693 | sorting gives one result for every arrangement if and only if an identifier stands for one entry |
| `EnclaveOrder.ArrangedIsSorted` | capabilities/framework/executor.go:1689-1693 | a descending arrangement always exists |
| `EnclaveOrder.LargerIdFirst` | capabilities/framework/executor.go:1689-1693 | of two identifiers the one with the larger byte where they first differ comes first |
| `Bytes.LessIff` | capabilities/framework/executor.go:1689-1693 | the order of byte strings at the first place where they part |
| `Selection.ChosenIffLive` | enclave-client/enclave-selector/round_robin_enclave_selector.go:36-52 | an enclave is chosen if and only if a matching one is live, and then it is one of those |
| `Selection.FailsOverInOrder` | enclave-client/enclave-selector/round_robin_enclave_selector.go:36-50 | the choice is the first live one upwards from the request's slot, then from the first node on; the slot is the request ID as a number modulo the nodes |
| `Selection.MatchingKeepsOrder` | enclave-client/enclave-selector/round_robin_enclave_selector.go:29-35 | filtering keeps the order of the list |
| `Selection.ChoiceIsDetermined` | enclave-client/enclave-selector/round_robin_enclave_selector.go:41-50 | the choice depends on the request and on which matching nodes are dead, nothing else |
| `Selection.ClientsConverge` | enclave-client/pool.go:233-246 | clients holding the same enclaves in any order and agreeing on the dead ones choose the same enclave |
| `Selection.OthersMayDie` | enclave-client/enclave-selector/round_robin_enclave_selector.go:41-50 | marking an enclave that was not chosen as dead changes no choice |
| `Selection.ScanFindsSteadyOne` | enclave-client/enclave-selector/round_robin_enclave_selector.go:41-52 | with liveness read anew for each node: the enclave returned was alive when looked at, and one is returned if some match is alive throughout |
| `Selection.SteadyScan` | enclave-client/enclave-selector/round_robin_enclave_selector.go:41-52 | with liveness unchanged during the scan that is the choice the other results are about |
| `Selection.RoundRobin` | enclave-client/enclave-selector/round_robin_enclave_selector.go:79-82 | n consecutive request IDs over n live enclaves visit them once each, in order |
| `RoundRobinSelector.RoundRobinEnclaveSelector.SelectEnclaves` | enclave-client/enclave-selector/round_robin_enclave_selector.go:29-53 | filtering and scanning find the first live match counting cyclically from the request's slot |
| `RoundRobinSelector.RoundRobinEnclaveSelector.SetEnclaveLiveness` | enclave-client/enclave-selector/round_robin_enclave_selector.go:55-69 | exactly one enclave's liveness changes |

## Left out

- HTTP, vsock, JSON, gRPC, the SOCKS proxy and status codes: only the state changes they trigger are modelled.
- SHA-256, Ed25519, NaCl, TDH2, AES-GCM, attestation and protobuf themselves; `ed25519.Verify` panicking on a key of the wrong length.
- The application, WASM execution and the apps' own logic; in `handleExecute` the checks between the records and the call are one arbitrary outcome.
- Enclave handlers called by anyone but the host: `Composition` derives that they do not overlap from the host's dispatching.
- Composition.OneDispatchInFlight: assumes that `F` does not change, that no pending entry expires while its batch is processed, and that the host hears from a dispatch only after the enclave's handler has replied; the host's pending lifetime is what the source relies on for the second.
- EnclaveServer.EnclaveServer.HandleExecute: one pass with no other handler running; the interleaved steps are in `Composition`.
- EnclaveServer.EnclaveServer.Process: the same, and its checks before the call are one outcome.
- BoxKeychain.BoxKeychain.GetKeyPairForRequest: one call with nothing else running; the interleaved steps are in `RequestPinning` and `KeyRotation`.
- BoxKeychain.BoxKeychain.GetKeyPairs: one listing with nothing else running and one clock reading; the single lookups are steps in `KeychainModel`.
- BoxKeychain.BoxKeychain.SweepRequestKeyMap: one sweep with nothing else running; its steps are interleaved in `RequestPinning`.
- BinaryFetcher.BinaryFetcher.Fetch: one pass; the source releases the lock between get and put, and runs of critical sections are in `LruRuns` and `BinaryFetcher.HitIsGenuine`.
- RoundRobinSelector.RoundRobinEnclaveSelector.SelectEnclaves: reads one set of dead enclaves, where the source takes the lock once per node; scans with changing liveness are in `Selection.ScanFindsSteadyOne`.
- ConfigChain.VotesStayCurrentIff: about stored votes, expired ones that were not collected included.
- KeyRotation.PinnedKeypairLasts: the deployed lifetimes and rotation intervals are parameters, and deleting a keypair by hand is not a step.
- EnclaveOrder.SortingConverges: `sortEnclaveNodes` is represented by every result sorting may give, not by the in-place algorithm of the library.
- Relay.Foremost: the sort of the winning groups is represented by its first element, the only one used.
- PreimageTheorems.DecodeEncode: for lengths below 2^64, which the eight-byte prefixes need.
- Selection.RoundRobin: consecutive means increasing by one without passing 2^256.
- Parsing the text of /proc/stat: `Cpu.GuestCpuTicks` starts from the eight parsed counters; utilization is a real number, not a rounded `float64`.
- Aliasing of byte slices, and of the vote maps kept in the cache, which are values here.
- Process CPU time, execution load and memory extremes in the host's metrics.
- The client pool's fetching and retries, settings injection, floating-point lifetimes, logging and telemetry.
