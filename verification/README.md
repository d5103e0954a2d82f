# Verification of the on-chain consent system

A Dafny 4.11 model of the parts of the system whose correctness depends on every run, every interleaving or every input:
the worker pool and rate limiter of the Go API, the consent registry and receipt token contracts, the Merkle verifier
and the inclusion circuits, three byte codecs, the event indexer, and the replay window of the Solana verifier. `dafny
verify dfyconfig.toml` checks the whole project.

Code that changes objects step by step is a class with methods (`PoolObject.Pool`, `RateLimiter.RateLimiter`,
`RegistryContract.ConsentRegistry`, `BlockRanges.ChainListener`, `EventStore.EventHandler`,
`ReplayWindow.VerifierAccount`, `ConsentToken.Receipts`). Each method is proved equal to a function on values
(`PoolProtocol.Next`, `RateLimiter.Charge`, `Registry.Step`, `BlockRanges.AfterPoll`, `EventStore.Process`,
`ReplayWindow.Step`, `ConsentToken.Step`), and the results about whole runs are lemmas about those functions.

## The components

**Worker pool** (`PoolProtocol`, `PoolSafety`, `PoolProgress`, `PoolPlaces`, `PoolRetries`, `PoolRaces`, `PoolHistory`,
`PoolBackoff`, `PoolObject`). Twenty-one kinds of atomic steps: the send of a Submit and its later counter increment,
the two receives of a worker, the read, the write and the comparison of `Retries`, every counter update of processTask,
the firing of a timer and its send or drop, cancellation and exit. Any enabled step may come next. Conservation,
progress and shutdown hold for every interleaving, also when one task pointer is submitted several times. The retry
budget and the status of a task need clients that leave that one task alone while the pool holds it (`Owned`). Without
that, several workers may read and write its `Retries` at once: with n submissions and e retries the handler can return
C(n + e + 1, n) - 1 times, never more (`ReturnsAreBounded`), and for all n and e in some run (`BoundIsReached`).

**Rate limiter** (`RateLimiter`). Token buckets over the reals. Its decisions are stated without the bucket, by windows:
a request is admitted exactly if no window that ends with it exceeds the burst and what flows in meanwhile. Greedy
optimality compares `Allow` with every other sequence of decisions that keeps all windows within that.

**Consent registry** (`ConsentTerms`, `Signatures`, `Registry`, `RegistryContract`). keccak256 and ecrecover are
parameters of which nothing is assumed. "Recovers" means what the contract checks: that ecrecover gives the address of
the party. For an invalid signature it gives the zero address, so it says nothing about a party with that address. Where
a claim would rest on collision resistance, the lemma instead says that the two claims are equal or that a function of
the model computes a collision. A revert leaves the ledger as it was.

**Merkle verification** (`Merkle`). The pair hash is a parameter. Soundness is stated by collision extraction, and as an
if-and-only-if for a collision-free hash. Field elements are natural numbers. The depth is the caller's in the verifier,
and the circuits do not use `tree_depth` at all, so that the prover chooses how many siblings count. `AcceptsIffProves`
and `CircuitAcceptsIff` say what they accept for any depth and any tree: an inner node passes as a leaf where the depth
is too small, and in the circuits the root of a subtree on the left edge, the root of the whole tree included.

**Codecs** (`Bytes`, `AbiCodec`, `GuestEnv`; `EventData` belongs to the indexer). The round trip of the scopes is false
of the code: the offset that `encodeRegisterConsent` writes points one word beyond the length of the scopes.
`AbiCodec.ScopesThroughWrittenOffset` proves that the scopes come back through that offset if and only if there are
none; `AbiCodec.ScopesRoundTrip` proves that they always come back through the right one. The guest buffer round trip
holds if and only if every input is shorter than 2^32 bytes.

**Event indexer** (`BlockRanges`, `EventData`, `EventStore`, `IndexerRuns`). A query that fails is never repeated, so a
run handles all logs of the blocks it covers, those up to the greatest reported height, if and only if the failed ranges
held none. A log whose list offset or count passes 2^63 makes its handler panic, which ends the process; the stores then
keep what was handled before.

**Replay window and receipts** (`ReplayWindow`, `ConsentToken`). A proof becomes acceptable again after a thousand
others; both directions are proved. The batch mint in the contract passes the list of parties where the base contract
takes one address; the model follows the intent, one token to each list entry.

## Where code and documentation disagree

- `validateConsent` is declared `pure` but reads `block.timestamp`; the timestamp is a parameter here.
- `registerConsent` does not call `validateConsent`, so only updated consents are known to have sound times
  (`Registry.RegistrationIgnoresTimes`).
- The circuits have no direction bits and ignore the depth; `Merkle.CircuitAcceptsIff` states what they prove without.
- The events that the indexer decodes are not those that `IConsentRegistry` declares: its registration has no scopes, and
  both index the identifier.
- The backoff is capped at 30 seconds only up to retry 34; `PoolBackoff.InRangeIff` lists the later counts.
- `burnConsentReceipt` burns the amount 0, so balances and supply survive a burn.
- `getTokenConsentId` takes the zero word for a missing token.

## Model

| member | source | states |
|---|---|---|
| PoolSafety.SafeStep | backend/go-api/internal/worker/pool.go:104-219 | every atomic step of every goroutine keeps task conservation, all four counters, the channel bounds, and that nothing is dropped and no worker gone before cancellation |
| PoolSafety.Conservation | backend/go-api/internal/worker/pool.go:104-240 | in every interleaving the accepted tasks are, as a multiset, those in the channels, timers and workers plus those completed, failed or dropped; Queued equals Completed plus Failed plus held plus dropped whenever no Submit is between send and increment |
| PoolSafety.ExactlyOnePlace | backend/go-api/internal/worker/pool.go:104-219 | a task submitted once is at any moment in exactly one place |
| PoolSafety.NothingAfterShutdown | backend/go-api/internal/worker/pool.go:225-231 | once all workers have exited no later step completes or fails a task, and both channels only grow |
| PoolHistory.HistoryIsTrue | backend/go-api/internal/worker/pool.go:104-219 | in every interleaving the totals are those of the steps: a task was accepted as often as it was sent, completed as often as its handler succeeded, failed as often as it had no handler or no retry left, and dropped as often as its timer dropped it |
| PoolHistory.FirstInFirstOut | backend/go-api/internal/worker/pool.go:104-192 | in every interleaving each channel gives out its tasks in the order in which they were put in, and loses none |
| PoolHistory.HandlerIsFound | backend/go-api/internal/worker/pool.go:146-157 | a task reaches a handler exactly if one was registered for its kind at any earlier step, and fails for want of one otherwise |
| PoolHistory.HandlersAre | backend/go-api/internal/worker/tasks.go:51-75 | registering a handler takes none of the earlier ones away |
| PoolHistory.SubmitWaits | backend/go-api/internal/worker/pool.go:104-114 | in every interleaving Submit cannot send exactly when the channel holds its capacity and, if that is 0, no worker is idle |
| PoolHistory.TimerWaits | backend/go-api/internal/worker/pool.go:187-192 | a fired timer has to wait exactly when its channel holds its capacity, nobody has cancelled and, if the capacity is 0, no worker is idle |
| PoolHistory.CancelledSteps | backend/go-api/internal/worker/pool.go:104-192 | cancellation only adds steps, the exit of a worker and the drop of a retry: every case of a select that was ready stays ready |
| PoolHistory.StrandedAfterShutdown | backend/go-api/internal/worker/pool.go:104-114 | a run in which Submit succeeds after the last worker has left, and in whose continuations the task never leaves the channel |
| PoolProgress.MeasureStep | backend/go-api/internal/worker/pool.go:121-219 | every step that is not a client's lowers a measure built from the phase of each task and what its copies may still cause, also when several workers read and write the same `Retries` in any order |
| PoolProgress.RunsAreBounded | backend/go-api/internal/worker/pool.go:121-219 | without new submissions every run ends within a number of steps fixed by the state |
| PoolProgress.RestMeansDrained | backend/go-api/internal/worker/pool.go:121-219 | deadlock freedom: with a worker and no cancellation the pool can only rest when every accepted task is completed or failed and the counters agree, for any queue size |
| PoolProgress.RestAfterCancel | backend/go-api/internal/worker/pool.go:187-231 | after cancellation the pool rests with all workers gone, no timer left, and exactly the dropped tasks and those in the channels unprocessed |
| PoolProgress.EveryShutdownReturns | backend/go-api/internal/worker/pool.go:76-231 | after any past with a cancellation, any schedule without further submissions stops in bounded time and, where it cannot go on, all workers have exited |
| PoolProgress.EveryScheduleDrains | backend/go-api/internal/worker/pool.go:76-231 | after any past, any schedule without further submissions stops in bounded time and, where it cannot go on, every accepted task is settled |
| PoolRetries.RetryBudget | backend/go-api/internal/worker/pool.go:166-208 | in every interleaving in which the clients of a task leave it alone while the pool holds it, the handler returns at most MaxRetries + 1 times for it if it was submitted with no retries used, and in general at most max(1, MaxRetries - Retries + 1) times |
| PoolRaces.ReturnsAreBounded | backend/go-api/internal/worker/pool.go:121-208 | in every interleaving in which nobody writes the record of a task after its first submission, whoever submits it how often and when, with the increment of `Retries` a read and a later write: its handler returns at most C(n + e + 1, n) - 1 times for n accepted submissions and e retries allowed by the record |
| PoolRaces.BoundIsReached | backend/go-api/internal/worker/pool.go:121-208 | for all n and e some run of a pool with n workers reaches that number |
| PoolRaces.MaxReturnsIs | backend/go-api/internal/worker/pool.go:166-208 | that is e + 1 returns for one submission, and otherwise what a round with one stale write gives |
| PoolRetries.FailsAtTheLimit | backend/go-api/internal/worker/pool.go:166-208 | with the same discipline a failing handler fails its task for good exactly when Retries reaches one above MaxRetries (or above its start value), which is exactly when the budget is used up; otherwise the task goes to a timer |
| PoolRetries.StatusAgrees | backend/go-api/internal/worker/pool.go:143-212 | with the same discipline the status field is Retry on the way back to the handler, Running with it, and Completed or Failed before the task is counted as such |
| PoolBackoff.BackoffSchedule | backend/go-api/internal/worker/pool.go:173-176 | in int64 the first 34 retries wait 1, 2, 4, 8, 16 and then 30 seconds |
| PoolBackoff.OverflowSchedule | backend/go-api/internal/worker/pool.go:173-176 | from retry 35, where the product first overflows, to 55 the wait is negative except at eight counts where it comes out at 30 seconds |
| PoolBackoff.NoBackoffFrom56 | backend/go-api/internal/worker/pool.go:173-176 | from the 56th retry on the backoff is 0 |
| PoolBackoff.InRangeIff | backend/go-api/internal/worker/pool.go:173-176 | the backoff lies within 1 and 30 seconds exactly for retries 1 to 34 and those eight |
| PoolBackoff.AllInRangeIff | backend/go-api/internal/worker/pool.go:173-176 | all retries up to a limit wait within 1 and 30 seconds if and only if the limit is at most 34 |
| PoolObject.Pool.constructor | backend/go-api/internal/worker/pool.go:76-98 | a new pool is the initial state of the protocol and safe |
| PoolObject.Pool.Submit | backend/go-api/internal/worker/pool.go:104-114 | a successful submit is the send, into the buffer or to a parked worker, followed by the increment; a refusal changes nothing and happens only on a cancelled context or when neither can take the task; a safe pool stays safe |
| PoolObject.Pool.SubmitWithRetry | backend/go-api/internal/worker/pool.go:116-119 | MaxRetries is written even if the submission is refused |
| PoolObject.Pool.Receive | backend/go-api/internal/worker/pool.go:126-136 | a turn of the worker loop takes the head of either channel or exits, only after cancellation |
| PoolObject.Pool.ProcessTask | backend/go-api/internal/worker/pool.go:139-219 | processing a task is the path of protocol steps that the handler's registration, its result and the retry count select |
| PoolObject.Pool.SendRetry | backend/go-api/internal/worker/pool.go:187-192 | a fired timer sends into free space or to a parked worker, drops only on cancellation, and otherwise waits |
| PoolObject.Pool.Stats | backend/go-api/internal/worker/pool.go:233-240 | in a safe state the statistics are the sizes of the history and the number of busy workers, if no step comes between the loads |
| PoolObject.StatsWhileOthersRun | backend/go-api/internal/worker/pool.go:233-240 | with any steps between the four loads each total is one it had while they were made |
| RateLimiter.AllowAdmitsIff | backend/go-api/internal/api/middleware.go:38-66 | request n of a new key is admitted if and only if, for every i up to n, the requests admitted since request i and this one are at most burst + rate * (the time since i); so the bucket refills exactly at the rate |
| RateLimiter.AdmittedIff | backend/go-api/internal/api/middleware.go:38-66 | the same for each key of any run of many keys |
| RateLimiter.GreedyIsOptimal | backend/go-api/internal/api/middleware.go:38-66 | in every prefix no decisions that keep every window within the rate have admitted more than Allow |
| RateLimiter.AllowNeverOverdraws | backend/go-api/internal/api/middleware.go:38-66 | the decisions of Allow keep every window within the rate: what is admitted from any request to any other is at most burst + rate * (the time between them) |
| RateLimiter.KeysAreIndependent | backend/go-api/internal/api/middleware.go:42-50 | the decisions for a key in a run of many keys are those of its own bucket on its own requests |
| RateLimiter.WindowBound | backend/go-api/internal/api/middleware.go:38-66 | the requests of a key admitted from t1 to t2 number at most burst + rate * (t2 - t1), whatever other keys do |
| RateLimiter.AllowIsOptimal | backend/go-api/internal/api/middleware.go:38-66 | greedy optimality for each key of a run of many keys |
| RateLimiter.RateLimiter.Allow | backend/go-api/internal/api/middleware.go:38-66 | the method decides and updates the bucket of its key as the model says, creates it full if it is new, and changes no other bucket |
| RateLimiter.TokenBucket.Check | backend/go-api/internal/api/middleware.go:52-65 | refill, cap and charge in place |
| Merkle.VerifyMerkleProof | circuits/noir/lib/src/merkle.nr:4-23 | the ten-iteration loop computes the climb over the levels below the depth |
| Merkle.ForgeryIsCollision | circuits/noir/lib/src/merkle.nr:4-23 | reaching the root of a perfect tree without the genuine leaf and siblings yields a computed collision of the pair hash |
| Merkle.AuthenticClimbs | circuits/noir/lib/src/merkle.nr:11-22 | completeness: the genuine leaf and siblings reach the root |
| Merkle.AcceptsExactlyAuthentic | circuits/noir/lib/src/merkle.nr:4-23 | for depth at most 10 and a collision-free hash the verifier accepts exactly the leaf at the index spelled by the direction bits with exactly its sibling roots |
| Merkle.AcceptsIffProves | circuits/noir/lib/src/merkle.nr:4-23 | the same for any depth given against a tree of any depth d: below d it accepts exactly the root of the subtree over the leaves whose numbers begin with the directions, above d exactly what leads up to the leaf of the last d directions |
| Merkle.BeyondDepthIsIgnored | circuits/noir/lib/src/merkle.nr:12-20 | entries at or beyond the depth never matter, and a depth above 10 means 10 |
| Merkle.InclusionCircuit | circuits/noir/consent-party-proof/src/main.nr:15-39 | the loop and asserts of the party circuit, which the scope circuit repeats |
| Merkle.CircuitRefinesVerifier | circuits/noir/consent-party-proof/src/main.nr:22-38 | for every placement of zeros the circuit is the general verifier with directions 0 on the non-zero siblings compacted to the front, plus the binding to the consent id |
| Merkle.CircuitProvesSpine | circuits/noir/consent-scope-proof/src/main.nr:22-35 | for any hash, tree and number of non-zero siblings an accepted proof leads along the left edge of the tree, up to computed collisions, and every such proof is accepted |
| Merkle.CircuitAcceptsIff | circuits/noir/consent-party-proof/src/main.nr:15-39 | against a perfect tree of any depth d, with a collision-free hash, k non-zero siblings are accepted if and only if the public values agree and the siblings prove, with all directions 0, the node k steps down, or for k above d a way up to a leaf |
| Merkle.LeftmostLeaves | circuits/noir/consent-party-proof/src/main.nr:22-30 | that node is the root over the first 2^(d-k) leaves, and that leaf the first |
| Merkle.RootPassesAsLeaf | circuits/noir/consent-party-proof/src/main.nr:22-38 | the root of any tree passes as a party of it, with ten zeros |
| Signatures.RecoveryByte | src/libraries/SignatureLib.sol:71-84 | a signature is read exactly when it has 65 bytes ending in 0, 1, 27 or 28, and 27 and 28 read like 0 and 1 |
| Signatures.SignatureLayout | src/libraries/SignatureLib.sol:71-84 | a signature is r, s and v in this order: ecrecover gets the first two words, and 27 or 28 for v; any other v or length reverts |
| Signatures.MultiSigIsAllSigned | src/libraries/SignatureLib.sol:56-69 | the check succeeds exactly when the i-th signature recovers the i-th signer for all i |
| Signatures.FirstFailureDecides | src/libraries/SignatureLib.sol:56-69 | of the signatures that do not recover their signer the first decides between a revert, with its reason, and false |
| Signatures.VerifyMultiSig | src/libraries/SignatureLib.sol:56-69 | the loop returns true exactly then, and otherwise the first signature that fails decides between false and a revert |
| Signatures.AggregateSignatures | src/libraries/SignatureLib.sol:86-101 | the filled buffer is the concatenation of the signatures |
| Signatures.JoinedSplits | src/libraries/SignatureLib.sol:86-101 | 65-byte signatures can be cut out of the joined buffer again |
| ConsentTerms.HashConsentIsHashStruct | src/libraries/ConsentLib.sol:16-31 | the consent hash is hashStruct of EIP-712 of its five named members, the type string being their encodeType |
| ConsentTerms.SeparatorIsHashStruct | src/libraries/SignatureLib.sol:9-30 | the domain separator is hashStruct of EIP-712 of name, version, chain id and contract |
| ConsentTerms.DigestIsEip712 | src/libraries/SignatureLib.sol:32-43 | the signed digest is that of EIP-712: the bytes 0x19 and 0x01, domain separator and hashStruct of the consent |
| ConsentTerms.DigestBinds | src/libraries/SignatureLib.sol:32-43 | two statements with one digest are the same domain and terms, or a keccak collision is computed |
| ConsentTerms.IdPreimageIsAbi | src/libraries/ConsentLib.sol:33-43 | what is hashed to the identifier is read back as the ABI encoding of the five fields: lists and text through their offsets, times from their words, zero bytes after the text up to a whole word |
| ConsentTerms.IdBinds | src/libraries/ConsentLib.sol:33-43 | two terms with one consent id are equal, or their encodings collide |
| ConsentTerms.ContainsParty | src/libraries/ConsentLib.sol:60-65 | the loop with early return decides membership |
| Registry.RegisterAcceptedIff | src/contracts/ConsentRegistry.sol:35-51 | a registration succeeds exactly with a party, unregistered terms and signatures that recover every party |
| Registry.RegisterRevertsIff | src/contracts/ConsentRegistry.sol:39-43 | which revert a refused registration meets first |
| Registry.SignatureReverts | src/libraries/SignatureLib.sol:56-69 | if only the signatures are wrong, the first that does not recover its party decides the revert |
| Registry.UpdateAcceptedIff | src/contracts/ConsentRegistry.sol:96-133 | an update succeeds exactly for an existing consent with sound new terms and signatures that recover every party, after which the consent is valid unless revoked or not yet begun |
| Registry.UpdateRevertsIff | src/contracts/ConsentRegistry.sol:96-133 | which revert a refused update meets first |
| Registry.RevokeAcceptedIff | src/contracts/ConsentRegistry.sol:78-94 | a revocation succeeds exactly from a party of an existing consent that is not revoked; it sets the flag of that consent and leaves all other consents and parts of the storage as they were |
| Registry.PartyIndexAgreement | src/contracts/ConsentRegistry.sol:64-73 | in every reachable state an id is in a party's list iff it exists and names the party, lists have no duplicates, the index is list membership, and the count is the number of existing ids |
| Registry.SignedTerms | src/contracts/ConsentRegistry.sol:35-133 | in every run each stored consent goes back to an accepted registration of that run, whose terms have its key as identifier and differ in validUntil and URI only, and its current terms are those of the latest accepted transaction to write them; each of the two carried a signature vector whose i-th entry recovers the i-th party from the digest of the terms it wrote |
| Registry.SignaturesStayGood | src/contracts/ConsentRegistry.sol:96-133 | signatures once accepted for terms of a consent are accepted again by updateConsent, after whatever run, exactly when those terms still validate, and bring the terms back |
| Registry.SignaturesRegisterToo | src/libraries/SignatureLib.sol:32-43 | they also register those terms as a consent of their own, after whatever run, exactly when the identifier of the terms is not registered |
| Registry.RegistrationIgnoresTimes | src/contracts/ConsentRegistry.sol:35-66 | a registration is accepted whatever the times are, and the consent can ever be valid exactly if validFrom is before validUntil |
| Registry.RegisteredOnce | src/contracts/ConsentRegistry.sol:42-43 | terms once registered can never be registered again, whatever updates and revocations follow |
| Registry.RevocationIsFinal | src/contracts/ConsentRegistry.sol:78-133 | after an accepted revocation in any run, and whatever transactions follow, the consent is revoked and valid at no time, and keeps id, parties, scopes, validFrom and creation time |
| Registry.FlagIsRevocation | src/contracts/ConsentRegistry.sol:78-94 | in every reachable state the flag of a consent is set if and only if the run holds an accepted revocation of it |
| Registry.ValidIff | src/contracts/ConsentRegistry.sol:192-203 | in every run a consent is valid at a time if and only if an accepted transaction registered it, its validFrom has come, the end that the latest accepted transaction wrote has not, and no accepted transaction revoked it |
| Registry.EvolvesRun | src/contracts/ConsentRegistry.sol:35-133 | over every run consents are never removed, only validUntil, URI and the revoked flag change, and the flag only to true |
| Registry.ListingIsExact | src/contracts/ConsentRegistry.sol:173-203 | in every reachable state the active listing of a party has, once each and in the order of their registrations in the run, exactly the consents that by the accepted transactions of the run name it, have begun, have not ended and are not revoked |
| Registry.ActiveOfIsSubsequence | src/contracts/ConsentRegistry.sol:173-190 | the listing keeps the order of the party's list |
| Registry.ListsOnlyGrow | src/contracts/ConsentRegistry.sol:68-73 | a run only appends to a party's list |
| RegistryContract.ConsentRegistry.RegisterConsent | src/contracts/ConsentRegistry.sol:35-76 | the method is the modelled transaction, with each revert in its place and the storage unchanged by it; the five parts of the storage still agree |
| RegistryContract.ConsentRegistry.RevokeConsent | src/contracts/ConsentRegistry.sol:78-94 | likewise |
| RegistryContract.ConsentRegistry.UpdateConsent | src/contracts/ConsentRegistry.sol:96-133 | likewise |
| RegistryContract.ConsentRegistry.GetActiveConsentsForParty | src/contracts/ConsentRegistry.sol:173-190 | counting and filling passes agree: the array is filled exactly with the active ids in list order |
| RegistryContract.ConsentRegistry.CheckValid | src/contracts/ConsentRegistry.sol:196-203 | the cascade of guards is validity |
| RegistryContract.ConsentRegistry.AreConsentsValid | src/contracts/ConsentRegistry.sol:165-171 | one answer per id, each its validity |
| AbiCodec.EncodeRegisterConsent | backend/go-api/internal/contracts/client.go:204-245 | the appended bytes are selector, head and both lists; it panics exactly when the duration does not fit 32 bytes |
| AbiCodec.DecodeScopes | backend/go-api/internal/contracts/client.go:309-319 | the loop fills each announced entry that lies within the data, and panics where slicing or allocation does |
| AbiCodec.TailReads | backend/go-api/internal/contracts/client.go:309-319 | what comes back for any data and offset, and exactly when it panics: the count is the low 64 bits of the length word, entries beyond the data stay zero |
| AbiCodec.AddressTailReads | backend/go-api/internal/contracts/client.go:297-307 | the same for addresses, which are the last 20 bytes of each entry |
| AbiCodec.PartiesRoundTrip | backend/go-api/internal/contracts/client.go:213-235 | parties, through the written offset, and duration come back for all lists |
| AbiCodec.ScopesRoundTrip | backend/go-api/internal/contracts/client.go:237-242 | scopes come back from offset 128 + 32n for all lists |
| AbiCodec.WrittenOffsetIsOneWordTooFar | backend/go-api/internal/contracts/client.go:219-222 | the written offset is exactly 32 larger |
| AbiCodec.ScopesThroughWrittenOffset | backend/go-api/internal/contracts/client.go:219-319 | through the written offset the scopes come back if and only if there are none |
| AbiCodec.Bytes32RoundTrips | backend/go-api/internal/contracts/client.go:342-350 | a string survives bytes32 exactly when it has at most 32 bytes and no trailing zero byte; a word always survives the string |
| AbiCodec.StringIsKept | backend/go-api/internal/contracts/client.go:342-346 | a word keeps the first 32 bytes of any string, with zeros after a shorter one |
| GuestEnv.BuildGuestEnv | circuits/rust-zk-service/src/risc_zero.rs:123-132 | the loop writes the buffer of the joint list of inputs |
| GuestEnv.ChunkReads | circuits/rust-zk-service/src/risc_zero.rs:123-132 | each input stands whole behind the low 32 bits of its length |
| GuestEnv.RoundTrip | circuits/rust-zk-service/src/risc_zero.rs:123-132 | parsing recovers the inputs if and only if each is shorter than 2^32 bytes |
| GuestEnv.Injective | circuits/rust-zk-service/src/risc_zero.rs:123-132 | then the buffer determines exactly the joint list, not where the public inputs end |
| BlockRanges.BlockCoverage | backend/event-indexer/cmd/main.go:191-260 | over all polls of a run a block is requested exactly once if it lies above the start and at or below some reported height, and never otherwise; the requests are ordered and disjoint |
| BlockRanges.LastBlockIsHighest | backend/event-indexer/cmd/main.go:206-268 | after any polls lastBlock is the greatest of the start and the heights reported |
| BlockRanges.QueriesAreMade | backend/event-indexer/cmd/main.go:230-258 | each request is a full batch or the rest up to the height of its poll, and its logs are what the node answers |
| BlockRanges.AllLogsHandled | backend/event-indexer/cmd/main.go:206-260 | if the node answers every query, the logs of all blocks above the start and up to the greatest reported height are handled, each once and in order |
| BlockRanges.RunEndToEnd | backend/event-indexer/cmd/main.go:206-260 | the requested ranges lie end to end, none empty or longer than a batch |
| BlockRanges.NothingLostIffFailuresEmpty | backend/event-indexer/cmd/main.go:239-260 | the handled logs are exactly those of the covered blocks, in order, if and only if the failed ranges hold none |
| BlockRanges.ChainListener.constructor | backend/event-indexer/cmd/main.go:191-228 | start block and batch size |
| BlockRanges.ChainListener.DoPoll | backend/event-indexer/cmd/main.go:206-268 | one poll is the modelled step, after which lastBlock is the reported height if that was higher, unless the uint64 counter wraps, which happens exactly when from + (latest - from) / batchSize * batchSize + batchSize reaches 2^64 |
| BlockRanges.QueriesNameRangesIff | backend/event-indexer/cmd/main.go:236-239 | the int64 bounds sent to the node are the blocks of the range, in all queries of a run, if and only if lastBlock stays below 2^63 or nothing is asked |
| BlockRanges.ChainListener.Scan | backend/event-indexer/cmd/main.go:230-258 | the batching loop requests the batches of the poll in order, with bounds converted to int64, and handles the logs of the successful ones |
| BlockRanges.NoWrapBelow | backend/event-indexer/cmd/main.go:230-234 | there is no wrap when toBlock + batchSize is below 2^64 |
| EventStore.KeyInjective | backend/event-indexer/internal/redis/client.go:66-86 | the cache key tells chain and consent apart |
| EventStore.HexIs | backend/event-indexer/internal/redis/client.go:66-86 | the id in a key is 0x and two hexadecimal digits for each byte, the high half first |
| EventStore.RegistrationIsCached | backend/event-indexer/cmd/main.go:305-380 | a log with the registration topic and the encoding of an event puts its lists, times and transaction under the key of its chain and consent, and changes nothing else |
| EventStore.RevocationIsApplied | backend/event-indexer/cmd/main.go:382-411 | a log with the revocation topic removes exactly the key of its chain and of the consent its data begins with, raises the flags of the page of that consent, and changes nothing else |
| EventStore.OtherLogsAreIgnored | backend/event-indexer/cmd/main.go:272-312 | logs without topics, with another topic or with too little data change nothing |
| EventStore.PanicStops | backend/event-indexer/cmd/main.go:317-320 | a registration whose party list lies beyond the largest int64 ends the process: nothing it delivers later counts, and what was stored stays |
| EventData.DecodeList | backend/event-indexer/cmd/main.go:317-342 | each list loop reads what the model says, and stops where it panics |
| EventData.ListReads | backend/event-indexer/cmd/main.go:317-342 | for any offset and count a list is read as its announced entries as far as they lie in the data, and the handler panics exactly if the offset or the position after the last announced entry passes the largest int64 |
| EventData.EventRoundTrip | backend/event-indexer/cmd/main.go:305-361 | the ABI encoding of the event is read back for all lists, scopes as strings and times modulo 2^64 |
| EventData.PanickingData | backend/event-indexer/cmd/main.go:317-320 | 128 bytes that make the handler panic |
| EventStore.CacheIsLatest | backend/event-indexer/cmd/main.go:272-411 | after any deliveries the cache holds under each key the effect of the latest event about it before the first panic |
| EventStore.FlagsAreRevocations | backend/event-indexer/cmd/main.go:382-411 | a point's flag is raised exactly by a revocation of its consent, if the point is on the first page of its consent's points, and never lowered |
| EventStore.RevocationReachesAllIff | backend/event-indexer/internal/qdrant/client.go:103-153 | a revocation leaves all points of its consent flagged if and only if those off the first page were, and there are none off it if and only if there are at most 100 |
| EventStore.InterleavingIndependence | backend/event-indexer/cmd/main.go:103-114 | any two interleavings of the same per-chain streams end in the same cache and flags if no log makes the handler panic, and otherwise both meet a panic |
| EventStore.OrderMattersWithPanic | backend/event-indexer/cmd/main.go:272-380 | after a panic they need not agree: a registration is cached only if it comes first |
| EventStore.ConcurrentIsSequential | backend/event-indexer/cmd/main.go:103-114 | every interleaving ends as handling the chains one after another if no log makes the handler panic, and otherwise both meet a panic |
| EventStore.EventHandler.ProcessEventLog | backend/event-indexer/cmd/main.go:272-303 | dispatch on the first topic; unknown or missing topics change nothing |
| EventStore.EventHandler.HandleConsentRegistered | backend/event-indexer/cmd/main.go:305-380 | caches the decoded document under its key, ignores data below 128 bytes, and tells of a panic |
| EventStore.EventHandler.HandleConsentRevoked | backend/event-indexer/cmd/main.go:382-411 | raises the flags of one page and deletes the key, ignores data below 32 bytes |
| IndexerRuns.IndexerIsSequential | backend/event-indexer/cmd/main.go:103-270 | all listeners together, with any polls and any interleaving, leave the stores as handling all covered blocks chain after chain, if no failed range held logs and no handler panics |
| ReplayWindow.ReplaySpacing | solana-programs/programs/consent-verifier/src/lib.rs:24-45 | the window is always the last min(n, 1000) accepted hashes in order without duplicates, and two acceptances of one hash have at least 1000 others in between |
| ReplayWindow.AcceptedIff | solana-programs/programs/consent-verifier/src/lib.rs:24-45 | in every run a proof is accepted exactly when it is not among the last 1000 acceptances and the signature recovers the given key; otherwise the first of these that fails is the error and nothing changes |
| ReplayWindow.VerifierAccount.VerifyConsentProof | solana-programs/programs/consent-verifier/src/lib.rs:14-54 | the checks in their order, and the push and trim of the window |
| ConsentToken.AlwaysConsistent | src/contracts/ConsentToken.sol:24-69 | over all runs the two maps are inverse on exactly the active receipts, totalMinted is nextTokenId - 1, and only handed-out ids have holders |
| ConsentToken.IdsAreNeverReused | src/contracts/ConsentToken.sol:32-37 | a handed-out id keeps its supply over every run and is never given to another consent |
| ConsentToken.SupplyIsFixedAtMint | src/contracts/ConsentToken.sol:43-69 | a receipt's supply is the number of party entries at mint, whatever burns and transfers follow |
| ConsentToken.TransferKeepsSupply | src/contracts/ConsentToken.sol:9-10 | an inherited transfer moves tokens between two holders and changes no supply |
| ConsentToken.MintAcceptedIff | src/contracts/ConsentToken.sol:24-54 | a mint succeeds exactly for a consent without receipt and parties that are neither none nor the zero address nor refusing; only the next id and that consent change |
| ConsentToken.BurnAcceptedIff | src/contracts/ConsentToken.sol:56-69 | a burn succeeds exactly for a consent with a receipt; it takes its token, URI and balances away, changes no other consent, and no holder loses a token |
| ConsentToken.TransferAcceptedIff | src/contracts/ConsentToken.sol:9-10 | a transfer succeeds exactly between accounts other than the zero address, with enough tokens and a receiver that does not refuse |
| ConsentToken.BalanceIs | src/contracts/ConsentToken.sol:82-91 | the balance seen through a consent is that of its token, and 0 without a receipt |
| ConsentToken.LookupsAreInverse | src/contracts/ConsentToken.sol:71-80 | the lookups by consent and by token undo each other, except for the consent whose id is the zero word |
| ConsentToken.MintAfterBurn | src/contracts/ConsentToken.sol:56-91 | minting again gives a larger id, leaves the old tokens with their holders, and resets the balances seen through the consent |
| ConsentToken.Receipts.MintConsentReceipt | src/contracts/ConsentToken.sol:24-54 | the method is the modelled mint, which reverts if a receiver refuses; a revert changes nothing; consistent maps stay consistent |
| ConsentToken.Receipts.BurnConsentReceipt | src/contracts/ConsentToken.sol:56-69 | the method is the modelled burn |

## Left out

- int32 wrap-around of the pool counters: they are unbounded here.
- Data races on the status and the other fields of a task than `Retries`: a step reads and writes them at once. The backoff may read `Retries` again, which changes only how long a timer waits.
- Handlers that panic, never return, or change the retry fields of their task.
- Fair scheduling and real time: a timer may fire at any moment, and the backoff is a function of its own.
- PoolObject.Pool.Stats: reads the four counters at one instant; `StatsWhileOthersRun` covers steps between the loads.
- Rounding of float64 tokens: they are reals. Negative rates.
- RateLimiter.WindowBound: needs a clock that does not go back, as the monotonic clock of the original does not.
- uint256 overflow of the counters of the contracts, gas, events and the reentrancy guard.
- getConsent, getConsentsBatch and the other plain getters of the contracts.
- The head fields and the existence flag of decodeConsentData, and the other four encoders, which append one word.
- BlockRanges.ChainListener.Scan: stops before the batch whose counter wraps, and tells so.
- BlockRanges.ChainListener.DoPoll: stops before the batch whose counter wraps; what the wrapped loop does then is not modelled.
- Lower-casing of addresses and the JSON form of cached documents; how long a loop over a huge announced count takes before it panics.
- Redis expiry, failing store calls, and missing store clients. Which points a Qdrant page holds is a parameter that depends on the matching points only.
- Calls that a receiver makes back into the token contract while it is asked to accept, and approvals for transfers.
- keccak256, SHA-256, ecrecover, secp256k1 recovery and the Pedersen hash themselves.
- HTTP handlers, other contracts and programs, and proving: simpler machines that would only add easy members.
