# Verified model of Arweave's native mining and verification kernel

This project models the C and C++ code under `apps/arweave/c_src` that mines,
packs and verifies: the VDF prover and its parallel verifiers, the bulk mining
loop and recall-byte arithmetic, the lifecycle of the shared RandomX dataset,
the Feistel packing cipher and the pipelined long RandomX hash. SHA-256
(section 6.2 of FIPS 180-4), BLAKE2b (RFC 7693), the RandomX machine and GMP
are foreign code: hashes and machine primitives are arbitrary function-valued
parameters, so every result holds for all of them, and `mpz` values are
mathematical integers.

| file | contents |
|---|---|
| Bytes.dfy | bytes, 32-byte words, big-endian values, the in-place salt counter, exclusive or |
| HashChain.dfy | a chain of segments in blocks, and the claim a verifier checks, for arbitrary segment functions |
| VdfSpec.dfy | the salted SHA-256 chain and the reset |
| VdfProver.dfy | the prover with its two unrolled branches, and the prover against the chain |
| VdfVerifier.dfy | the parallel verifier as a transition system |
| VdfVerifierProof.dfy | its invariant, kept by every step |
| VdfVerifierTheorems.dfy | verdict, buffer, termination, claims and writes over all schedules |
| VdfVerifierCode.dfy | the sequential code inside the verifier threads |
| VdfTheorems.dfy | both verifiers against the prover and against each other |
| VdfLaws.dfy | prover and verifiers against one flat sequence of hashes, and closed forms under three concrete hashes |
| ChainedCipher.dfy, Feistel.dfy, Packing.dfy | chaining for arbitrary block functions, the Feistel cipher on buffers, chunks |
| RandomxLong.dfy | the machine, one-shot and pipelined long hash |
| RecallByte.dfy, BulkHash.dfy | recall bytes and search windows, the bulk mining loop |
| SharedState.dfy, DatasetLifecycle.dfy | `struct state` from init to destructor, and its concurrent use |

## How the parallel verifier is modelled

A state holds the locals of main and of every worker, `in_progress`,
`verifyRes` and the output buffer. A schedule is any sequence of choices of the
thread that moves next. One step is one access to shared data: spawning a
worker (with its claim) under the mutex, the test of `verifyRes` at the top of
a worker's loop, the write of one row, the comparison with the checkpoint, the
scan for the next unclaimed checkpoint under the mutex, main's test of
`verifyRes`, main's rows and comparison, one join, the return. Both verifiers
are instances: the plain one never mixes, the one with a reset tests for it
before the row loop and after every segment, including the last test of a
block, whose result nobody uses.

Two statements one might expect are false of the code, and the project shows it:

- "Each checkpoint is processed once": the spawn loop does not look at
  `in_progress`. `DoubleClaim` gives a run in which an index is stolen and then
  spawned; `ClaimedTwiceIff` says for every claim exactly which indices this can
  happen to, and `NeverClaimedTwiceIff` what the two counts alone tell: it
  cannot happen with one checkpoint or one thread, and with more it can.
  `ClaimCounts` shows that nothing is claimed three times, `SameRowSameBytes`
  that the second write repeats the first.
- "The verifier accepts the prover's output": with one or fewer
  `hashingIterations` the branch without skips still hashes twice while the
  branch with skips does not. `AlwaysAcceptedIff` gives the exact condition,
  `ProverRejectedBelowTwo` a hash function for which the prover is rejected,
  and `VerifierRejectsProverBelowTwo` a run of the parallel verifier that does it.

## Model

| member | source | states |
|---|---|---|
| `Bytes.AddValue` | apps/arweave/c_src/vdf.cpp:48-58 | the byte-wise addition with carry is addition modulo 256^length of the big-endian number, for every salt and every summand |
| `Bytes.AddAdd` | apps/arweave/c_src/vdf.cpp:93-93 | two jumps of the salt are one jump, so unit increments of the prover reach the salt of the verifier's direct jump |
| `Bytes.AddDistinct` | apps/arweave/c_src/vdf.cpp:48-58 | counting from a salt does not repeat within 2^256 steps |
| `Bytes.ValueConcat` | apps/arweave/c_src/vdf.cpp:48-58 | bytes are most significant first: the value of a concatenation is the first value shifted by the length of the second, plus the second |
| `Bytes.LongAdd` | apps/arweave/c_src/vdf.cpp:48-58 | the early-exit carry loop leaves (salt + n) mod 2^256 in the buffer for every int n >= 0, with a sum below 2^32 in every turn |
| `Bytes.CarryLoop` | apps/arweave/c_src/vdf.cpp:51-57 | the loop, stopped early or not, leaves the byte-wise sum |
| `Bytes.AddByte` | apps/arweave/c_src/vdf.cpp:52-55 | one turn of the carry loop keeps the pending sum, and the next accumulator stays below 2^31 |
| `Bytes.XorCancel` | apps/arweave/c_src/feistel_msgsize_key_cipher.cpp:27-32 | exclusive or with the same byte twice gives the byte back |
| `Bytes.XorBitAt` | apps/arweave/c_src/feistel_msgsize_key_cipher.cpp:29-29 | bit i of the exclusive or is set exactly when bit i of the operands differs |
| `Bytes.XorBit` | apps/arweave/c_src/feistel_msgsize_key_cipher.cpp:48-48 | the same for the eight bits of a byte |
| `HashChain.StepsSplit` | apps/arweave/c_src/vdf.cpp:185-191 | a run of segments can be cut anywhere and resumed at the next step number |
| `HashChain.OffsetIsProduct` | apps/arweave/c_src/vdf.cpp:174-177 | the offset used for block c, in rows and in salts, is c * (1 + skip) |
| `HashChain.AcceptedIffOnChain` | apps/arweave/c_src/vdf.cpp:164-196 | checking each block from its claimed input accepts exactly the claims whose every block end lies on the chain from the seed |
| `HashChain.TasksAgree` | apps/arweave/c_src/vdf.cpp:313-374 | verdict and chain depend only on the steps of the run |
| `VdfSpec.ResetDueOnce` | apps/arweave/c_src/vdf.cpp:335-349 | among fewer than 2^256 step numbers at most one is the reset step |
| `VdfSpec.ResetRestartsChain` | apps/arweave/c_src/vdf.cpp:335-349 | with the reset at step d the chain is the plain chain up to d, one mix, and the plain chain from there: the mix is applied exactly once even on a block boundary |
| `VdfSpec.ResetOutsideRun` | apps/arweave/c_src/vdf.cpp:434-448 | a reset step that is none of the run's step numbers changes neither the sequential verdict nor any chain value |
| `VdfProver.HashLoop` | apps/arweave/c_src/vdf.cpp:79-85 | the loop from i makes iters - i hashes (none if negative) under the current salt |
| `VdfProver.NoSkipBlock` | apps/arweave/c_src/vdf.cpp:72-93 | one block without skips is max(2, iters) hashes and advances the salt by one |
| `VdfProver.MiddleSegments` | apps/arweave/c_src/vdf.cpp:116-126 | the middle segments of a block with skips, one salt each |
| `VdfProver.UnrolledSkipBlock` | apps/arweave/c_src/vdf.cpp:100-142 | one block with skips: first, middle and last segment as unrolled in the code; the salt advances by 1 + skip |
| `VdfProver.ProveInPlace` | apps/arweave/c_src/vdf.cpp:64-145 | all checkpoints, the result and the final salt, each block reading the stored checkpoint before it |
| `VdfProver.VdfSha2` | apps/arweave/c_src/vdf.cpp:152-159 | the same results with the caller's salt untouched |
| `VdfProver.BlockIsHops` | apps/arweave/c_src/vdf.cpp:67-144 | with at least two iterations, or no skips, both branches compute plain segments |
| `VdfProver.ProveIsChain` | apps/arweave/c_src/vdf.cpp:64-145 | the prover's checkpoints are the chain values at the block ends |
| `VdfProver.SkipBranchSamplesNoSkipBranch` | apps/arweave/c_src/vdf.cpp:95-144 | the branch with skips gives the values and the salts that the branch without skips gives after (c + 1) * (1 + skip) segments |
| `VdfProver.ResumedRun` | apps/arweave/c_src/vdf.cpp:64-145 | a run stopped after any checkpoint and resumed from its result with the advanced salt gives the values and the final salt of the unsplit run, for every skip and iteration count |
| `VdfProver.AcceptedIffProverOutput` | apps/arweave/c_src/vdf.cpp:164-196 | the sequential check accepts the prover's output and nothing else |
| `VdfProver.ProverRejectedBelowTwo` | apps/arweave/c_src/vdf.cpp:79-92 | for iters < 2 and skip >= 1 a counting hash makes the check reject the prover's own result |
| `VdfProver.AlwaysAcceptedIff` | apps/arweave/c_src/vdf.cpp:67-144 | the check accepts the prover's output for every hash, salt, seed and count if and only if iters >= 2 or skip == 0 |
| `VdfVerifier.FirstFree` | apps/arweave/c_src/vdf.cpp:201-211 | the least unclaimed index at or after a position, or the count |
| `VdfVerifier.StealNext` | apps/arweave/c_src/vdf.cpp:198-212 | the scan claims exactly the first unclaimed later checkpoint, or nothing |
| `VdfVerifierProof.RowUnique` | apps/arweave/c_src/vdf.cpp:174-191 | the row ranges of different blocks do not overlap |
| `VdfVerifierProof.AdvanceOk` | apps/arweave/c_src/vdf.cpp:339-349 | a turn of the row loop computes the next value of the block although the mix for the next segment is prepared early |
| `VdfVerifierProof.WorkerStepKeepsInv` | apps/arweave/c_src/vdf.cpp:164-216 | every worker step keeps the invariant: claimed checkpoints are done or being worked on, every index up to a worker's own is claimed, a false flag means a wrong claim |
| `VdfVerifierProof.MainStepKeepsInv` | apps/arweave/c_src/vdf.cpp:241-294 | every step of main keeps it, spawning included |
| `VdfVerifierProof.RunKeepsInv` | apps/arweave/c_src/vdf.cpp:164-295 | the invariant holds along every schedule |
| `VdfVerifierTheorems.RowBlock` | apps/arweave/c_src/ar_mine_vdf.h:102-104 | every row of the output buffer belongs to some block, so workers' and main's ranges partition it |
| `VdfVerifierTheorems.VerdictIsSequential` | apps/arweave/c_src/vdf.cpp:164-295 | for every schedule and every maxThreadCount >= 1 the returned verdict is the sequential one, and after acceptance the buffer holds every chain value in order |
| `VdfVerifierTheorems.VerdictIsDeterministic` | apps/arweave/c_src/vdf.cpp:218-295 | two completed runs on the same claim agree on the verdict and on the accepted buffer, whatever their schedules, thread counts and initial buffer contents |
| `VdfVerifierTheorems.FailedRunStartsNoBlock` | apps/arweave/c_src/vdf.cpp:167-169 | once verifyRes is false it stays false and no worker, and not main, starts another block |
| `VdfVerifierTheorems.WorkerMovesOn` | apps/arweave/c_src/vdf.cpp:202-210 | a worker's index never decreases, a steal strictly increases it, and the worker's remaining work shrinks in every step |
| `VdfVerifierTheorems.RunsAreBounded` | apps/arweave/c_src/vdf.cpp:231-292 | every schedule is finite, with a bound that depends on the job only |
| `VdfVerifierTheorems.StuckOnlyWhenReturned` | apps/arweave/c_src/vdf.cpp:285-292 | a reached state in which no thread can move is exactly one that has returned: no deadlock |
| `VdfVerifierTheorems.RunCanFinish` | apps/arweave/c_src/vdf.cpp:285-294 | every run can be continued until it returns |
| `VdfVerifierTheorems.ClaimCounts` | apps/arweave/c_src/vdf.cpp:198-250 | no checkpoint is claimed more than twice, twice only for 1 <= i < min(maxThreadCount, checkpointCount), and after acceptance each at least once |
| `VdfVerifierTheorems.ThreadsSpawned` | apps/arweave/c_src/vdf.cpp:241-250 | when spawning is over exactly the first min(maxThreadCount, checkpointCount) checkpoints have been spawned, one thread each |
| `VdfVerifierTheorems.DoubleClaim` | apps/arweave/c_src/vdf.cpp:241-250 | for every spawned index i and every right checkpoint before it, a run exists in which i is stolen and then spawned as well |
| `VdfVerifierTheorems.ClaimedTwiceIff` | apps/arweave/c_src/vdf.cpp:198-250 | for every claim, index i can be claimed twice in some run if and only if i < min(maxThreadCount, checkpointCount) and some checkpoint before i is right |
| `VdfVerifierTheorems.ClaimedTwiceOnlyIf` | apps/arweave/c_src/vdf.cpp:193-210 | only a worker that has passed its own comparison steals, so two claims of i need a right checkpoint before i and the spawn of i |
| `VdfVerifierTheorems.NeverClaimedTwiceIff` | apps/arweave/c_src/vdf.cpp:241-250 | for any chain, no claim of n checkpoints ever has one claimed twice if and only if n <= 1 or maxThreadCount is 1 |
| `VdfVerifierTheorems.SameRowSameBytes` | apps/arweave/c_src/vdf.cpp:187-188 | in every run, accepting or not, two writes of one row write the same bytes |
| `VdfVerifierCode.FastRevCmp256` | apps/arweave/c_src/vdf.cpp:305-311 | true exactly when the two buffers are equal |
| `VdfVerifierCode.MixInPlace` | apps/arweave/c_src/vdf.cpp:335-337 | mixes in the reset seed exactly when the salt in the buffer is the reset step |
| `VdfVerifierCode.RowLoop` | apps/arweave/c_src/vdf.cpp:332-349 | the row loop writes every intermediate value of the block to its row, touches no other row and ends with the last value |
| `VdfVerifierCode.JumpSalt` | apps/arweave/c_src/vdf.cpp:175-177 | a copy of the start salt, advanced in one jump |
| `VdfVerifierCode.ComputeBlock` | apps/arweave/c_src/vdf.cpp:320-349 | the computation for block c equals 1 + skip steps of the recurrence from step number c * (1 + skip), rows included |
| `VdfTheorems.VerifierAcceptsExactlyProver` | apps/arweave/c_src/vdf.cpp:64-295 | whatever the schedule and the number of threads, the parallel verifier returns true for the prover's output and for nothing else |
| `VdfTheorems.VerifierRejectsProverBelowTwo` | apps/arweave/c_src/vdf.cpp:79-92 | for iters < 2 and skip >= 1 every completed run of the parallel verifier on the prover's own output under a counting hash returns false, and such a run exists |
| `VdfTheorems.ResetVerifierChecksRecurrence` | apps/arweave/c_src/vdf.cpp:313-464 | whatever the schedule, the reset verifier returns true exactly for the block ends of the one-step recurrence with the mix, and then its buffer holds all its values |
| `VdfTheorems.QuietResetChangesNothing` | apps/arweave/c_src/vdf.cpp:376-464 | if the reset step is none of the run's step numbers (the one just after them included) any run of the reset verifier and any run of the plain one agree on verdict and accepted buffer |
| `VdfLaws.ProverIsFlat` | apps/arweave/c_src/vdf.cpp:64-145 | for every hash the checkpoints of the prover are values of one flat sequence in which hash q is SHA-256(salt + (q - 1) div iters, hash q - 1), read every iters * (1 + skip) hashes |
| `VdfLaws.VerifierChecksFlatChain` | apps/arweave/c_src/vdf.cpp:164-295 | whatever the schedule, the plain verifier returns true exactly if checkpoints and result are the values of the flat sequence at the block ends, and then row i of the buffer is the hash that ends segment i |
| `VdfLaws.SaltLaw` | apps/arweave/c_src/vdf.cpp:72-93 | under a hash that keeps the first half of its input checkpoint c is salt + c * (1 + skip) + skip, for every seed and iteration count |
| `VdfLaws.HashCountLaw` | apps/arweave/c_src/vdf.cpp:66-145 | under a hash that counts, checkpoint c is the seed advanced by the number of hashes made: per block iters * (1 + skip), at least two without skips, and two with skips and no iterations |
| `VdfLaws.ResetLaw` | apps/arweave/c_src/vdf.cpp:297-304 | under a hash that keeps the second half of its input the chain with a reset at step d is the seed up to d and the reset seed after it |
| `VdfLaws.ResetChainIsFlat` | apps/arweave/c_src/vdf.cpp:335-349 | for every hash the chain with a reset at step d is the flat sequence up to d, SHA-256(its value there, reset seed), and a flat sequence under salt + d from that |
| `VdfLaws.ResetVerifierChecksFlatChain` | apps/arweave/c_src/vdf.cpp:313-464 | whatever the schedule, the verifier with a reset returns true exactly for the block ends of that sequence, and then its buffer holds the ends of all segments |
| `ChainedCipher.EncryptPrefix` | apps/arweave/c_src/feistel_msgsize_key_cipher.cpp:96-118 | the ciphertext of a block prefix is the prefix of the ciphertext |
| `ChainedCipher.EncryptUnique` | apps/arweave/c_src/feistel_msgsize_key_cipher.cpp:108-117 | the ciphertext is the only solution of the chaining equations |
| `ChainedCipher.DecryptsEncrypted` | apps/arweave/c_src/feistel_msgsize_key_cipher.cpp:120-140 | decryption inverts encryption, for any invertible block function and any mix |
| `ChainedCipher.EncryptsDecrypted` | apps/arweave/c_src/feistel_msgsize_key_cipher.cpp:96-118 | encryption inverts decryption |
| `ChainedCipher.PlaintextChangeSpreadsForward` | apps/arweave/c_src/feistel_msgsize_key_cipher.cpp:96-118 | messages that agree before block i have ciphertexts that agree before block i, and ciphertext block i agrees exactly when plaintext block i does |
| `ChainedCipher.CiphertextChangeStaysLocal` | apps/arweave/c_src/feistel_msgsize_key_cipher.cpp:120-140 | a changed ciphertext block i changes plaintext block i, possibly i + 1, and no other |
| `Feistel.FeistelInverse` | apps/arweave/c_src/feistel_msgsize_key_cipher.cpp:16-91 | the two block functions are inverse to each other under every key and every round hash |
| `Feistel.RoundEquations` | apps/arweave/c_src/feistel_msgsize_key_cipher.cpp:25-49 | the two round equations (left half mixed under the first key half, then right half under the second) hold exactly of the encrypted block, and exactly of the decrypted one |
| `Feistel.EncryptedIff` | apps/arweave/c_src/feistel_msgsize_key_cipher.cpp:96-118 | a string is the encryption of a message exactly if every 64-byte block satisfies the round equations under its key bytes, mixed from the second block on with the ciphertext before it |
| `Feistel.DecryptedIff` | apps/arweave/c_src/feistel_msgsize_key_cipher.cpp:120-140 | a message is the decryption of a string exactly if the same equations hold |
| `Feistel.RoundTrips` | apps/arweave/c_src/feistel_msgsize_key_cipher.cpp:96-140 | for every message of whole blocks and every key, decrypting the encryption and encrypting the decryption both give the message back |
| `Feistel.PackedPrefix` | apps/arweave/c_src/feistel_msgsize_key_cipher.cpp:96-118 | on bytes: the encryption of a prefix of whole blocks is the prefix of the encryption |
| `Feistel.PackedChangeSpreadsForward` | apps/arweave/c_src/feistel_msgsize_key_cipher.cpp:96-118 | the same for the bytes of the Feistel cipher: nothing before a changed block changes, and the changed block itself always does |
| `Feistel.UnpackedChangeStaysLocal` | apps/arweave/c_src/feistel_msgsize_key_cipher.cpp:120-140 | a changed packed block reaches its own unpacked block, possibly the next one, and no other |
| `Feistel.EncryptBlock` | apps/arweave/c_src/feistel_msgsize_key_cipher.cpp:16-52 | one block is encrypted into its place and satisfies the round equations, also when source and destination are one buffer; all other bytes stay |
| `Feistel.DecryptBlock` | apps/arweave/c_src/feistel_msgsize_key_cipher.cpp:54-91 | likewise for decryption |
| `Feistel.FillFeedKey` | apps/arweave/c_src/feistel_msgsize_key_cipher.cpp:109-111 | the key block is the key mixed with the ciphertext block before it |
| `Feistel.FeistelEncrypt` | apps/arweave/c_src/feistel_msgsize_key_cipher.cpp:96-118 | the forward loop leaves the encryption of the old plaintext, which satisfies the equations of every block, for separate buffers and in place |
| `Feistel.FeistelDecrypt` | apps/arweave/c_src/feistel_msgsize_key_cipher.cpp:120-140 | the back-to-front loop leaves the decryption of the old ciphertext, which satisfies the equations of every block, for separate buffers and in place |
| `Packing.UnpacksPacked` | apps/arweave/c_src/ar_mine_randomx.c:304-338 | for every chunk of 1 to 262144 bytes, pad-encrypt then decrypt-truncate returns the chunk |
| `Packing.PackedIsFeistel` | apps/arweave/c_src/ar_mine_randomx.c:315-338 | the packing is the Feistel ciphertext of the chunk followed by zero bytes up to 262144, and decrypts to exactly that |
| `Packing.KeyEntropyOfTrace` | apps/arweave/c_src/randomx_long_with_entropy.cpp:51-68 | the entropy of a packing key begins the scratchpad left by the last of its programs |
| `Packing.PackedSame` | apps/arweave/c_src/ar_mine_randomx.c:315-338 | two chunks pack to the same bytes exactly when their zero-padded forms are equal |
| `Packing.ReencryptionIsDirectPacking` | apps/arweave/c_src/ar_mine_randomx.c:900-910 | re-encrypting a packed chunk returns the direct packing under the second key and the original chunk |
| `Packing.RandomxEncryptChunk` | apps/arweave/c_src/randomx_long_with_entropy.cpp:101-107 | encryption under the entropy of the key, read from the machine's scratchpad |
| `Packing.RandomxDecryptChunk` | apps/arweave/c_src/randomx_long_with_entropy.cpp:109-116 | decryption under the entropy of the key |
| `Packing.PadChunk` | apps/arweave/c_src/ar_mine_randomx.c:324-326 | the chunk followed by zeros, at the full size |
| `Packing.EncryptChunk` | apps/arweave/c_src/ar_mine_randomx.c:315-338 | both branches, padded and full size, give the packing of the chunk |
| `Packing.DecryptChunk` | apps/arweave/c_src/ar_mine_randomx.c:304-313 | the first outSize bytes of the decryption of the packed buffer; beyond its size, what the output buffer held before |
| `Packing.ReencryptChunk` | apps/arweave/c_src/ar_mine_randomx.c:900-910 | the chunk unpacked under the first key and packed again under the second from the local buffer; within the packed size the result depends on the inputs only, beyond it on bytes never written |
| `RandomxLong.HashOfTrace` | apps/arweave/c_src/randomx_long_with_entropy.cpp:32-49 | over any record of max(1, count) programs, each run from BLAKE2b of the registers and from the scratchpad and rounding mode of the one before, the hash is the digest of what the last one leaves and the entropy begins its scratchpad |
| `RandomxLong.TraceExists` | apps/arweave/c_src/randomx_long_with_entropy.cpp:40-46 | every input and program count has such a record |
| `RandomxLong.ProgramCountLaw` | apps/arweave/c_src/randomx_long_with_entropy.cpp:41-46 | if every program adds one to the rounding mode, the final one is the default plus max(1, count) |
| `RandomxLong.Machine.RunPrograms` | apps/arweave/c_src/randomx_long_with_entropy.cpp:40-46 | resets the rounding mode and runs max(1, count) programs, each seeded by the registers before it |
| `RandomxLong.Machine.HashLongWithEntropy` | apps/arweave/c_src/randomx_long_with_entropy.cpp:32-49 | hash and entropy are a function of the input and the program count alone, whatever the machine held before |
| `RandomxLong.Machine.GetEntropy` | apps/arweave/c_src/randomx_long_with_entropy.cpp:51-68 | the scratchpad begins with the entropy of the input |
| `RandomxLong.Machine.First` | apps/arweave/c_src/randomx_long_with_entropy.cpp:70-73 | primes the machine with an input |
| `RandomxLong.Machine.Next` | apps/arweave/c_src/randomx_long_with_entropy.cpp:75-87 | emits hash and entropy of the primed input although the scratchpad is refilled for the next one in the same call |
| `RandomxLong.Machine.Last` | apps/arweave/c_src/randomx_long_with_entropy.cpp:89-98 | emits hash and entropy of the primed input |
| `RandomxLong.Pipelined` | apps/arweave/c_src/randomx_long_with_entropy.cpp:70-98 | for every non-empty list of inputs, first, next, ..., last on one machine emits what the one-shot hash gives for each input |
| `RecallByte.ExportedValue` | apps/arweave/c_src/ar_mine_randomx.c:621-621 | the exported big-endian bytes have no leading zero and decode to the number |
| `RecallByte.SubspaceBytesInjective` | apps/arweave/c_src/ar_mine_randomx.c:603-611 | different subspaces are hashed as different strings, zero included |
| `RecallByte.ClampHasNoEffect` | apps/arweave/c_src/ar_mine_randomx.c:596-602 | the clamped subspace size always equals the upper bound div 1024 |
| `RecallByte.SearchSizeNested` | apps/arweave/c_src/ar_mine_randomx.c:564-566 | the search subspace size is (U div 1024) div 10 |
| `RecallByte.DivisorsPositive` | apps/arweave/c_src/ar_mine_randomx.c:614-619 | all divisors are positive if and only if U >= 10240 |
| `RecallByte.ComputeRecall` | apps/arweave/c_src/ar_mine_randomx.c:594-621 | the big-integer assignments compute the recall byte and export it |
| `RecallByte.RecallInSubspace` | apps/arweave/c_src/ar_mine_randomx.c:594-620 | the byte lies below U - U mod 1024, and dividing it by U div 1024 gives the hash modulo 1024 |
| `RecallByte.RecallFits` | apps/arweave/c_src/ar_mine_randomx.c:621-623 | the exported byte fits its 32-byte buffer and decodes to the recall byte |
| `RecallByte.WindowMembers` | apps/arweave/c_src/ar_mine_randomx.c:614-620 | exactly which bytes a subspace can recall: one cyclic interval from the window start |
| `RecallByte.RecallReadBack` | apps/arweave/c_src/ar_mine_randomx.c:594-620 | from the recalled byte one reads back the hash modulo 1024 as its subspace, and the rehashed hash modulo U div 10240 as its cyclic distance from the start that the previous block hash and the subspace select |
| `RecallByte.WindowSize` | apps/arweave/c_src/ar_mine_randomx.c:614-620 | distinct search offsets give distinct bytes |
| `RecallByte.RecallInWindow` | apps/arweave/c_src/ar_mine_randomx.c:614-620 | every hash recalls a byte of the window of its subspace |
| `RecallByte.SearchShare` | apps/arweave/c_src/ar_mine_randomx.c:564-566 | the 1024 windows together hold exactly 1024 times the search size, at most U div 10 bytes |
| `BulkHash.TwoNonceChains` | apps/arweave/c_src/ar_mine_randomx.c:1170-1175 | the nonces are two interleaved hash chains, one from each given nonce |
| `BulkHash.MessageRouting` | apps/arweave/c_src/ar_mine_randomx.c:1223-1244 | message i goes to receiver i mod pidCount and names proxy i mod proxyPIDCount; its nonce is a given one or the hash of message i - 2, and hash, entropy and recall byte are those of its nonce |
| `BulkHash.RoundRobinIsMod` | apps/arweave/c_src/ar_mine_randomx.c:1237-1244 | the wrapping cursor is the iteration modulo the count |
| `BulkHash.Turn` | apps/arweave/c_src/ar_mine_randomx.c:1169-1245 | one iteration of the loop on all its variables |
| `BulkHash.BulkHashLong` | apps/arweave/c_src/ar_mine_randomx.c:1163-1245 | for every iteration count the loop sends, in order, message i with nonce i, its hash, entropy and recall byte, despite the one-step delay of the pipeline |
| `SharedState.NifState.ReleaseRandomx` | apps/arweave/c_src/ar_mine_randomx.c:60-71 | frees dataset and cache if they are there and sets the flag; a second call frees nothing |
| `SharedState.NifState.Destroy` | apps/arweave/c_src/ar_mine_randomx.c:49-58 | after the destructor everything that was allocated has been freed exactly once |
| `SharedState.NifState.InitFailed` | apps/arweave/c_src/ar_mine_randomx.c:236-252 | frees exactly what init had allocated and clears the pointers |
| `SharedState.NifState.Init` | apps/arweave/c_src/ar_mine_randomx.c:114-163 | succeeds exactly if all allocations do; in fast mode the cache is already given back; every failure leaves nothing allocated |
| `SharedState.InitThenDestroy` | apps/arweave/c_src/ar_mine_randomx.c:49-163 | every outcome of init, then possibly a release, then the destructor: each resource is freed exactly as often as it was allocated |
| `DatasetLifecycle.StepKeepsInv` | apps/arweave/c_src/ar_mine_randomx.c:264-302 | every step of every client, and the destructor, keeps the invariant of the lock and the resources |
| `DatasetLifecycle.NoUseAfterFree` | apps/arweave/c_src/ar_mine_randomx.c:264-302 | in every run a machine in use is built on the dataset in fast mode and on the cache in light mode, never on null, and that memory is allocated and not freed |
| `DatasetLifecycle.CallOutcome` | apps/arweave/c_src/ar_mine_randomx.c:264-302 | a call is decided when it obtains the reader lock, whatever others do in between: refused exactly if the state was released by then, otherwise given a machine on the resource of the mode exactly if its creation succeeds |
| `DatasetLifecycle.ReaderFreezesState` | apps/arweave/c_src/ar_mine_randomx.c:267-272 | while a client holds the reader lock no steps of others change the pointers or the flag |
| `DatasetLifecycle.MachineObtainable` | apps/arweave/c_src/ar_mine_randomx.c:264-302 | from every reached world without writer and flag some continuation gives any client a machine on the resource of the mode |
| `DatasetLifecycle.FinishCall` | apps/arweave/c_src/ar_mine_randomx.c:264-302 | every call can run to its end in at most four steps of its own, leaving the other clients alone |
| `DatasetLifecycle.RunCanEnd` | apps/arweave/c_src/ar_mine_randomx.c:49-58 | from every reached world all calls can end and the destructor can run, which leaves everything freed |
| `DatasetLifecycle.ReleaseCompletes` | apps/arweave/c_src/ar_mine_randomx.c:1281-1286 | a release that obtains the lock frees both resources, sets the flag and gives the lock back |
| `DatasetLifecycle.FreesOnlyWithoutMachines` | apps/arweave/c_src/ar_mine_randomx.c:1281-1286 | a step that frees anything or obtains the writer lock finds no machine alive |
| `DatasetLifecycle.NoMachineAfterRelease` | apps/arweave/c_src/ar_mine_randomx.c:60-71 | from the moment a release holds the writer lock, through the frees up to the flag that is set last, and in every continuation, no machine exists or is being created; the flag stays set |
| `DatasetLifecycle.FreedAtMostOnce` | apps/arweave/c_src/ar_mine_randomx.c:49-71 | lock, cache and dataset are each freed at most once, and exactly as often as allocated once the destructor has run |
| `DatasetLifecycle.ReadLocksBalance` | apps/arweave/c_src/ar_mine_randomx.c:267-302 | reader locks and unlocks of a client balance on every path, and readers exclude the writer |
| `DatasetLifecycle.MachinesBalance` | apps/arweave/c_src/ar_mine_randomx.c:291-302 | every machine is destroyed by the call that created it, so none outlives the destructor |
| `DatasetLifecycle.ReleaseSucceedsIff` | apps/arweave/c_src/ar_mine_randomx.c:1281-1283 | a release obtains the lock exactly when no client holds it as a reader or as the writer |
| `DatasetLifecycle.InitMirrorsStart` | apps/arweave/c_src/ar_mine_randomx.c:114-163 | a successful init leaves exactly the fields and the allocation counts from which the concurrent runs start |
| `DatasetLifecycle.ReleaseMirrorsSteps` | apps/arweave/c_src/ar_mine_randomx.c:60-71 | release_randomx on the state object is what the three steps of a release do to the shared state |
| `DatasetLifecycle.DestroyMirrorsStep` | apps/arweave/c_src/ar_mine_randomx.c:49-58 | the destructor of the state object is the destructor step |

## Left out

- The internals of SHA-256, BLAKE2b, RandomX, GMP, OpenSSL and the Erlang NIF API: foreign code, taken as arbitrary functions or mathematical integers.
- The round hash of the Feistel cipher, SHA-256 of a half block followed by a half key: arbitrary here, so the order of its two inputs is not stated.
- NIF argument decoding and its error replies: plumbing; argument checks appear as preconditions.
- bulk_hash_fast_nif: its loop is the modelled one with the hash calls of the RandomX library in place of the long hash, and these calls are foreign.
- That the RandomX call that finishes a hash and fills the scratchpad equals the digest followed by the fill is taken from its contract; RandomX is not part of this model.
- C++ memory-model questions: every access to shared data is one atomic step, and a row is written at once.
- The byte layout of the checkpoint buffers: a buffer is an array of 32-byte rows, row r standing for bytes 32 r to 32 r + 31.
- Overflow of the `int` products checkpointCount * (1 + skipCheckpointCount): the transition system counts in unbounded numbers; `ComputeBlock` and `LongAdd` ask for values below 2^31, as the code needs.
- Negative counts: checkpointCount and skipCheckpointCount are natural numbers; hashingIterations, program counts and the bulk iteration count are any int.
- Failing `new std::thread`, and the mismatched `free` of thread objects after the join.
- The item ranges of init_dataset and its worker threads: an easy partition; its outcome is a parameter of `Init`.
- RandomX flags, JIT and large pages: no effect on the properties.
- The reference counting of the Erlang runtime is taken as given: the destructor runs only while no call is in progress.
- apps/ar_sqlite3/c_src and the Erlang code: not part of this model.
