# s3-workload: a model and its proofs

The workload tool drives an S3 store with a configurable mix of operations and checks, on the way back, that
what it reads is what it wrote. This project models the parts of it where that promise is made and
can be lost, and proves what they guarantee:

- the two in-memory bodies (pseudo-random and repeated pattern) as objects with a cursor, proved
  against a pure file with a position;
- multipart upload: the partition into parts, the goroutine/semaphore/channel protocol, and what the
  concatenated parts contain when all parts read one shared body;
- the whole data path (put, multipart put, copy, delete, get) by any number of workers, and cleanup;
- the worker pool with its operation limit and shutdown;
- the retry loop and the circuit breaker;
- key expansion, the namespace-tag splitter, mix normalisation and the weighted scheduler.

Code that updates state in place is modelled by classes and methods proved against specification
functions; goroutine protocols are step systems in which every interleaving is a run; the theorems are
lemmas about those functions and runs. `dafny verify dfyconfig.toml` checks everything.

## Modules

| module | contents |
|---|---|
| `Basics`, `Streams`, `Strings`, `Counting` | optional values and sums; byte streams and Go's 64-bit addition; lexicographic order; counting over sequences |
| `Readers`, `Generator` | the cursor machine of both readers and its theorems; the reader objects, `Generate`, `GenerateAndHash` |
| `Multipart`, `MultipartProtocol`, `Reassembly`, `Schedules`, `Interleavings` | partition arithmetic; the upload protocol; what a completed upload stores; which schedules exist; which uploads are intact under all of them |
| `Store`, `Cleanup` | a bucket with paged listing; deletion by metadata while paging |
| `Integrity`, `History` | the data path end to end; what a run leaves in the bucket, read off its actions |
| `WorkerPool` | workers, operation limit, shutdown |
| `Retry`, `CircuitBreaker` | backoff and retryable errors; the breaker |
| `Metadata`, `KeyGen`, `Mix`, `Scheduler` | tags and hash verification; key templates; percentages; weighted choice |

## Where the code does not keep an intended promise

Each of these is a proved statement: the exact condition where there is one, and inputs or runs that
fail.

- A forward seek of the random reader moves the position but not the pseudo-random source. A run of
  reads and seeks returns the right bytes for every stream exactly when no byte is read while the
  source lags (`Readers.RefinesFileIff`).
- A multipart upload stores the very bytes of its body under every interleaving exactly in these cases
  (`Interleavings.IntactIff`, for the body's own stream and any position of the reader): the limit is
  0, so that nothing with parts completes; there is at most one part; all bytes are the same; or parts
  are uploaded one at a time and the body is a fixed pattern or a random body of which no lag that can
  arise from that position changes a byte. For a fixed pattern see also
  `Interleavings.PatternIntactIff`. With a limit of two or more, two neighbouring parts can be shifted
  by one byte in the shared reader, for fixed and random bodies alike; the default
  `multipart_max_parts` of 4 (`internal/config/config.go:101`) lets that happen.
- One at a time, a first attempt at a random body is intact exactly when its bytes repeat with the part
  size (`Interleavings.FirstAttemptIntactIff`): goroutines do not start in part order, and a forward
  seek skips no bytes of the source. A retry starts wherever the attempt before it left the reader,
  since nothing rewinds it (`internal/runner/runner.go:311-321`); after a suitable failed attempt some
  run spoils every random body of two or more parts whose bytes are not all the same
  (`Interleavings.RetryCanSpoil`, `Interleavings.IntactFromAnywhereIff`).
- Over whole runs, verified GETs are guaranteed to succeed exactly when every multipart put that may
  occur is safe in this sense, for the configured generator, key template, limit and number of retries
  (`Integrity.AlwaysVerifiesIff`). Otherwise some run leaves wrong bytes in the bucket under the hash of
  the right ones (`Integrity.UnsafePutFails`).
- With a limit of 0 an upload of at least one part hangs. A negative limit, a part size of 0 and a part
  size for which `size + partSize - 1` wraps to a number at least its own magnitude below 0 panic
  (`MultipartProtocol.UploadCanReturnIff`, `MultipartProtocol.StartPanicsIff`); a part size still larger
  makes the upload complete without any part (`MultipartProtocol.PartsComputedIff`). `Validate` sets no
  maximum for the part size, and it checks minimum and limit only when multipart is enabled
  (`internal/config/config.go:294-309`), while the explicit multipart operation does not look at that
  switch.
- Tag entries overwrite the reserved metadata: a tag that defines `sha256` breaks verification
  (`Metadata.HashSurvivesIff`, `Metadata.TagBreaksHash`, `Integrity.TagDecidesVerification`), and one
  that gives `created-by` another value hides objects from cleanup (`Metadata.MarkSurvivesIff`,
  `Metadata.TagBreaksMark`, `Integrity.CleanupEmptiesTheBucketIff`).
- `docs/CLI.md:32` says the operation limit overrides the duration. In the code the limit alone never
  ends `Run` (`WorkerPool.LimitAloneDoesNotEndRun`), and it may be overshot by one less than the number
  of workers (`WorkerPool.OperationLimit`, `WorkerPool.OvershootIsAttained`).
- The first retry delay is not clamped to the maximum (`Retry.DelaysBoundedIff`).
- A half-open breaker does not reopen on its first failure unless the threshold is at most 1
  (`CircuitBreaker.HalfOpenReopensIff`, a run in `CircuitBreaker.HalfOpenSurvivesFailure`): failures are
  counted modulo the threshold (`CircuitBreaker.AnswersFollowHistory`).
- Keys are listed in number order on `[0, k)` exactly when the width of the placeholder holds all
  numbers below `k` (`KeyGen.KeysOrderedIff`).
- Normalisation of more than a hundred entries can leave a mix without operations, which the scheduler
  then refuses (`Mix.NormalizedVanishesIff`, `Mix.SomeMixVanishes`,
  `Scheduler.ValidatedMixIsSchedulableIff`).
- The pattern `random:0` is accepted but yields zeros only (`Generator.SeedZeroGeneratesZeros`).

## Model

| member | source | states |
|---|---|---|
| `Readers.RefinesFileIff` | internal/data/generator.go:116-184 | a run of reads and seeks, any chunking, any whence and every error case, returns what an immutable file returns, whatever the pseudo-random stream, if and only if no byte is read while the source lags behind the position |
| `Readers.RefinesFile` | internal/data/generator.go:116-245 | either reader is indistinguishable from the file as long as nothing is read while lagging; always so for the fixed reader |
| `Readers.LagIsConserved` | internal/data/generator.go:116-184 | over every run, bytes drawn plus the forward jumps since the last rewind equal the position, so the source never runs ahead; the position is the file's and stays within the size |
| `Readers.SeekMeaning` | internal/data/generator.go:143-161 | the target of a seek counts from the start, the position or the end; which targets are refused, and where the two readers differ |
| `Readers.NoForwardSeekNoLag` | internal/data/generator.go:163-183 | runs that never seek past the current position are never misaligned |
| `Readers.LagSurvivesUntilRewind` | internal/data/generator.go:163-183 | once lost by a forward seek, alignment stays lost until a seek to 0 or strictly backwards |
| `Readers.DrainDelivers` | internal/data/generator.go:116-141 | reading an aligned reader in any chunks delivers exactly the bytes from the position on |
| `Readers.RewoundReaderReplaysContents` | internal/runner/runner.go:275-281 | whatever earlier attempts consumed and the client probed, after `Seek(0)` an attempt that starts at 0 and reads to the end delivers the whole object, for both readers |
| `Readers.LengthProbeIsHarmless` | internal/data/generator.go:143-184 | the usual probe of current position, end and back restores the position, and realigns a lagging source unless the reader was at its end |
| `Generator.Rng.Read` | internal/data/generator.go:134 | the source hands out the next bytes of one stream whatever lengths are asked for |
| `Generator.RandomReader.constructor` | internal/data/generator.go:102-114 | a new reader stands at 0 with the seed mixed from base seed and key |
| `Generator.RandomReader.Read` | internal/data/generator.go:116-141 | filling the caller's buffer through the 8 KiB buffer is one step of the cursor machine and leaves the rest of the buffer alone |
| `Generator.RandomReader.Seek` | internal/data/generator.go:143-184 | every whence, clamping at the end, both errors, reseeding at 0 and the fast-forward of a backward seek give exactly the cursor machine's seek |
| `Generator.RandomReader.FastForward` | internal/data/generator.go:171-177 | copying to discard from a reseeded reader terminates with source and position both at the target |
| `Generator.FixedReader.Read` | internal/data/generator.go:200-221 | the bytes are those of the repeated pattern at the position |
| `Generator.FixedReader.Seek` | internal/data/generator.go:223-245 | as the random reader's seek, but refusing positions beyond the size |
| `Generator.Generate` | internal/data/generator.go:62-72 | which reader stands for a key, at position 0: with a seed, byte i is byte i of the source seeded by base seed and key; with a pattern, byte i of its repetition |
| `Generator.RandomContentsAre` | internal/data/generator.go:62-114 | byte i of a random object is byte i of the source seeded by base seed and key |
| `Generator.KeyMattersIff` | internal/data/generator.go:102-114 | two keys have the same contents under every library if and only if the pattern is fixed, the seed 0, the keys equal or the size 0 |
| `Generator.CopyAll` | internal/data/generator.go:80 | copying until EOF yields all bytes from the position to the end and leaves the reader aligned at the end |
| `Generator.GenerateAndHash` | internal/data/generator.go:75-91 | the hash is that of the object's contents, and the reader returned delivers those contents from position 0 |
| `Generator.ContentsGrow` | internal/data/generator.go:62-72 | a shorter object under a key is a prefix of a longer one |
| `Generator.FixedContentsIgnoreKey` | internal/data/generator.go:62-72 | a fixed pattern gives every key the same contents, the pattern repeated |
| `Generator.SeedZeroGeneratesZeros` | internal/data/generator.go:27-72 | seed 0 is accepted and makes every byte 0 |
| `Multipart.NumPartsBounds` | internal/s3/client.go:375 | the intended number of parts is the least one whose parts reach the size |
| `MultipartProtocol.PartsComputedIff` | internal/s3/client.go:375 | with the wrapping additions of the code the number of parts is the intended one if and only if size + partSize - 1 is below 2^63; otherwise it is negative, or 0 if and only if size + 2 * partSize exceeds 2^64 + 1 |
| `MultipartProtocol.PartArithmeticFits` | internal/s3/client.go:394-398 | if that sum does not wrap, no offset and no end of a part does |
| `Multipart.PartsPartition` | internal/s3/client.go:375-398 | parts follow each other from 0 to the size without gap or overlap, all of the part size but the last, none empty |
| `Multipart.EveryByteInExactlyOnePart` | internal/s3/client.go:375-398 | each byte of the object lies in exactly one part |
| `Multipart.LengthsAddUp` | internal/s3/client.go:375-398 | the lengths sum to the size |
| `Multipart.OffsetsAreReachable` | internal/s3/client.go:401 | no part offset is refused or clamped by either reader, wherever it stands |
| `Multipart.ConcatenationAt` | internal/s3/client.go:384-428 | in parts of the right lengths, byte i of part p lands at the part's offset plus i of the concatenation |
| `Multipart.AssembledAt` | internal/s3/client.go:384-428 | in an object of parts read too early, every byte comes from as far back as its part was early |
| `Multipart.AssembledRightIff` | internal/s3/client.go:384-428 | parts read with given lags concatenate to the object for every stream if and only if all lags are 0 |
| `MultipartProtocol.NothingBlocksOrPanics` | internal/s3/client.go:378-433 | once the channels exist, in every reachable state holders are at most the limit, every pending error fits in an open channel, every release finds a token, the wait group never goes below zero, and nothing runs after the close |
| `MultipartProtocol.OutcomeIsRight` | internal/s3/client.go:419-469 | a run that returns completed if and only if no part upload failed, with parts 1 to n ascending, and reports what the service answered to the completion, which was its last step; otherwise it aborted last, with each failed part named once among the errors |
| `MultipartProtocol.EitherAnswer` | internal/s3/client.go:462-476 | once all parts are uploaded the service may accept or reject the completion, and the upload returns that answer |
| `MultipartProtocol.RunsAreFinite` | internal/s3/client.go:374-469 | a measure over goroutine positions bounds the length of every run |
| `MultipartProtocol.MaximalRunsReturn` | internal/s3/client.go:374-469 | with a positive limit a run that cannot be continued has returned |
| `MultipartProtocol.StartPanicsIff` | internal/s3/client.go:375-380 | for all 64-bit part sizes and all limits, an upload panics before it spawns anything if and only if the part size is 0, the limit is negative, the part size is negative and the object larger than twice its magnitude, or the sum in the number of parts wraps and the part size does not exceed what it wraps to in magnitude |
| `MultipartProtocol.UploadCanReturnIff` | internal/s3/client.go:375-391 | for every limit and every 64-bit part size from 0 on, wrapped sums included, exactly when an upload can return |
| `Reassembly.ExclusiveIsAtomic` | internal/s3/client.go:379-407 | when the semaphore admits one goroutine, no part is sought or read while another is being read |
| `Reassembly.CompletedPartsAreSkewed` | internal/s3/client.go:384-428 | if part reads do not interleave, each part of a completed upload holds the stream at its offset shifted back by the lag at its seek, 0 for a fixed pattern |
| `Reassembly.NoLagsIff` | internal/s3/client.go:394-403 | the order of the seeks leaves no lag on a random reader if and only if the first is reachable without a forward jump and none skips over its successor |
| `Reassembly.CompletedObjectIsContents` | internal/s3/client.go:384-428 | without interleaved reads, a completed upload of a fixed pattern under any order, and of a random body under any order that never skips ahead, is exactly the object |
| `Reassembly.RightOnEveryStreamIff` | internal/s3/client.go:384-428 | a given schedule stores a random body right for every stream if and only if its order never skips ahead |
| `Schedules.EveryOrderCanHappen` | internal/s3/client.go:384-428 | every permutation of the parts is the order of some completing run |
| `Interleavings.DoneLengths` | internal/s3/client.go:384-428 | under every interleaving a completed upload consists of parts of the right lengths |
| `Interleavings.ConstantIsIntact` | internal/s3/client.go:384-428 | an object of one repeated byte survives every interleaving, whichever the reader |
| `Interleavings.TwoHoldersCanCorrupt` | internal/s3/client.go:390-407 | with two holders and two parts, every object whose bytes are not all the same, from either reader at any position, is stored wrong by some completing run |
| `Interleavings.LagOrigin` | internal/s3/client.go:394-403 | one part at a time, every lag of a random reader is 0, some whole parts skipped since a rewind, or the distance from the bytes the reader started with |
| `Interleavings.HarmfulSpoils` | internal/s3/client.go:384-428 | and each of these lags arises in some completing run, which spoils the object if the lag changes a byte |
| `Interleavings.IntactIff` | internal/s3/client.go:379-428 | all interleavings store the given body intact from the given position of the reader if and only if the limit is 0, there is at most one part, all bytes are the same, or the limit is one and the body is a fixed pattern or one of which no lag arising from that position changes a byte |
| `Interleavings.PatternIntactIff` | internal/data/generator.go:200-221 | the same for the configured pattern: if and only if the limit or the number of parts is at most one or the used bytes of the pattern are all the same |
| `Interleavings.FirstAttemptIntactIff` | internal/runner/runner.go:297-321 | from position 0 and one part at a time, a random body is intact if and only if its bytes repeat with the part size (or one of the other cases above holds) |
| `Schedules.FailedAttempt` | internal/s3/client.go:384-459 | a failed attempt can leave a random reader before the second part with any number of bytes of the first one drawn |
| `Interleavings.RetryCanSpoil` | internal/runner/runner.go:311-321 | for every random body of two or more parts whose bytes differ there are a failed first attempt and a completing second one, on the same reader, that stores it wrong, at every positive limit |
| `Interleavings.IntactFromAnywhereIff` | internal/runner/runner.go:311-321 | an upload is intact from every position of the reader if and only if the limit is 0, there is at most one part, all bytes are the same, or the limit is one and the body a fixed pattern |
| `Interleavings.AlwaysIntactIff` | internal/s3/client.go:379-428 | if nothing is known of the stream: every stream survives from a given position if and only if the limit is 0, there is at most one part, or there are two, the limit is one and the second can be sought first without a forward jump |
| `Interleavings.RetryFromEndIsIntact` | internal/runner/runner.go:311-321 | a retry that starts at the end of the reader is safe with two parts and a limit of one, whatever the stream |
| `Integrity.StepInv` | internal/runner/runner.go:254-414 | every attempt, copy, delete and get by any worker, whatever its schedule, keeps every job's hash and reader valid and every object under the prefix with metadata prepared from some hash |
| `History.StepEffects` | internal/runner/runner.go:330-414 | a same-bucket copy puts the source's object, content and metadata, under the target and changes no other key, and changes nothing if there is no source; a delete removes its key and no other; a get or the end of a put changes nothing; no action changes another worker's job |
| `History.PutStores` | internal/runner/runner.go:275-281 | an applied put stores the generated object with its metadata under its key and changes no other |
| `History.UploadStores` | internal/runner/runner.go:311-321 | an applied multipart attempt stores the concatenated parts with the metadata of the generated object |
| `History.JobAfter` | internal/runner/runner.go:254-328 | what each action does to its worker: a put starts with all attempts, each attempt uses one, success or giving up ends it |
| `History.SucceededIff` | internal/s3/client.go:462-488 | an upload returns no error if and only if its completion was accepted |
| `History.BucketIsHistory` | internal/runner/runner.go:254-414 | after any run from an empty bucket and for every key, the bucket holds what was last put, uploaded or copied there according to the list of actions, and nothing if it was deleted since or never written; no worker makes more attempts at a put than configured, nor any after its end |
| `History.DeletedStaysAway` | internal/runner/runner.go:374-392 | a deleted object is absent until its key is written again |
| `History.EverythingCanHappen` | internal/runner/runner.go:221-251 | every operation is open to an idle worker |
| `Integrity.StepSound` | internal/runner/runner.go:254-414 | and that hash stays the one of the object's own bytes unless a multipart attempt is applied that was not aligned and could have gone wrong from where the reader stood |
| `Integrity.FullBodyIsContents` | internal/runner/runner.go:275-281 | a put attempt that delivers as many bytes as announced delivers the object, whatever came before |
| `Integrity.PutStoresContents` | internal/runner/runner.go:254-288 | a put attempt read from the start to the end can be applied and stores the object with its hash |
| `Integrity.RetriedPutStoresContents` | internal/runner/runner.go:275-281 | wherever earlier attempts left the reader, a retried put without probes does so |
| `Integrity.MultipartCanStoreContents` | internal/runner/runner.go:297-328 | under every positive limit some multipart attempt is applied and stores the object with its hash |
| `Integrity.EveryGetVerifies` | internal/runner/runner.go:254-414 | from an empty bucket, after any interleaving of any number of workers whose applied multipart attempts were aligned or could not have gone wrong, a verified GET of any stored object succeeds, if the tag does not define `sha256` |
| `Integrity.SafeAttempt` | internal/runner/runner.go:297-321 | no attempt, first or retried, of a safe multipart put can go wrong |
| `Integrity.UnsafePutFails` | internal/runner/runner.go:297-371 | one multipart put that is not safe has a run, with the configured library, that ends with other bytes than the generated ones under their hash, so that a verified GET fails unless the hashes collide |
| `Integrity.AlwaysVerifiesIff` | internal/runner/runner.go:254-414 | for the configured generator and limits, no run of any interleaving and with any hash function ends with an object that fails verification if and only if every multipart put that may occur, by key and size, is safe: at most one part, equal bytes, limit one with a fixed pattern or with bytes that repeat with the part size and no retry, or nothing ever attempted or completed |
| `Integrity.TagDecidesVerification` | internal/data/verifier.go:78-93 | if it does, a GET verifies exactly when the tag names the object's own hash |
| `Integrity.CleanupEmptiesTheBucketIff` | internal/runner/runner.go:450-467 | cleanup without failures after any run leaves the bucket empty if and only if it was empty or the tag does not give `created-by` another value |
| `Cleanup.Bucket.CleanOne` | internal/s3/client.go:512-536 | one listed key is removed and counted as its metadata and the answers of the service say |
| `Cleanup.Bucket.CleanPage` | internal/s3/client.go:507-537 | one page handles exactly its keys |
| `Cleanup.Bucket.DeleteObjectsByMetadata` | internal/s3/client.go:492-547 | for any store, page sizes and failures: it fails exactly at the first listing that fails, else ends with the last page; what is removed and counted is decided for exactly the keys on the pages of the original listing done by then, so nothing if the first listing fails |
| `Cleanup.KeysListedAre` | internal/s3/client.go:496-544 | the first pages of a listing cover exactly the keys up to its token, all of them cover everything under the prefix |
| `Cleanup.ListingIsUnaffected` | internal/s3/client.go:496-544 | deleting what has been listed does not disturb the rest of the listing |
| `Cleanup.NextToken` | internal/s3/client.go:539-543 | the next token leaves exactly the keys not yet on a page |
| `Cleanup.ListedPage` | internal/s3/client.go:496-544 | a page listed in the middle of a cleanup has keys not handled before; a last page handles everything; any other leaves fewer keys beyond the token |
| `Cleanup.CountVersusDrop` | internal/s3/client.go:527-536 | the drop in size is the count plus the matching keys whose delete took effect without being reported |
| `Cleanup.CleanupIsCompleteIff` | internal/s3/client.go:492-547 | if no listing fails, no matching object remains if and only if every matching one could be headed and its delete was not refused; every other object is untouched |
| `Cleanup.ReliableCount` | internal/s3/client.go:492-547 | if no call fails the count returned is the number of objects that disappeared |
| `Cleanup.OnlyMatchingAreRemoved` | internal/s3/client.go:526-536 | whatever fails, only objects under the prefix with the given metadata disappear |
| `WorkerPool.OperationLimit` | internal/runner/runner.go:184-217 | in every interleaving the counter plus the workers between check and increment stay within limit plus workers minus one; the counter is finished plus running operations; a worker that left by the limit has seen it reached |
| `WorkerPool.OvershootIsAttained` | internal/runner/runner.go:194-208 | that bound is reached for every limit and every number of workers |
| `WorkerPool.WhyWorkersLeave` | internal/runner/runner.go:184-206 | a worker leaves when and only when it sees a stop, is refused by the limiter, or finds the limit reached |
| `WorkerPool.FlagsFollowTriggers` | internal/runner/runner.go:147-171 | a stop closes the channel, a cancel or the elapsed duration cancels the context, and nothing else does either |
| `WorkerPool.ReturnsOnlyWhenTold` | internal/runner/runner.go:142-165 | `Run` returns only after a cancel, a stop or the duration, and after every worker is done |
| `WorkerPool.LimitAloneDoesNotEndRun` | internal/runner/runner.go:147-159 | when all workers have left by the limit, only a cancel, a stop or the duration can still happen, and `Run` does not return without one |
| `WorkerPool.LimitIsReached` | internal/runner/runner.go:194-200 | that situation is reachable for every limit and every number of workers, after exactly that many operations |
| `WorkerPool.StopEndsTheRun` | internal/runner/runner.go:168-217 | once a stop is visible every run is finite |
| `WorkerPool.StopNeverBlocks` | internal/runner/runner.go:147-217 | until `Run` returns some step other than another trigger is possible |
| `WorkerPool.FewOperationsAfterStop` | internal/runner/runner.go:184-208 | after a stop at most one more operation a worker is counted |
| `CircuitBreaker.CircuitBreaker.constructor` | internal/s3/retry.go:164-170 | a new breaker is closed with no failures |
| `CircuitBreaker.CircuitBreaker.Call` | internal/s3/retry.go:173-203 | new fields and outcome of a call in terms of the old fields, the clock and what fn returns |
| `CircuitBreaker.CircuitBreaker.IsOpen` | internal/s3/retry.go:206-212 | the query's answer and its change of the fields |
| `CircuitBreaker.AnswersFollowHistory` | internal/s3/retry.go:173-212 | with a monotone clock every answer is decided by the executed calls: refused exactly when the failures since the latest success are a positive multiple of the threshold and the last is at most resetTimeout old |
| `CircuitBreaker.BreakerInvariant` | internal/s3/retry.go:173-212 | after every run the breaker is open exactly when failures has reached max(1, maxFailures), and failures is the streak modulo that threshold unless open |
| `CircuitBreaker.IsOpenIsTransparent` | internal/s3/retry.go:206-212 | leaving out all `IsOpen` calls of a run changes the outcome of no `Call` |
| `CircuitBreaker.ClockStepsBack` | internal/s3/retry.go:206-212 | with a clock that steps back it can |
| `CircuitBreaker.HalfOpenReopensIff` | internal/s3/retry.go:187-196 | the first failure of a half-open breaker reopens it if and only if maxFailures is at most 1 |
| `CircuitBreaker.HalfOpenSurvivesFailure` | internal/s3/retry.go:173-203 | a run with maxFailures 2 whose trial call fails and leaves the breaker half-open |
| `CircuitBreaker.OnlySuccessCloses` | internal/s3/retry.go:184-202 | a run that takes a breaker from not closed to closed contains an executed success |
| `Retry.FindSubstring` | internal/s3/retry.go:122-143 | true if and only if the substring occurs somewhere |
| `Retry.IsRetryable` | internal/s3/retry.go:90-116 | true if and only if one of the nine patterns occurs in the message |
| `Retry.RetryableIff` | internal/s3/retry.go:98-113 | which nine substrings make an error retryable |
| `Retry.WithRetry` | internal/s3/retry.go:36-87 | at most MaxAttempts calls; each but the last failed retryably without a cancel; success exactly when the last call made succeeded; which error otherwise; one backoff between calls |
| `Retry.DelayClosedForm` | internal/s3/retry.go:79-83 | with multiplier 2 the k-th delay is min(initial * 2^(k-1), max) after an unclamped first one |
| `Retry.DelaysBoundedIff` | internal/s3/retry.go:38-83 | for every multiplier and rounding, no delay exceeds the maximum if and only if the initial one does not |
| `Retry.DelayGrows` | internal/s3/retry.go:80-83 | for every multiplier a delay is the one before times the multiplier, rounded down, or the maximum |
| `Retry.BackoffIs` | internal/s3/retry.go:60-63 | a jittered sleep is the delay times 1/2 plus half the draw, rounded down; without jitter the delay |
| `Retry.JitterBounds` | internal/s3/retry.go:60-63 | jitter takes away at most half of a delay and never adds |
| `Retry.TotalBackoff` | internal/s3/retry.go:59-83 | total backoff over n sleeps is at most min(initial * (2^n - 1), n * max) |
| `Metadata.SplitString` | internal/data/verifier.go:124-142 | the pieces between separators without a last empty one |
| `Metadata.PiecesJoin` | internal/data/verifier.go:124-142 | joining the pieces gives the string back |
| `Metadata.JoinPieces` | internal/data/verifier.go:124-142 | splitting undoes joining |
| `Metadata.PiecesIff` | internal/data/verifier.go:124-142 | the pieces are the only parts without separator that join to the string |
| `Metadata.SplitRoundTrip` | internal/data/verifier.go:124-142 | splitting loses nothing but one trailing separator |
| `Metadata.Trim` | internal/data/verifier.go:144-157 | the two index loops compute the trimmed string |
| `Metadata.TrimmedIs` | internal/data/verifier.go:144-157 | trimming takes away blanks and tabs only, and all of them at both ends |
| `Metadata.SplitCommaSeparated` | internal/data/verifier.go:106-114 | the non-empty trimmed pieces in order |
| `Metadata.SplitEqual` | internal/data/verifier.go:116-122 | the trimmed pieces, empty ones kept |
| `Metadata.SplitTag` | internal/data/verifier.go:95-104 | pairs of exactly two pieces, later ones winning |
| `Metadata.PrepareMetadata` | internal/data/verifier.go:78-93 | hash and mark overridden by the tag's entries, in any iteration order |
| `Metadata.PreparedIs` | internal/data/verifier.go:78-93 | the metadata are the reserved entries `sha256` and `created-by` and every entry of the tag, which wins, and nothing else |
| `Metadata.TrimmedPartsAppend` | internal/data/verifier.go:106-114 | pieces are trimmed and dropped one by one, in order |
| `Metadata.TrimmedPartOf` | internal/data/verifier.go:106-114 | a piece is dropped if and only if it is blank |
| `Metadata.EntriesIff` | internal/data/verifier.go:95-104 | an entry comes from the last pair of exactly two pieces with its key |
| `Metadata.PiecesOfPair` | internal/data/verifier.go:116-122 | a pair is split at every `=` and each piece trimmed |
| `Metadata.BlanksAroundPair` | internal/data/verifier.go:116-122 | blanks around key and value do not matter |
| `Metadata.VerifyHash` | internal/data/verifier.go:68-75 | no hash exactly without the `sha256` entry, verified exactly if it is the hash of the body |
| `Metadata.HashSurvivesIff` | internal/data/verifier.go:68-93 | metadata verifies for every hash if and only if the tag does not define `sha256` |
| `Metadata.MarkSurvivesIff` | internal/data/verifier.go:78-93 | the cleanup mark survives if and only if the tag does not give `created-by` another value |
| `Metadata.TagBreaksHash` | internal/data/verifier.go:78-93 | the tag `sha256=v` makes verification fail for every object whose hash is not v |
| `Metadata.TagBreaksMark` | internal/data/verifier.go:78-93 | the tag `created-by=v` hides objects from cleanup unless v is the mark |
| `Metadata.TagRoundTrip` | internal/data/verifier.go:95-142 | a tag written from clean keys and values is read back as that map |
| `KeyGen.ReplacePlaceholder` | internal/workload/keygen.go:41-87 | the template with its first placeholder replaced, unchanged without one |
| `KeyGen.PaddedKey` | internal/workload/keygen.go:26-87 | with `{seq:w}`, w in 1 to 10^6 written with any leading zeros, the key is prefix, text before, the decimal of n with the larger of w and its own number of digits, text behind |
| `KeyGen.PlainKey` | internal/workload/keygen.go:26-87 | with any other placeholder the decimal of n without added zeros |
| `KeyGen.ConstantKey` | internal/workload/keygen.go:51-66 | without a placeholder prefix and template |
| `KeyGen.FormattedOverwide` | internal/workload/keygen.go:77-78 | a width above 10^6 gives fmt's complaint and the plain decimal |
| `KeyGen.NegativeDecimal` | internal/workload/keygen.go:73-84 | a negative number has its sign first, then the zeros |
| `KeyGen.AtoiReads` | internal/workload/keygen.go:77 | a width is read with any leading zeros and a sign, if it fits into 64 bits |
| `KeyGen.AtoiRejects` | internal/workload/keygen.go:77 | nothing else than digits behind a sign is a width |
| `KeyGen.PaddedKeysOrderedIff` | internal/workload/keygen.go:26-87 | for `{seq:w}` key order is number order on `[0, k)` if and only if k is at most 10 to the w |
| `KeyGen.FindOpening` | internal/workload/keygen.go:43-49 | the first position of `{seq`, or -1 |
| `KeyGen.FindClosing` | internal/workload/keygen.go:56-62 | the first closing brace from there on, or -1 |
| `KeyGen.HasPlaceholderIff` | internal/workload/keygen.go:41-66 | something is replaced if and only if some `{seq` has a closing brace behind it |
| `KeyGen.PadValue` | internal/workload/keygen.go:77-78 | reading a zero-padded number back gives the number |
| `KeyGen.ZeroPaddedInjective` | internal/workload/keygen.go:77-78 | zero padding keeps different numbers apart, signs included |
| `KeyGen.KeysDistinctIff` | internal/workload/keygen.go:26-87 | different numbers give different keys if and only if the template has a placeholder |
| `KeyGen.KeySpaceSize` | internal/workload/keygen.go:26-39 | then `[0, keys)` gives exactly `keys` keys |
| `KeyGen.KeysOrderedIff` | internal/workload/keygen.go:26-87 | key order is number order on `[0, k)` if and only if k is at most 10 to the placeholder's width |
| `Mix.Config.ValidateMix` | internal/config/config.go:260-280 | accepts exactly percentages with a non-zero total, and normalises unless the total is 100 |
| `Mix.Config.Rescale` | internal/config/config.go:277-279 | rewriting the map while ranging over it rescales every entry once |
| `Mix.Config.NormalizeMix` | internal/config/config.go:315-330 | every entry rescaled, nothing done for total 0 |
| `Mix.SumIsOrderIndependent` | internal/config/config.go:316-319 | the total does not depend on the iteration order |
| `Mix.SumAfterNormalizing` | internal/config/config.go:324-328 | n entries normalise to a sum in (100 - n, 100] |
| `Mix.NormalizedVanishesIff` | internal/config/config.go:275-280 | nothing is left of a mix if and only if no entry reaches one per cent, which takes more than a hundred entries |
| `Mix.SomeMixVanishes` | internal/config/config.go:275-280 | for every number of entries above a hundred there is an accepted mix of which nothing is left |
| `Mix.ValidateAgreesWithNormalize` | internal/config/config.go:260-330 | both functions give the same mix |
| `Scheduler.NewScheduler` | internal/workload/scheduler.go:33-68 | refuses exactly a zero total; otherwise operations and cumulative weights in the order of the second range loop, which need not be that of the first |
| `Scheduler.Scheduler.Next` | internal/workload/scheduler.go:71-93 | the operation whose interval holds the draw, with the short cut and both fallbacks |
| `Scheduler.Scheduler.NextKey` | internal/workload/scheduler.go:96-101 | the key number drawn, below the total |
| `Scheduler.WeightsIncrease` | internal/workload/scheduler.go:53-65 | cumulative weights are positive and strictly increasing |
| `Scheduler.SchedulerIsExact` | internal/workload/scheduler.go:53-93 | for any non-negative mix and iteration order the last weight is the total, every draw below it is below some weight, so that neither fallback is reached, and exactly mix[op] of the draws select op, so that a zero entry is never selected |
| `Scheduler.ShortCutAgrees` | internal/workload/scheduler.go:79-93 | the single-operation short cut picks what any draw would |
| `Scheduler.ValidatedMixIsSchedulableIff` | internal/config/config.go:260-280 | the scheduler accepts what `Validate` made of a mix if and only if some entry reaches one per cent, as is certain for up to a hundred entries |

## Left out

- `math/rand` is one arbitrary byte stream a seed, handed out independently of chunk sizes; SHA-256 and the mixing of key and seed are arbitrary functions. Their quality is not modelled.
- `NewGenerator`: the parsing of `random:<seed>` and `fixed:<hex>`; the model starts from the parsed pattern.
- Sizes are non-negative and below 2^63. Additions of positions and seek offsets and the sum in the number of parts wrap as Go's do; the step system takes the intended number of parts, and the 32-bit part number is an unbounded integer. Memory is unbounded: a number of parts for which Go cannot allocate the slice is not told apart.
- Data races inside one `Seek` or `Read` of the body shared by part goroutines: each is one atomic step, a part's reading any number of steps. The semaphore acquire, release, error send and wait-group steps are atomic too.
- UploadPart, PutObject and the other SDK calls, with signing, TLS, credentials and internal retries: a part upload reads its limited reader fully or fails, possibly half way; a put is applied only if the body has the announced length; a failed attempt may or may not have been applied.
- The bucket is an atomic map. Versioned buckets, the contents of another bucket that copies go to, and the folding of metadata key case are not modelled.
- Integrity.AlwaysVerifiesIff: the failing runs are stated for some hash function, as SHA-256 itself is not modelled; `Integrity.UnsafePutFails` states the wrong bytes without it. It is stated for tags that leave `sha256` alone; `Integrity.TagDecidesVerification` covers the others. In whole runs the sum of size and part size stays below 2^63, and which errors of a failed attempt are retryable is open.
- Negative part sizes beyond the question whether they panic at once: for objects no larger than twice their magnitude the code goes on with none, one or two parts of negative length, which the protocol does not model.
- Keep-data mode, operation timeouts, LIST and HEAD operations of a run: they leave the store as it is.
- Cleanup.Bucket.DeleteObjectsByMetadata: no other client changes the bucket during a cleanup, and the service's answers are given by key since each key is headed and deleted at most once.
- `CircuitBreaker` is used by no other file and its methods take no lock; it is modelled as called sequentially, with the clock read on entry and on a failure.
- The rate limiter is a step that may fail; its pacing is not modelled. `CreateBucket`, versioning and metrics in `Run` are not modelled.
- Floating point: retry delays and jitter are exact up to the final truncation, and shares of a mix are exact quotients rounded down. The code multiplies by a precomputed `factor`, which could put an exact share just below an integer.
- Map iteration orders, random draws, context cancellations and replies are parameters over which the theorems quantify. A random draw is a function of its bound.
- Strings are sequences of characters; the replacement of invalid UTF-8 while ranging over a tag is not modelled.
- Size distributions, size parsing, verification by key, configuration loading, logging, health and metrics handlers, scripts and manifests.
