# Distributed testing system: cache, batcher and judging pipeline

A Dafny model of the parts of the system whose correctness does not follow from one function alone:

- the LRU cache, as a doubly linked list and a map of positions, and what whole runs of it guarantee;
- the cutting of a task's tests into batches, and how close to optimal the cut is;
- the way of a submission: the client names and sends a task's tests, the handler parses, cuts and
  stores them, the testing processor fetches the batches, judges test after test and sends a report
  whose last verdict is saved, with many workers, uploaders and fetchers at the same time.

| file | models |
|---|---|
| `Recency.dfy`, `LruCache.dfy` | the cache as a recency-ordered list of entries, and as nodes, links and a map |
| `LruRuns.dfy`, `Competitive.dfy` | runs of read-through traffic: recency, inclusion, windows, competitive ratio |
| `LruTraffic.dfy` | a client's traffic on the cache's nodes and links |
| `CacheAside.dfy` | a collection with the cache in front of it |
| `Batching.dfy`, `Packing.dfy` | the batch cut, its optimality in order and against any packing |
| `Naming.dfy` | decimal printing, part names, worker paths |
| `Storage.dfy`, `Uploads.dfy` | the document store, complete uploads, fetching |
| `UploadHandler.dfy` | the client's form, the handler's parsing and writes |
| `Publication.dfy` | uploads and fetches interleaved document by document |
| `Reupload.dfy` | a stored task uploaded again while it is fetched: when a fetch tears |
| `FailedUploads.dfy` | a re-upload that stops at a failing write: what is served afterwards |
| `Judge.dfy`, `TabascoService.dfy`, `TestingProcessor.dfy`, `Solutions.dfy` | one test, the batch loop, the service calls, the saved result |
| `Workers.dfy` | any number of workers interleaved file step by file step |
| `Pipeline.dfy` | from the client's tests to the saved verdict |
| `Deployment.dfy`, `Liveness.dfy` | uploads, fetches and file steps of all testing processors in one machine |
| `Sequences.dfy`, `Wrappers.dfy` | helpers |

Classes with in-place updates (`List`, `LruCache`, `StorageClient`, `UploadTestsHandler`,
`TestingProcessor`, `SolutionsDatabase`) are classes here, their loops are loops, and each method is
tied to a function or predicate about which the properties are proved. Interleavings are state
machines over atomic steps.

## What the code does that its users might not expect

- `Insert` neither overwrites nor refreshes a cached key. The whole-run theorems are therefore about
  read-through traffic (`Get`, and `Insert` on a miss only), and `PlainInsertKeepsPrefixIff` says exactly
  when a plain `Insert` keeps a smaller cache inside a larger one. The read-through client is the one
  whose cache lines are commented out in the storage client; it is modelled as intended.
- With no tests the cut is one empty batch (`EmptyBatchIff`); its `front()` is then undefined in the
  fetcher. Theorems about fetching start at one test.
- `Process` ignores the outcome of `Prepare`. Without scripts and metadata the batch count stays 0 and the
  report is one run on empty texts; after a failed init script the batch loop starts all the same. Neither
  container has an execute script, so such a report is one RE entry, or one CRASH entry when the first
  batch cannot be fetched (`ReportWithoutScript`), and "OK" is saved exactly for the submissions that were
  prepared, fully served and passed all tests (`SavedOkIff`).
- While a stored task is uploaded again, a fetch can mix old and new texts. No fetch of a batch does so if
  and only if the new upload changes at most one document of that batch (`UntornIff`); once the metadata is
  replaced, what is asked for is the new batch (`NewBatchAfter`).
- A re-upload that fails half-way leaves what it wrote, under the old metadata. The old batches are served
  as before if and only if nothing written differed (`FailedKeepsIff`), and a batch stays torn if and only
  if of its changed documents some were written and some not (`FailedTearsIff`): with one test, the new
  input is judged against the old expected output (`FailedMixesOneTest`).
- The batch count is read before the batches. If a re-upload comes in between, only the first so many
  batches of the new upload are judged, and later tests never run (`StaleCountIff`).
- The CPU limit in microseconds is computed in 64-bit arithmetic. From 18446744073709552 ms on it wraps,
  and short runs are judged TL (`TimeLimitRightIff`, `ShortRunTimesOut`).

## Model

| member | source | states |
|---|---|---|
| LruCache.List.PushFront | utils/lru_cache.h:19 | links a new front node; the listed pairs are the old ones with the new pair in front |
| LruCache.List.Erase | utils/lru_cache.h:39 | unlinks exactly the node an iterator points at; all other pairs and their order stay |
| LruCache.List.PopBack | utils/lru_cache.h:25 | unlinks exactly the last node |
| LruCache.IndexedMeaning | utils/lru_cache.h:58-60 | list and map in step mean: no key listed twice, the map's keys are exactly the listed keys, both sizes agree |
| LruCache.LruCache.Insert | utils/lru_cache.h:12-27 | on nodes, links and map: refines insertion into the recency order, any capacity including 0, and keeps list and map in step |
| LruCache.LruCache.Get | utils/lru_cache.h:29-44 | returns the bound value or nothing, refines refreshing in the recency order, keeps list and map in step |
| LruCache.LruCache.Erase | utils/lru_cache.h:46-53 | removes exactly the key's entry, keeps list and map in step |
| Recency.InsertedMeaning | utils/lru_cache.h:12-27 | a cached key is never overwritten; a new key is bound; an overflow forgets exactly the back key and nothing else |
| Recency.RefreshedMeaning | utils/lru_cache.h:29-44 | `Get` changes no binding and puts the key in front |
| Recency.DropLookup | utils/lru_cache.h:46-53 | `Erase` unbinds its key and no other |
| LruRuns.ReadThroughKeys | task_batcher_storage_coordinator/common/storage_client/storage_client.cpp:123-142 | one `Get`, plus `Insert` on a miss, moves the key to the front of the key order and cuts at the capacity; misses are the keys not cached |
| LruRuns.ServeKeys | utils/lru_cache.h:12-53 | for every run and any loaded values, the entries' keys follow the key-level run, without duplicates and within capacity |
| LruRuns.Inclusion | utils/lru_cache.h:12-53 | the same requests and erases on two capacities keep the smaller cache's key order a prefix of the larger's |
| LruRuns.LargerNeverMissesMore | utils/lru_cache.h:12-53 | a larger capacity never misses where the smaller hits, nor more often |
| LruRuns.PlainInsertKeepsPrefixIff | utils/lru_cache.h:15-17 | the exact condition under which an `Insert` without a `Get` keeps the prefix relation |
| LruRuns.PlainInsertsBreakInclusion | utils/lru_cache.h:15-17 | five plain inserts after which the smaller cache holds a key the larger does not |
| LruRuns.CachesMostRecent | utils/lru_cache.h:12-44 | after any Erase-free run the cache holds exactly the most recently requested keys, as many as fit, latest first |
| LruRuns.WindowBound | utils/lru_cache.h:19-43 | from any cache state, in a stretch touching at most `capacity` keys each key misses at most once |
| LruRuns.WindowTotal | utils/lru_cache.h:19-43 | such a stretch misses at most once per distinct key in all |
| Competitive.LruIsDemandPolicy | utils/lru_cache.h:12-44 | the cache is itself a demand-fetching policy, with the same miss count |
| Competitive.LruUpper | utils/lru_cache.h:12-44 | at most `capacity` misses per full phase, and one per distinct key of the last |
| Competitive.RivalPhases | utils/lru_cache.h:12-44 | what any rival must have missed by each request, told from the phases |
| Competitive.CompetitiveAgainstSmaller | utils/lru_cache.h:12-44 | (k - h + 1) times the misses with capacity k are at most k times those of any rival holding at most h keys |
| Competitive.CompetitiveBound | utils/lru_cache.h:12-44 | at most k times the misses of any demand-fetching policy of the same capacity |
| LruTraffic.ServeAll | utils/lru_cache.h:12-53 | a client's whole traffic on nodes, links and map leaves the entries of the run on values and misses as often; from an empty cache, without erases, at most k times as often as any demand-fetching policy |
| CacheAside.CachedCollection.Get | task_batcher_storage_coordinator/common/storage_client/storage_client.cpp:227-253 | answers what the bare collection answers, keeps the cache coherent, and does the step the run theorem speaks of |
| CacheAside.CachedCollection.Upsert | task_batcher_storage_coordinator/common/storage_client/storage_client.cpp:202-225 | stores the document and keeps the cache coherent by erasing the key |
| CacheAside.ReadCaches | task_batcher_storage_coordinator/common/storage_client/storage_client.cpp:227-253 | after reading a stored document it is cached in front, as in the read-through runs; reading a missing one caches nothing |
| CacheAside.CacheIsTransparent | task_batcher_storage_coordinator/common/storage_client/storage_client.cpp:202-253 | over every run of reads and writes, for every capacity, reads answer as without the cache |
| CacheAside.WithoutEraseIff | task_batcher_storage_coordinator/common/storage_client/storage_client.cpp:219 | without the erase, or with an insert instead, the cache stays coherent exactly when the key is not cached or cached with the new value |
| Batching.SplitIntoBatches | task_batcher_storage_coordinator/http/handlers/upload_tests_handler.cpp:66-95 | batches concatenate to 1..n, the first non-empty unless there are no tests; the input and output texts of each together are within the larger of the configured size and the largest test, and with the next test's texts exceed it |
| Batching.WeightIsBytes | task_batcher_storage_coordinator/http/handlers/upload_tests_handler.cpp:74-83 | a run of tests weighs the total length of its inputs and expected outputs |
| Batching.LimitMeaning | task_batcher_storage_coordinator/http/handlers/upload_tests_handler.cpp:73-75 | the limit is the larger of the configured size and the largest test |
| Batching.GreedyIsUnique | task_batcher_storage_coordinator/http/handlers/upload_tests_handler.cpp:82-92 | those conditions determine the cut |
| Batching.BatchFromEnds | task_batcher_storage_coordinator/common/storage_client/storage_client.cpp:164-167 | with at least one test, a batch is the non-empty run from its first to its last id, so the ends give back its length and members |
| Batching.EmptyBatchIff | task_batcher_storage_coordinator/http/handlers/upload_tests_handler.cpp:79-80 | there is an empty batch exactly when there are no tests |
| Batching.GreedyStaysAhead | task_batcher_storage_coordinator/http/handlers/upload_tests_handler.cpp:82-92 | the first j batches cover at least as many tests as the first j of any in-order split within the limit |
| Batching.GreedyIsMinimal | task_batcher_storage_coordinator/http/handlers/upload_tests_handler.cpp:82-92 | no in-order split within the limit has fewer batches |
| Batching.LargerSizeFewerBatches | task_batcher_storage_coordinator/http/handlers/upload_tests_handler.cpp:66-95 | raising the configured size never increases the number of batches |
| Packing.LoadIsTotal | task_batcher_storage_coordinator/http/handlers/upload_tests_handler.cpp:83 | any assignment of tests to bins weighs in all what the tests weigh |
| Packing.NeighboursOverflow | task_batcher_storage_coordinator/http/handlers/upload_tests_handler.cpp:85-88 | two neighbouring batches together exceed the limit |
| Packing.AtMostTwiceOptimal | task_batcher_storage_coordinator/http/handlers/upload_tests_handler.cpp:66-95 | if any packing, in any order, needs `bins` bins, there are at most 2 * bins - 1 batches |
| Naming.ToStringReads | task_batcher_storage_coordinator/http/handlers/upload_tests_handler.cpp:39 | the decimal digits without a leading zero; reading them gives the number back |
| Naming.NamesDistinct | userver/lib/tabasco_client.py:42-45 | the names of an upload's parts are pairwise distinct |
| Naming.PathsDisjoint | testing_processor/main.cpp:39-45 | worker number and file name can be read back from a path, so no two workers share a file |
| Storage.StorageClient.UpsertTaskTests | task_batcher_storage_coordinator/common/storage_client/storage_client.cpp:48-94 | all 2n documents are stored, all inputs in order and then all outputs, every other document as before; if a write fails, exactly the documents before it, and its error is the answer |
| Storage.StorageClient.UpsertTaskMetaData | task_batcher_storage_coordinator/common/storage_client/storage_client.cpp:96-119 | replaces the task's metadata and no other, or answers the write's error and changes nothing |
| Storage.StorageClient.GetTaskMetaData | task_batcher_storage_coordinator/common/storage_client/storage_client.cpp:121-148 | the stored metadata, or the 404 error naming the id |
| Storage.StorageClient.GetTaskBatch | task_batcher_storage_coordinator/common/storage_client/storage_client.cpp:150-200 | one slot for each id from the batch's first to its last, each with its document or empty, whatever order the cursor returns documents in; 404 exactly without metadata |
| Storage.CopiedAll | task_batcher_storage_coordinator/common/storage_client/storage_client.cpp:182-194 | copying the documents of any cursor fills the slots with what is stored |
| Storage.StorageClient.GetBuild | task_batcher_storage_coordinator/common/storage_client/storage_client.cpp:227-253 | the stored build, or the 404 error naming the id |
| Uploads.FetchBatch | task_batcher_storage_coordinator/common/storage_client/storage_client.cpp:150-200 | fetching batch b of a published task gives exactly its tests, inputs paired with outputs |
| Uploads.FetchAll | task_batcher_storage_coordinator/common/storage_client/storage_client.cpp:150-200 | all batches concatenate to the uploaded tests |
| Uploads.LastUploadWins | task_batcher_storage_coordinator/common/storage_client/storage_client.cpp:48-200 | after any sequence of complete uploads, what is fetched for a task is its most recent upload |
| Uploads.StaleNeverFetched | task_batcher_storage_coordinator/common/storage_client/storage_client.cpp:48-94 | after any uploads, a document of a longer earlier upload is still stored as it was, and no batch of the task names it |
| UploadHandler.UploadTests | userver/lib/tabasco_client.py:40-45 | the form holds each test's two texts under its numbered names, the task data, and nothing else |
| UploadHandler.StillHere | task_batcher_storage_coordinator/http/handlers/upload_tests_handler.cpp:46-55 | no part's text is read after it was moved out |
| UploadHandler.UploadTestsHandler.Parse | task_batcher_storage_coordinator/http/handlers/upload_tests_handler.cpp:11-64 | for every request: the task, part by part under the literal names, or a 400 and the task left alone; its body is about missing task data, is the decoder's error, or names the first numbered part missing, the input before the output of the same test |
| UploadHandler.FirstMissingNamed | task_batcher_storage_coordinator/http/handlers/upload_tests_handler.cpp:38-56 | the search from any test on names the first missing part, or finds none missing |
| UploadHandler.AcceptedIff | task_batcher_storage_coordinator/http/handlers/upload_tests_handler.cpp:16-56 | accepted exactly when the task data decodes and both parts of each of the numbered tests are there |
| UploadHandler.NameRoundTrip | task_batcher_storage_coordinator/http/handlers/upload_tests_handler.cpp:30-61 | the client's parts, in any order, are parsed back to the same id and tests |
| UploadHandler.UploadTestsHandler.Handle | task_batcher_storage_coordinator/http/handlers/upload_tests_handler.cpp:97-125 | a rejected request changes nothing stored; an accepted one is a complete upload with the greedy cut, whose stored batches fit their texts' bytes, written document by document with the metadata last; the first failing write gives the 400 answer with its error, leaves the documents before it and the old metadata |
| Publication.RunKeeps | task_batcher_storage_coordinator/http/handlers/upload_tests_handler.cpp:114-124 | under every interleaving: what is written is right, metadata appears only after all 2n tests, slots read hold what was uploaded |
| Publication.FetchIsAllOrNothing | task_batcher_storage_coordinator/http/handlers/upload_tests_handler.cpp:114-124 | a fetch of a task uploaded once ends with not-found or the complete batch |
| Publication.FoundOncePublished | task_batcher_storage_coordinator/common/storage_client/storage_client.cpp:127-136 | after the metadata write a fetch is never answered not-found |
| Publication.FetchAlone | task_batcher_storage_coordinator/common/storage_client/storage_client.cpp:150-200 | undisturbed, asking, reading the batch's documents in any order and finishing is the sequential fetch |
| Storage.UpsertNext | task_batcher_storage_coordinator/common/storage_client/storage_client.cpp:57-89 | each write adds exactly the document whose turn it is |
| Publication.AloneIsUpload | task_batcher_storage_coordinator/common/storage_client/storage_client.cpp:48-119 | the 2n + 1 steps of an undisturbed uploader are a complete upload |
| Publication.FailedIsAbandoned | task_batcher_storage_coordinator/http/handlers/upload_tests_handler.cpp:114-124 | a failed upload leaves the store of an uploader that stops there, so the publication theorems hold for it |
| Reupload.FetchMixes | task_batcher_storage_coordinator/common/storage_client/storage_client.cpp:150-200 | a fetch asked for before the metadata is replaced succeeds, and each slot holds the old or the new text of its own document |
| Reupload.TwoChangesTear | task_batcher_storage_coordinator/common/storage_client/storage_client.cpp:57-89 | whenever two documents of the batch change, a run exists whose fetch is neither the old batch nor the overwritten one |
| Reupload.UntornIff | task_batcher_storage_coordinator/common/storage_client/storage_client.cpp:57-89 | every such fetch, under every interleaving, returns the old batch or the wholly overwritten one if and only if at most one document of the batch changes |
| Reupload.NewBatchAfter | task_batcher_storage_coordinator/common/storage_client/storage_client.cpp:127-194 | a fetch asked for after the metadata was replaced ends, under every interleaving, with the complete new batch |
| FailedUploads.FailedKeepsIff | task_batcher_storage_coordinator/common/storage_client/storage_client.cpp:57-93 | after a failed re-upload every stored batch is fetched as before if and only if no document written before the failure differed |
| FailedUploads.FailedTearsIff | task_batcher_storage_coordinator/common/storage_client/storage_client.cpp:57-93 | a batch is then neither as stored nor as overwritten if and only if of its changed documents one was written and one was not |
| FailedUploads.FailedMixesOneTest | task_batcher_storage_coordinator/common/storage_client/storage_client.cpp:57-93 | for a task of one test a failure after its input was written leaves the new input with the old expected output |
| Judge.VerdictIff | testing_processor/testing_processor.cpp:216-243 | when each verdict is given and which outranks which; time is rounded down to milliseconds, memory kept |
| Judge.TimeLimitRightIff | testing_processor/testing_processor.cpp:226-229 | TL goes exactly to the runs over the configured limit if and only if the limit is at most 18446744073709551 ms |
| Judge.ShortRunTimesOut | testing_processor/testing_processor.cpp:226-229 | one millisecond above that, a run of 385 microseconds is judged TL |
| Judge.FlatMeaning | testing_processor/testing_processor.cpp:180-188 | the simple judge's entries are the tests' own reports up to the first not OK |
| Judge.BatchesAreFlat | testing_processor/testing_processor.cpp:167-189 | the batch loop is the simple judge on the joined tests, plus one entry with verdict CRASH, time 0 and memory 0 if a batch could not be fetched after only OK |
| Judge.BatchReportMeaning | testing_processor/testing_processor.cpp:167-189 | all entries but the last are OK; all are OK exactly when every batch was fetched and every test passes |
| TabascoService.TabascoGrpcService.GetScripts | task_batcher_storage_coordinator/grpc/server.cpp:36-61 | succeeds exactly when build and metadata exist, with their scripts and batch count; otherwise the message of the first that is missing |
| TabascoService.TabascoGrpcService.GetBatch | task_batcher_storage_coordinator/grpc/server.cpp:11-34 | the fetched batch, or the store's message |
| TestingProcessor.TestingProcessor.ExecuteAndTest | testing_processor/testing_processor.cpp:194-244 | through the local files: the report of the given test alone in the container at hand, whatever the files held; the four named files hold input, expected output, the program's output and the executor's report afterwards; no file outside the directory changes |
| TestingProcessor.TestingProcessor.Prepare | testing_processor/testing_processor.cpp:71-109 | the batch count is set exactly when scripts and metadata were fetched; the container then holds the build's init script, the user's data and, exactly if the init script returned 0, the build's execute script |
| TestingProcessor.TestingProcessor.Test | testing_processor/testing_processor.cpp:158-192 | the nested loop with early exits computes the batch report; one run on empty texts when the batch count is 0; a single CRASH entry with zeros when the first batch cannot be fetched |
| TestingProcessor.TestingProcessor.Process | testing_processor/testing_processor.cpp:53-69 | in a fresh container: what the container holds after any preparation, the report judged in it, and exactly what the database holds afterwards, whichever calls fail |
| Solutions.SolutionsDatabase.SaveResolution | userver/lib/db/solutions.py:68-87 | the last verdict becomes the result, every entry a row; an empty report or an unknown id is answered with its own error and changes nothing |
| Solutions.VerdictNameIff | testing_processor/testing_report.cpp:5-24 | which of the seven names stands for which verdict, both ways |
| Pipeline.ReportIsFlat | testing_processor/testing_processor.cpp:158-192 | for a published task the report is the simple judge's on the flat list; up to the first failing batch call otherwise, then one CRASH |
| Pipeline.StaleCountIff | testing_processor/testing_processor.cpp:163-168 | with a batch count from before a re-upload the report is the simple judge's on the first so many batches, and always that of the whole new upload if and only if the counts agree |
| Pipeline.BatchSizeDoesNotMatter | testing_processor/testing_processor.cpp:158-192 | the report does not depend on the configured batch size or on what else is stored |
| Pipeline.ClientToReport | userver/lib/tabasco_client.py:40-53 | from the client's list, through any part order and later uploads of other tasks, to the simple judge's report |
| Pipeline.SavedOkIff | userver/lib/db/solutions.py:68-74 | the saved verdict is OK exactly when the scripts call got through, build and task are stored, the init script returned 0, all batches were fetched, and all n tests were run with the build's execute script and passed |
| Pipeline.LastEntry | testing_processor/testing_processor.cpp:167-191 | the last entry is CRASH with zeros exactly when a batch call failed after only OK, and then follows one entry for each test before; otherwise it is the last test's own report |
| Pipeline.SavedVerdictIff | testing_processor/testing_processor.cpp:216-244 | for every submission, which of "OK", "WA", "TL", "ML", "RE", "CRASH" is saved, from the last run's exit code, time, memory and comparison in the container with the build's scripts, or from a lost batch |
| Pipeline.ReportWithoutScript | testing_processor/testing_processor.cpp:101-106 | without an execute script the report is one RE entry, for empty texts or for the first test, or one CRASH entry when the first batch cannot be fetched |
| Workers.StartWorkers | testing_processor/main.cpp:34-50 | each worker gets its own numbered directory and no two share a path |
| Workers.StepIsLocal | testing_processor/testing_processor.cpp:199-236 | a file step depends on, and changes, only its worker and its directory |
| Workers.EachAsIfAlone | testing_processor/main.cpp:34-50 | under every interleaving each worker ends exactly where its own steps alone would take it |
| Workers.StepsAreExecuteAndTest | testing_processor/testing_processor.cpp:194-244 | undisturbed, a worker's steps on a test leave the same files and give the same report as `ExecuteAndTest` |
| Workers.ReportsAreFlat | testing_processor/testing_processor.cpp:199-236 | whatever the interleaving and the files before, every finished report is the simple judge's |
| Workers.EnoughStepsFinish | testing_processor/testing_processor.cpp:158-192 | every schedule with enough steps for a worker makes it finish all its jobs, each with the simple judge's report |
| Deployment.EveryReportIsFlat | testing_processor/testing_processor.cpp:53-192 | in the machine of all uploads, fetches and file steps, every finished report for an uploaded task is the simple judge's on the whole list in the submission's own prepared container, or ends with one CRASH entry at a failed call, or is the one run without an execute script, which a task published before the run gets only when the scripts call failed or the build is missing |
| Deployment.OkIsEarned | testing_processor/testing_processor.cpp:53-192 | there too, a report ending in OK means that the init script returned 0 and all n tests pass under the build's execute script, one entry each |
| Deployment.ReportsAsIfAlone | testing_processor/testing_processor.cpp:53-192 | for a task published before the run, container and report of every finished submission are what processing it alone on the starting store gives, with the same calls getting through |
| Deployment.NoFetchFails | testing_processor/testing_processor.cpp:167-176 | once a submission's metadata was found, no batch fetch of it is answered not-found, under every interleaving |
| Liveness.EnoughStepsFinishFrom | testing_processor/testing_processor.cpp:53-192 | from any state reached, every continuation, with any uploads, other processors' steps and failing calls, finishes the queue once it has as many steps of this processor as are left of its budget, re-reads not counted |
| Liveness.EnoughStepsFinish | testing_processor/testing_processor.cpp:53-192 | from the start that budget is two steps a submission, four a batch and eight a test |
| Liveness.NeverStuck | testing_processor/testing_processor.cpp:53-192 | whatever happened before, a schedule of the testing processor's own steps only, with calls getting through, finishes all submissions it still has |

## Left out

- GetTaskBatch: needs a batch id below the batch count and a non-empty batch whose ends are in order, as every upload of at least one test leaves it; outside that the code indexes out of range.
- UntornIff: is about one re-upload of a stored task; several uploads of one task at the same time are not covered.
- StaleCountIff: is about a re-upload that is complete before the first batch is fetched; one between two batch calls of the same submission gives no single list to compare with.
- FetchIsAllOrNothing: is about tasks uploaded once during the run and not published before it; for published ones see `EveryReportIsFlat` and `UntornIff`.
- EveryReportIsFlat: no task is uploaded again during the run, stored builds stay the same during the run, and the scripts call is one step.
- Machine: init script, run and comparison are fixed functions of the container's contents and the texts. That a container without an execute script exits non-zero is a hypothesis of the verdict theorems (`NeedsExecuteScript`; executor/executor.cpp:27-71 runs the script through `sh`). Processes, the executor's own limits and what a run changes inside its container are not modelled.
- The database driver: collections are maps with atomic single-document upsert and find; a failing write changes nothing; driver errors on reads, duplicate documents and the signed 64-bit casts of ids are not modelled.
- JSON and multipart encoding: the task data's writer and reader are parameters that must agree; a task id that is not a number, and the library's case-insensitive part lookup, are not modelled.
- Byte sizes are unbounded numbers; the sum of texts held in memory cannot wrap a 64-bit counter.
- Executor reports copied between files are kept as values instead of being printed and parsed.
- The state of a moved-from cached value, and the cache's mutex: each cache method is one atomic step.
- Message delivery and acknowledgement, RPC, HTTP routing, curl and logging: whether a call gets through is a parameter.
- The task root directory: the service never fills it in, so that branch of `Prepare` is not reached.
- Accounts, challenges, task queries, configuration and argument parsing.
