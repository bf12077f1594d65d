/** What a complete upload leaves in the store, and what can be fetched after any number of them. */
module Uploads {
  import opened Wrappers
  import opened Sequences
  import opened Batching
  import opened Storage

  function TaskSizes(task: Task): seq<nat>
    requires Paired(task.tests)
  {
    Sizes(task.tests.inputTests, task.tests.outputTests)
  }

  /** The metadata describes the uploader's cut of the task's tests. */
  ghost predicate Describes(metaData: MetaData, task: Task)
    requires Paired(task.tests)
  {
    && metaData.taskId == task.id
    && IsGreedySplit(metaData.batches, TaskSizes(task), Limit(TaskSizes(task), metaData.batchSize))
  }

  /** What one complete upload, with its configured batch size, does to the store. */
  ghost predicate Uploaded(before: Store, task: Task, configured: nat, after: Store)
    requires Paired(task.tests)
  {
    && TestsUpserted(before.docs, task, after.docs)
    && task.id in after.meta
    && Describes(after.meta[task.id], task) && after.meta[task.id].batchSize == configured
    && after.meta == before.meta[task.id := after.meta[task.id]]
  }

  ghost predicate AllDocs(docs: Docs, task: Task)
    requires Paired(task.tests)
  {
    forall key :: IsDocOf(key, task) ==> key in docs && docs[key] == ContentOf(key, task)
  }

  /** The store serves the task: all its tests are there, and metadata that describes them. */
  ghost predicate Published(store: Store, task: Task)
    requires Paired(task.tests)
  {
    task.id in store.meta && Describes(store.meta[task.id], task) && AllDocs(store.docs, task)
  }

  /** The tests of the batch that starts after `lo` tests and ends with test `hi`. */
  function Slice(tests: TaskTests, lo: nat, hi: nat): TaskTests
    requires Paired(tests) && lo <= hi <= |tests.inputTests|
  {
    TaskTests(tests.inputTests[lo..hi], tests.outputTests[lo..hi])
  }

  /** Fetching any batch of a published task gives exactly that batch, inputs paired with outputs. */
  lemma FetchBatch(store: Store, task: Task, batchId: nat)
    requires Paired(task.tests) && TestCount(task) >= 1 && Published(store, task)
    requires batchId < |store.meta[task.id].batches|
    ensures var batches := store.meta[task.id].batches;
            && Fetchable(store.meta, task.id, batchId)
            && Cut(batches, batchId) < Cut(batches, batchId + 1) <= TestCount(task)
            && Fetch(store, task.id, batchId) ==
               Success(Slice(task.tests, Cut(batches, batchId), Cut(batches, batchId + 1)))
  {
    hide IsGreedySplit, Cut, AllDocs, Slots;
    var batches, sizes := store.meta[task.id].batches, TaskSizes(task);
    BatchFromEnds(batches, sizes, Limit(sizes, store.meta[task.id].batchSize), batchId);
    var lo, hi := Cut(batches, batchId), Cut(batches, batchId + 1);
    SliceSlots(store.docs, task, lo, hi, InputTest);
    SliceSlots(store.docs, task, lo, hi, OutputTest);
  }

  lemma SliceSlots(docs: Docs, task: Task, lo: nat, hi: nat, testType: TestType)
    requires Paired(task.tests) && AllDocs(docs, task) && lo <= hi <= TestCount(task)
    ensures Slots(docs, task.id, lo + 1, hi - lo, testType) ==
            if testType == InputTest then task.tests.inputTests[lo..hi] else task.tests.outputTests[lo..hi]
  {
    var slots := Slots(docs, task.id, lo + 1, hi - lo, testType);
    var part := if testType == InputTest then task.tests.inputTests[lo..hi] else task.tests.outputTests[lo..hi];
    forall i | 0 <= i < |slots| ensures slots[i] == part[i] {
      assert IsDocOf(DocKey(task.id, lo + 1 + i, testType), task);
    }
  }

  /** The tests of the first `count` batches fetched for a task, one batch after the other. */
  function FetchedUpTo(store: Store, taskId: nat, count: nat): TaskTests
    requires forall b :: 0 <= b < count ==> Fetchable(store.meta, taskId, b)
  {
    if count == 0 then TaskTests([], [])
    else
      var before := FetchedUpTo(store, taskId, count - 1);
      match Fetch(store, taskId, count - 1)
      case Success(tests) =>
        TaskTests(before.inputTests + tests.inputTests, before.outputTests + tests.outputTests)
      case Failure(_) => before
  }

  lemma {:induction false} FetchedPrefix(store: Store, task: Task, count: nat)
    requires Paired(task.tests) && TestCount(task) >= 1 && Published(store, task)
    requires count <= |store.meta[task.id].batches|
    ensures forall b :: 0 <= b < count ==> Fetchable(store.meta, task.id, b)
    ensures Cut(store.meta[task.id].batches, count) <= TestCount(task)
    ensures FetchedUpTo(store, task.id, count) == Slice(task.tests, 0, Cut(store.meta[task.id].batches, count))
  {
    hide Describes, AllDocs, Fetchable, Fetch, Cut;
    var batches := store.meta[task.id].batches;
    CutZero(batches);
    if count > 0 {
      FetchedPrefix(store, task, count - 1);
      FetchBatch(store, task, count - 1);
      var lo, hi := Cut(batches, count - 1), Cut(batches, count);
      assert task.tests.inputTests[0..hi] == task.tests.inputTests[0..lo] + task.tests.inputTests[lo..hi];
      assert task.tests.outputTests[0..hi] == task.tests.outputTests[0..lo] + task.tests.outputTests[lo..hi];
    }
  }

  lemma CutZero(batches: seq<seq<nat>>)
    ensures Cut(batches, 0) == 0
  {
  }

  /** Concatenating all fetched batches of a published task gives back its tests. */
  lemma FetchAll(store: Store, task: Task)
    requires Paired(task.tests) && TestCount(task) >= 1 && Published(store, task)
    ensures var count := |store.meta[task.id].batches|;
            && (forall b :: 0 <= b < count ==> Fetchable(store.meta, task.id, b))
            && FetchedUpTo(store, task.id, count) == task.tests
  {
    var batches := store.meta[task.id].batches;
    FetchedPrefix(store, task, |batches|);
    CutEnds(batches, TestCount(task));
  }

  // ----- Any number of uploads, one at a time

  datatype Upload = Upload(task: Task, configured: nat)

  /** `states[i]` is the store before upload i; the first may hold anything. */
  ghost predicate UploadRun(states: seq<Store>, uploads: seq<Upload>) {
    && |states| == |uploads| + 1
    && (forall i :: 0 <= i < |uploads| ==>
          && Paired(uploads[i].task.tests)
          && Uploaded(states[i], uploads[i].task, uploads[i].configured, states[i + 1]))
  }

  lemma UploadPublishes(before: Store, task: Task, configured: nat, after: Store)
    requires Paired(task.tests) && Uploaded(before, task, configured, after)
    ensures Published(after, task)
  {
  }

  lemma UploadKeepsOthers(before: Store, task: Task, configured: nat, after: Store, other: Task)
    requires Paired(task.tests) && Uploaded(before, task, configured, after)
    requires Paired(other.tests) && other.id != task.id && Published(before, other)
    ensures Published(after, other)
  {
    hide IsGreedySplit;
  }

  lemma {:induction false} StaysPublished(states: seq<Store>, uploads: seq<Upload>, i: nat, n: nat)
    requires UploadRun(states, uploads) && i < n <= |uploads|
    requires forall j :: i < j < |uploads| ==> uploads[j].task.id != uploads[i].task.id
    ensures Paired(uploads[i].task.tests) && Published(states[n], uploads[i].task)
    decreases n
  {
    hide Uploaded, Published;
    var u := uploads[n - 1];
    if n == i + 1 {
      UploadPublishes(states[i], u.task, u.configured, states[n]);
    } else {
      StaysPublished(states, uploads, i, n - 1);
      UploadKeepsOthers(states[n - 1], u.task, u.configured, states[n], uploads[i].task);
    }
  }

  /**
   Last upload wins: after any sequence of complete uploads of any tasks with any batch sizes, the
   batches fetched for a task concatenate to its most recent upload, whatever was stored before.
   */
  lemma LastUploadWins(states: seq<Store>, uploads: seq<Upload>, i: nat)
    requires UploadRun(states, uploads) && i < |uploads| && TestCount(uploads[i].task) >= 1
    requires forall j :: i < j < |uploads| ==> uploads[j].task.id != uploads[i].task.id
    ensures var store, task := states[|uploads|], uploads[i].task;
            && task.id in store.meta
            && (forall b :: 0 <= b < |store.meta[task.id].batches| ==> Fetchable(store.meta, task.id, b))
            && FetchedUpTo(store, task.id, |store.meta[task.id].batches|) == task.tests
  {
    StaysPublished(states, uploads, i, |uploads|);
    FetchAll(states[|uploads|], uploads[i].task);
  }

  /** A document whose last upload was upload `i` still holds what that upload wrote. */
  lemma {:induction false} DocStays(states: seq<Store>, uploads: seq<Upload>, i: nat, n: nat, key: DocKey)
    requires UploadRun(states, uploads) && i < n <= |uploads|
    requires Paired(uploads[i].task.tests) && IsDocOf(key, uploads[i].task)
    requires forall j :: i < j < |uploads| ==> !IsDocOf(key, uploads[j].task)
    ensures key in states[n].docs && states[n].docs[key] == ContentOf(key, uploads[i].task)
    decreases n
  {
    hide IsGreedySplit;
    var u := uploads[n - 1];
    assert Uploaded(states[n - 1], u.task, u.configured, states[n]);
    if n > i + 1 {
      DocStays(states, uploads, i, n - 1, key);
    }
  }

  /**
   Old documents are kept and never served: after any uploads, a test of upload `i` that every later
   upload of the task was too short to overwrite is still stored unchanged, and if upload `j` is the
   task's last, no batch of the task names it.
   */
  lemma StaleNeverFetched(states: seq<Store>, uploads: seq<Upload>, i: nat, j: nat, key: DocKey)
    requires UploadRun(states, uploads) && i < j < |uploads|
    requires uploads[i].task.id == uploads[j].task.id
    requires forall l :: j < l < |uploads| ==> uploads[l].task.id != uploads[j].task.id
    requires Paired(uploads[i].task.tests) && IsDocOf(key, uploads[i].task)
    requires forall l :: i < l < |uploads| && uploads[l].task.id == key.taskId ==>
               TestCount(uploads[l].task) < key.testId
    ensures var store := states[|uploads|];
            && key in store.docs && store.docs[key] == ContentOf(key, uploads[i].task)
            && key.taskId in store.meta
            && (forall b :: 0 <= b < |store.meta[key.taskId].batches| ==>
                  key.testId !in store.meta[key.taskId].batches[b])
  {
    hide Uploaded, IsGreedySplit;
    DocStays(states, uploads, i, |uploads|, key);
    StaysPublished(states, uploads, j, |uploads|);
    var store, task := states[|uploads|], uploads[j].task;
    forall b | 0 <= b < |store.meta[task.id].batches| ensures key.testId !in store.meta[task.id].batches[b] {
      BatchIds(store.meta[task.id].batches, TaskSizes(task),
               Limit(TaskSizes(task), store.meta[task.id].batchSize), b, key.testId);
    }
  }

  /** A batch names only ids from 1 to the number of tests. */
  lemma BatchIds(batches: seq<seq<nat>>, sizes: seq<nat>, limit: nat, b: nat, id: nat)
    requires IsGreedySplit(batches, sizes, limit) && b < |batches|
    ensures id in batches[b] ==> 1 <= id <= |sizes|
  {
    hide Concat;
    GreedyCovers(batches, sizes, limit);
    BatchIsRange(batches, |sizes|, b);
  }
}
