/** A re-upload of a stored task that stops at a failing write: what is served from then on. */
module FailedUploads {
  import opened Wrappers
  import opened Sequences
  import opened Batching
  import opened Storage
  import opened Uploads
  import opened Publication
  import opened Reupload

  /** Every test is in some batch. */
  lemma {:induction false} InSomeBatch(batches: seq<seq<nat>>, n: nat, id: nat, count: nat) returns (b: nat)
    requires Concat(batches) == Range(0, n) && count <= |batches| && 1 <= id <= Cut(batches, count)
    ensures b < count && Cut(batches, b) < id <= Cut(batches, b + 1)
  {
    hide Cut, Concat;
    CutEnds(batches, n);
    b := count - 1;
    if id <= Cut(batches, b) {
      b := InSomeBatch(batches, n, id, b);
    }
  }

  lemma BatchWith(store: Store, stored: Task, key: DocKey) returns (b: nat)
    requires Paired(stored.tests) && TestCount(stored) >= 1 && Published(store, stored) && IsDocOf(key, stored)
    ensures var batches := store.meta[stored.id].batches;
            b < |batches| && InBatch(key, stored.id, Cut(batches, b), Cut(batches, b + 1))
  {
    hide Cut;
    var batches := store.meta[stored.id].batches;
    CutEnds(batches, TestCount(stored));
    b := InSomeBatch(batches, TestCount(stored), key.testId, |batches|);
  }

  /** The slot of a document in a batch served from the cut of the stored task. */
  lemma ServedSlot(store: Store, now: Store, stored: Task, b: nat, key: DocKey)
    requires Paired(stored.tests) && TestCount(stored) >= 1 && Published(store, stored) && now.meta == store.meta
    requires b < |store.meta[stored.id].batches|
    requires var batches := store.meta[stored.id].batches;
             InBatch(key, stored.id, Cut(batches, b), Cut(batches, b + 1))
    ensures var batches := store.meta[stored.id].batches;
            var lo, hi := Cut(batches, b), Cut(batches, b + 1);
            && Fetchable(now.meta, stored.id, b) && Fetch(now, stored.id, b).Success?
            && var served := Fetch(now, stored.id, b).value;
               && |served.inputTests| == |served.outputTests| == hi - lo
               && SlotAt(served, key, lo) == Slot(now.docs, key)
  {
    hide IsGreedySplit, Cut;
    var metaData := store.meta[stored.id];
    BatchFromEnds(metaData.batches, TaskSizes(stored), Limit(TaskSizes(stored), metaData.batchSize), b);
    assert key.testType.InputTest? || key.testType.OutputTest?;
  }

  /** Every document of `again` that was written before write `made` failed is as it was stored. */
  ghost predicate WroteNothingNew(stored: Task, again: Task, made: nat)
    requires Paired(stored.tests) && Paired(again.tests) && again.id == stored.id
  {
    forall key :: IsDocOf(key, stored) && IsDocOf(key, again) && Turn(key, again) < made ==>
      ContentOf(key, again) == ContentOf(key, stored)
  }

  ghost predicate ServesAlike(store: Store, now: Store, taskId: nat)
    requires taskId in store.meta && now.meta == store.meta
  {
    forall b :: 0 <= b < |store.meta[taskId].batches| ==>
      && Fetchable(store.meta, taskId, b)
      && Fetch(now, taskId, b) == Fetch(store, taskId, b)
  }

  /**
   What a failed re-upload does to the task as it was stored: every batch is still served as before if
   and only if no document written before the failure differs from the stored one.
   */
  lemma FailedKeepsIff(before: Store, stored: Task, again: Task, made: nat, after: Store)
    requires Paired(stored.tests) && Paired(again.tests) && again.id == stored.id
    requires TestCount(stored) >= 1 && Published(before, stored)
    requires UpsertedSome(before.docs, again, made, after.docs) && after.meta == before.meta
    ensures ServesAlike(before, after, stored.id) <==> WroteNothingNew(stored, again, made)
  {
    hide Turn, ContentOf, Describes, Cut, Fetch, Fetchable, Slots;
    if WroteNothingNew(stored, again, made) {
      FailedKeepsDocs(before, stored, again, made, after);
      forall b | 0 <= b < |before.meta[stored.id].batches|
        ensures Fetchable(before.meta, stored.id, b) && Fetch(after, stored.id, b) == Fetch(before, stored.id, b)
      {
        FetchBatch(before, stored, b);
        FetchBatch(after, stored, b);
      }
    } else {
      var key :| IsDocOf(key, stored) && IsDocOf(key, again) && Turn(key, again) < made
                 && ContentOf(key, again) != ContentOf(key, stored);
      var b := BatchWith(before, stored, key);
      ServedSlot(before, before, stored, b, key);
      ServedSlot(before, after, stored, b, key);
    }
  }

  /** Two documents of the batch change, and the failure comes between their writes. */
  ghost predicate FailsBetween(stored: Task, again: Task, made: nat, lo: nat, hi: nat)
    requires Paired(stored.tests) && Paired(again.tests) && again.id == stored.id
  {
    && (exists key :: NewIn(key, stored, again, lo, hi) && Turn(key, again) < made)
    && (exists key :: NewIn(key, stored, again, lo, hi) && Turn(key, again) >= made)
  }

  predicate NewIn(key: DocKey, stored: Task, again: Task, lo: nat, hi: nat)
    requires Paired(stored.tests) && Paired(again.tests) && again.id == stored.id
  {
    InBatch(key, stored.id, lo, hi) && Changed(key, stored, again)
  }

  /**
   A failed re-upload leaves a batch torn for good, neither as stored nor as overwritten, if and only if
   of the documents it changes in that batch one was written before the failure and one was not.
   */
  lemma FailedTearsIff(before: Store, stored: Task, again: Task, made: nat, after: Store, b: nat)
    requires Paired(stored.tests) && Paired(again.tests) && again.id == stored.id
    requires TestCount(stored) >= 1 && Published(before, stored) && b < |before.meta[stored.id].batches|
    requires UpsertedSome(before.docs, again, made, after.docs) && after.meta == before.meta
    ensures var batches := before.meta[stored.id].batches;
            var lo, hi := Cut(batches, b), Cut(batches, b + 1);
            && lo <= hi <= TestCount(stored) && Fetchable(after.meta, stored.id, b)
            && Fetch(after, stored.id, b).Success?
            && var served := Fetch(after, stored.id, b).value;
               (served != Slice(stored.tests, lo, hi) && served != Slice(Overwritten(stored, again).tests, lo, hi)
                <==> FailsBetween(stored, again, made, lo, hi))
  {
    hide Describes, Cut, Turn, Overwritten, ContentOf, Fetch, Fetchable, AllDocs;
    var batches, merged := before.meta[stored.id].batches, Overwritten(stored, again);
    var lo, hi := Cut(batches, b), Cut(batches, b + 1);
    FetchBatch(before, stored, b);
    var first := DocKey(stored.id, lo + 1, InputTest);
    ServedSlot(before, after, stored, b, first);
    var served := Fetch(after, stored.id, b).value;
    forall key | InBatch(key, stored.id, lo, hi)
      ensures IsDocOf(key, stored)
      ensures SlotAt(served, key, lo) == if IsDocOf(key, again) && Turn(key, again) < made then ContentOf(key, again)
                                         else ContentOf(key, stored)
    {
      ServedSlot(before, after, stored, b, key);
      StoredDoc(before, stored, key);
    }
    if key :| NewIn(key, stored, again, lo, hi) && Turn(key, again) < made {
      SlotOfSlice(stored, key, lo, hi);
    } else {
      AllSlots(served, stored, lo, hi);
    }
    if key :| NewIn(key, stored, again, lo, hi) && Turn(key, again) >= made {
      SlotOfSlice(merged, key, lo, hi);
    } else {
      AllSlots(served, merged, lo, hi);
    }
  }

  lemma StoredDoc(store: Store, task: Task, key: DocKey)
    requires Paired(task.tests) && Published(store, task) && IsDocOf(key, task)
    ensures key in store.docs && store.docs[key] == ContentOf(key, task)
  {
  }

  /** For instance a task of one test: the new input is then judged against the old expected output. */
  lemma FailedMixesOneTest(before: Store, stored: Task, again: Task, made: nat, after: Store)
    requires Paired(stored.tests) && Paired(again.tests) && again.id == stored.id
    requires TestCount(stored) == 1 && Published(before, stored) && 1 <= made <= TestCount(again)
    requires UpsertedSome(before.docs, again, made, after.docs) && after.meta == before.meta
    ensures Fetchable(after.meta, stored.id, 0)
    ensures Fetch(after, stored.id, 0) ==
            Success(TaskTests([again.tests.inputTests[0]], [stored.tests.outputTests[0]]))
  {
    hide Describes, Cut, Fetch, Fetchable;
    var input, output := DocKey(stored.id, 1, InputTest), DocKey(stored.id, 1, OutputTest);
    OneBatch(before, stored);
    ServedSlot(before, after, stored, 0, input);
    ServedSlot(before, after, stored, 0, output);
    StoredDoc(before, stored, output);
    var served := Fetch(after, stored.id, 0).value;
    assert served.inputTests == [served.inputTests[0]] && served.outputTests == [served.outputTests[0]];
  }

  lemma OneBatch(store: Store, task: Task)
    requires Paired(task.tests) && TestCount(task) == 1 && Published(store, task)
    ensures var batches := store.meta[task.id].batches;
            |batches| >= 1 && Cut(batches, 0) == 0 && Cut(batches, 1) == 1
  {
    hide Cut, Concat;
    var metaData := store.meta[task.id];
    CutEnds(metaData.batches, 1);
    BatchFromEnds(metaData.batches, TaskSizes(task), Limit(TaskSizes(task), metaData.batchSize), 0);
  }
}
