/** Uploading a task again while one of its stored batches is fetched: when a fetch can tear. */
module Reupload {
  import opened Wrappers
  import opened Batching
  import opened Storage
  import opened Uploads
  import opened Publication

  /** The stored task with each document that `again` also has replaced by the one of `again`. */
  function Overwritten(stored: Task, again: Task): (task: Task)
    requires Paired(stored.tests) && Paired(again.tests) && again.id == stored.id
    ensures Paired(task.tests) && task.id == stored.id && TestCount(task) == TestCount(stored)
    ensures forall key :: IsDocOf(key, stored) ==>
              ContentOf(key, task) == if IsDocOf(key, again) then ContentOf(key, again) else ContentOf(key, stored)
  {
    var n, m := TestCount(stored), TestCount(again);
    var inputs := seq(n, i requires 0 <= i < n =>
      if i < m then again.tests.inputTests[i] else stored.tests.inputTests[i]);
    var outputs := seq(n, i requires 0 <= i < n =>
      if i < m then again.tests.outputTests[i] else stored.tests.outputTests[i]);
    Task(stored.id, TaskTests(inputs, outputs))
  }

  /** The stored task is published, and only uploader `u`, which has not started, uploads it again. */
  ghost predicate Reuploading(s: System, u: nat, stored: Task) {
    && AllPaired(s.uploaders) && u < |s.uploaders|
    && Paired(stored.tests) && TestCount(stored) >= 1 && Published(s.store, stored)
    && s.uploaders[u].task.id == stored.id && s.uploaders[u].written == 0
    && OnlyUploader(s.uploaders, u, stored.id)
  }

  ghost predicate OnlyUploader(uploaders: seq<Uploader>, u: nat, taskId: nat) {
    forall v :: 0 <= v < |uploaders| ==>
      && uploaders[v].metaData.taskId == uploaders[v].task.id
      && (v != u ==> uploaders[v].task.id != taskId)
  }

  /**
   A run in which fetcher `f` asks for the batch after the events `before`, which do not yet replace
   the metadata, and ends with `result` after any events `later` in which it does not ask again.
   */
  ghost predicate FetchDuring(s: System, f: nat, u: nat, taskId: nat, batchId: nat, before: seq<Event>,
                              later: seq<Event>, result: Result<TaskTests, Error>)
    requires AllPaired(s.uploaders)
  {
    var asking := Run(s, before);
    var end := Run(Step(asking, Ask(f, taskId, batchId)), later);
    && u < |asking.uploaders| && asking.uploaders[u].written <= 2 * TestCount(asking.uploaders[u].task)
    && NeverAsks(later, f)
    && f < |end.fetchers| && end.fetchers[f] == Done(taskId, batchId, result)
  }

  ghost predicate NeverAsks(events: seq<Event>, f: nat) {
    forall e :: e in events ==> !(e.Ask? && e.fetcher == f)
  }

  predicate InBatch(key: DocKey, taskId: nat, lo: nat, hi: nat) {
    key.taskId == taskId && lo < key.testId <= hi
  }

  /** The new upload has this document with another text. */
  predicate Changed(key: DocKey, stored: Task, again: Task)
    requires Paired(stored.tests) && Paired(again.tests) && again.id == stored.id
  {
    IsDocOf(key, stored) && IsDocOf(key, again) && ContentOf(key, stored) != ContentOf(key, again)
  }

  ghost predicate AtMostOneChange(stored: Task, again: Task, lo: nat, hi: nat)
    requires Paired(stored.tests) && Paired(again.tests) && again.id == stored.id
  {
    forall key, other ::
      (&& InBatch(key, stored.id, lo, hi) && InBatch(other, stored.id, lo, hi)
       && Changed(key, stored, again) && Changed(other, stored, again)) ==> key == other
  }

  // ----- What every step keeps

  ghost predicate OldOrNew(docs: Docs, stored: Task, again: Task)
    requires Paired(stored.tests) && Paired(again.tests) && again.id == stored.id
  {
    forall key :: IsDocOf(key, stored) ==> key in docs && IsOldOrNew(docs[key], key, stored, again)
  }

  ghost predicate IsOldOrNew(text: string, key: DocKey, stored: Task, again: Task)
    requires Paired(stored.tests) && Paired(again.tests) && again.id == stored.id && IsDocOf(key, stored)
  {
    text == ContentOf(key, stored) || text == ContentOf(key, Overwritten(stored, again))
  }

  /** Until the metadata is replaced it is the stored one; the documents are each old or new. */
  ghost predicate Overwriting(s: System, u: nat, stored: Task, again: Task, metaData: MetaData)
    requires Paired(stored.tests) && Paired(again.tests) && again.id == stored.id
  {
    && AllPaired(s.uploaders) && u < |s.uploaders| && s.uploaders[u].task == again
    && OnlyUploader(s.uploaders, u, stored.id)
    && (s.uploaders[u].written <= 2 * TestCount(again) ==>
          stored.id in s.store.meta && s.store.meta[stored.id] == metaData)
    && OldOrNew(s.store.docs, stored, again)
  }

  lemma WriteOverwrites(s: System, w: nat, u: nat, stored: Task, again: Task, metaData: MetaData)
    requires Paired(stored.tests) && Paired(again.tests) && again.id == stored.id
    requires Overwriting(s, u, stored, again, metaData) && w < |s.uploaders|
    ensures Overwriting(Step(s, Write(w)), u, stored, again, metaData)
  {
    hide TestWrites, NextKey, ContentOf;
    var up := s.uploaders[w];
    if up.written < 2 * TestCount(up.task) {
      WriteAt(up.task, up.written);
    }
  }

  lemma {:induction false} RunOverwrites(s: System, events: seq<Event>, u: nat, stored: Task, again: Task,
                                         metaData: MetaData)
    requires Paired(stored.tests) && Paired(again.tests) && again.id == stored.id
    requires Overwriting(s, u, stored, again, metaData)
    ensures Overwriting(Run(s, events), u, stored, again, metaData)
  {
    hide OldOrNew, Wrote, Asked, Received, Finished;
    if events != [] {
      var before, e := events[..|events| - 1], events[|events| - 1];
      RunOverwrites(s, before, u, stored, again, metaData);
      if e.Write? && e.uploader < |Run(s, before).uploaders| {
        WriteOverwrites(Run(s, before), e.uploader, u, stored, again, metaData);
      }
    }
  }

  function SlotAt(tests: TaskTests, key: DocKey, lo: nat): string
    requires |tests.inputTests| == |tests.outputTests| && lo < key.testId <= lo + |tests.inputTests|
  {
    if key.testType == InputTest then tests.inputTests[key.testId - lo - 1] else tests.outputTests[key.testId - lo - 1]
  }

  /** Every slot whose document was read holds its old or its new text. */
  ghost predicate Mixed(tests: TaskTests, left: set<DocKey>, stored: Task, again: Task, lo: nat, hi: nat)
    requires Paired(stored.tests) && Paired(again.tests) && again.id == stored.id && lo <= hi <= TestCount(stored)
  {
    && |tests.inputTests| == |tests.outputTests| == hi - lo
    && (forall key :: key in left ==> InBatch(key, stored.id, lo, hi))
    && (forall key :: InBatch(key, stored.id, lo, hi) && key !in left ==>
          IsOldOrNew(SlotAt(tests, key, lo), key, stored, again))
  }

  ghost predicate FetcherMixed(f: Fetcher, batchId: nat, stored: Task, again: Task, lo: nat, hi: nat)
    requires Paired(stored.tests) && Paired(again.tests) && again.id == stored.id && lo <= hi <= TestCount(stored)
  {
    match f
    case Idle => false
    case Reading(id, b, front, left, inputs, outputs) =>
      && id == stored.id && b == batchId && front == lo + 1
      && Mixed(TaskTests(inputs, outputs), left, stored, again, lo, hi)
    case Done(id, b, result) =>
      id == stored.id && b == batchId && result.Success? && Mixed(result.value, {}, stored, again, lo, hi)
  }

  lemma CopyMixes(store: Store, f: Fetcher, key: DocKey, batchId: nat, stored: Task, again: Task, lo: nat, hi: nat)
    requires Paired(stored.tests) && Paired(again.tests) && again.id == stored.id && lo <= hi <= TestCount(stored)
    requires FetcherMixed(f, batchId, stored, again, lo, hi) && OldOrNew(store.docs, stored, again)
    ensures FetcherMixed(Received(store, f, key), batchId, stored, again, lo, hi)
  {
    hide ContentOf, IsOldOrNew;
    var g := Received(store, f, key);
    if f.Reading? && key in f.left {
      var tests, now := TaskTests(f.inputs, f.outputs), TaskTests(g.inputs, g.outputs);
      forall k | InBatch(k, stored.id, lo, hi) && k !in g.left
        ensures IsOldOrNew(SlotAt(now, k, lo), k, stored, again)
      {
        assert IsDocOf(k, stored);
        if k != key {
          assert SlotAt(now, k, lo) == SlotAt(tests, k, lo);
        }
      }
    }
  }

  lemma {:induction false} RunMixes(s: System, events: seq<Event>, f: nat, batchId: nat, u: nat, stored: Task,
                                    again: Task, metaData: MetaData, lo: nat, hi: nat)
    requires Paired(stored.tests) && Paired(again.tests) && again.id == stored.id && lo <= hi <= TestCount(stored)
    requires Overwriting(s, u, stored, again, metaData) && NeverAsks(events, f)
    requires f < |s.fetchers| && FetcherMixed(s.fetchers[f], batchId, stored, again, lo, hi)
    ensures f < |Run(s, events).fetchers|
    ensures FetcherMixed(Run(s, events).fetchers[f], batchId, stored, again, lo, hi)
  {
    hide Mixed, OldOrNew, Received, Wrote, OnlyUploader;
    if events != [] {
      var before, e := events[..|events| - 1], events[|events| - 1];
      assert NeverAsks(before, f);
      RunMixes(s, before, f, batchId, u, stored, again, metaData, lo, hi);
      RunOverwrites(s, before, u, stored, again, metaData);
      var now := Run(s, before);
      assert e in events;
      if e.ReadDoc? && e.fetcher == f {
        CopyMixes(now.store, now.fetchers[f], e.key, batchId, stored, again, lo, hi);
      } else if e.Finish? && e.fetcher == f {
        FinishMixes(now.fetchers[f], batchId, stored, again, lo, hi);
      }
    }
  }

  lemma FinishMixes(f: Fetcher, batchId: nat, stored: Task, again: Task, lo: nat, hi: nat)
    requires Paired(stored.tests) && Paired(again.tests) && again.id == stored.id && lo <= hi <= TestCount(stored)
    requires FetcherMixed(f, batchId, stored, again, lo, hi)
    ensures FetcherMixed(Finished(f), batchId, stored, again, lo, hi)
  {
  }

  /** With at most one changed document, slots that are each old or new are all old or all new. */
  lemma MixedIsWhole(tests: TaskTests, stored: Task, again: Task, lo: nat, hi: nat)
    requires Paired(stored.tests) && Paired(again.tests) && again.id == stored.id && lo <= hi <= TestCount(stored)
    requires Mixed(tests, {}, stored, again, lo, hi) && AtMostOneChange(stored, again, lo, hi)
    ensures tests == Slice(stored.tests, lo, hi) || tests == Slice(Overwritten(stored, again).tests, lo, hi)
  {
    hide ContentOf, Overwritten;
    var merged := Overwritten(stored, again);
    if key :| InBatch(key, stored.id, lo, hi) && SlotAt(tests, key, lo) != ContentOf(key, stored) {
      forall k | InBatch(k, stored.id, lo, hi) ensures SlotAt(tests, k, lo) == ContentOf(k, merged) {
        assert IsOldOrNew(SlotAt(tests, k, lo), k, stored, again);
      }
      AllSlots(tests, merged, lo, hi);
    } else {
      AllSlots(tests, stored, lo, hi);
    }
  }

  lemma AllSlots(tests: TaskTests, task: Task, lo: nat, hi: nat)
    requires Paired(task.tests) && lo <= hi <= TestCount(task) && |tests.inputTests| == |tests.outputTests| == hi - lo
    requires forall key :: InBatch(key, task.id, lo, hi) ==> SlotAt(tests, key, lo) == ContentOf(key, task)
    ensures tests == Slice(task.tests, lo, hi)
  {
    var slice := Slice(task.tests, lo, hi);
    forall i | 0 <= i < hi - lo
      ensures tests.inputTests[i] == slice.inputTests[i] && tests.outputTests[i] == slice.outputTests[i]
    {
      var key := DocKey(task.id, lo + 1 + i, InputTest);
      assert InBatch(key, task.id, lo, hi) && InBatch(key.(testType := OutputTest), task.id, lo, hi);
      assert SlotAt(tests, key, lo) == ContentOf(key, task);
    }
    assert tests.inputTests == slice.inputTests && tests.outputTests == slice.outputTests;
  }

  /** Every fetch asked for before the metadata is replaced ends with old and new texts only. */
  lemma FetchMixes(s: System, f: nat, u: nat, stored: Task, batchId: nat, before: seq<Event>, later: seq<Event>,
                   result: Result<TaskTests, Error>)
    requires Reuploading(s, u, stored) && batchId < |s.store.meta[stored.id].batches|
    requires FetchDuring(s, f, u, stored.id, batchId, before, later, result)
    ensures var again, batches := s.uploaders[u].task, s.store.meta[stored.id].batches;
            var lo, hi := Cut(batches, batchId), Cut(batches, batchId + 1);
            && lo <= hi <= TestCount(stored) && result.Success?
            && Mixed(result.value, {}, stored, again, lo, hi)
  {
    hide Describes, Cut, NeverAsks, Wrote, Received, Finished;
    var again, metaData := s.uploaders[u].task, s.store.meta[stored.id];
    var lo, hi := Cut(metaData.batches, batchId), Cut(metaData.batches, batchId + 1);
    RunOverwrites(s, before, u, stored, again, metaData);
    RunKeepsShape(s, before);
    var asking, asked := Run(s, before), Step(Run(s, before), Ask(f, stored.id, batchId));
    RunKeepsShape(asked, later);
    AskMixes(asking.store, asking.fetchers[f], batchId, stored, again, metaData);
    RunMixes(asked, later, f, batchId, u, stored, again, metaData, lo, hi);
  }

  lemma AskMixes(store: Store, f: Fetcher, batchId: nat, stored: Task, again: Task, metaData: MetaData)
    requires Paired(stored.tests) && Paired(again.tests) && again.id == stored.id && TestCount(stored) >= 1
    requires stored.id in store.meta && store.meta[stored.id] == metaData && Describes(metaData, stored)
    requires batchId < |metaData.batches|
    ensures var lo, hi := Cut(metaData.batches, batchId), Cut(metaData.batches, batchId + 1);
            && lo <= hi <= TestCount(stored)
            && FetcherMixed(Asked(store, f, stored.id, batchId), batchId, stored, again, lo, hi)
  {
    hide IsGreedySplit, Cut, IsOldOrNew, ContentOf;
    BatchFromEnds(metaData.batches, TaskSizes(stored), Limit(TaskSizes(stored), metaData.batchSize), batchId);
  }

  // ----- The torn fetch

  function Repeated(e: Event, count: nat): seq<Event> {
    seq(count, i requires 0 <= i < count => e)
  }

  function Reads(f: nat, keys: seq<DocKey>): (events: seq<Event>)
    ensures NeverAsks(events, f)
  {
    seq(|keys|, i requires 0 <= i < |keys| => ReadDoc(f, keys[i]))
  }

  lemma {:induction false} RunWrites(s: System, u: nat, count: nat)
    requires AllPaired(s.uploaders) && u < |s.uploaders|
    ensures var now, (store, up) := Run(s, Repeated(Write(u), count)), Alone(s.store, s.uploaders[u], count);
            now == System(store, s.uploaders[u := up], s.fetchers)
  {
    hide Wrote, Advanced;
    var events := Repeated(Write(u), count);
    if count == 0 {
      assert s.uploaders[u := s.uploaders[u]] == s.uploaders;
    } else {
      RunWrites(s, u, count - 1);
      assert events[..count - 1] == Repeated(Write(u), count - 1);
    }
  }

  lemma {:induction false} RunReads(s: System, f: nat, keys: seq<DocKey>)
    requires AllPaired(s.uploaders) && f < |s.fetchers|
    ensures Run(s, Reads(f, keys)) == s.(fetchers := s.fetchers[f := ReadAll(s.store, s.fetchers[f], keys)])
  {
    hide Received;
    var events := Reads(f, keys);
    if keys == [] {
      assert s.fetchers[f := s.fetchers[f]] == s.fetchers;
    } else {
      var before := keys[..|keys| - 1];
      RunReads(s, f, before);
      assert events[..|events| - 1] == Reads(f, before);
    }
  }

  function KeyList(taskId: nat, front: nat, count: nat): (keys: seq<DocKey>)
    ensures forall i :: front <= i < front + count ==>
              DocKey(taskId, i, InputTest) in keys && DocKey(taskId, i, OutputTest) in keys
  {
    if count == 0 then []
    else KeyList(taskId, front, count - 1)
         + [DocKey(taskId, front + count - 1, InputTest), DocKey(taskId, front + count - 1, OutputTest)]
  }

  lemma KeyListHas(taskId: nat, front: nat, count: nat, key: DocKey)
    requires key in BatchKeys(taskId, front, count)
    ensures key in KeyList(taskId, front, count)
  {
    assert key.testType.InputTest? || key.testType.OutputTest?;
    assert key == DocKey(taskId, key.testId, key.testType);
  }

  /** After the first `writes` writes of `u`, a fetch that nothing disturbs returns what is then stored. */
  lemma FetchBetween(s: System, f: nat, u: nat, stored: Task, batchId: nat, writes: nat) returns (later: seq<Event>)
    requires Reuploading(s, u, stored) && batchId < |s.store.meta[stored.id].batches| && f < |s.fetchers|
    requires writes <= 2 * TestCount(s.uploaders[u].task)
    ensures var store := Alone(s.store, s.uploaders[u], writes).0;
            && store.meta == s.store.meta && Fetchable(store.meta, stored.id, batchId)
            && UpsertedSome(s.store.docs, s.uploaders[u].task, writes, store.docs)
            && FetchDuring(s, f, u, stored.id, batchId, Repeated(Write(u), writes), later,
                           Fetch(store, stored.id, batchId))
  {
    hide Describes, AllDocs, UpsertedSome, Fetch, Fetchable, Asked, ReadAll, Alone, ListsBatch, NeverAsks, Finished,
         BatchKeys;
    AloneWrites(s.store, s.uploaders[u], writes);
    RunWrites(s, u, writes);
    FetchBatch(s.store, stored, batchId);
    var asking := Run(s, Repeated(Write(u), writes));
    var keys := KeysOfBatch(asking.store, stored.id, batchId);
    var asked := Step(asking, Ask(f, stored.id, batchId));
    later := Reads(f, keys) + [Finish(f)];
    assert later[..|later| - 1] == Reads(f, keys);
    RunReads(asked, f, keys);
    FetchAlone(asking.store, asking.fetchers[f], stored.id, batchId, keys);
    NeverAsksMore(Reads(f, keys), f);
  }

  lemma NeverAsksMore(events: seq<Event>, f: nat)
    requires NeverAsks(events, f)
    ensures NeverAsks(events + [Finish(f)], f)
  {
  }

  lemma KeysOfBatch(store: Store, taskId: nat, batchId: nat) returns (keys: seq<DocKey>)
    requires taskId in store.meta && Fetchable(store.meta, taskId, batchId)
    ensures ListsBatch(keys, store, taskId, batchId)
  {
    hide BatchKeys, KeyList;
    var batch := store.meta[taskId].batches[batchId];
    var front, count := batch[0], Back(batch) + 1 - batch[0];
    keys := KeyList(taskId, front, count);
    forall key | key in BatchKeys(taskId, front, count) ensures key in keys {
      KeyListHas(taskId, front, count, key);
    }
  }

  /** Whenever two documents of the batch change, some fetch returns neither the old batch nor the new. */
  lemma TwoChangesTear(s: System, f: nat, u: nat, stored: Task, batchId: nat, first: DocKey, second: DocKey)
    returns (before: seq<Event>, later: seq<Event>, torn: TaskTests)
    requires Reuploading(s, u, stored) && batchId < |s.store.meta[stored.id].batches| && f < |s.fetchers|
    requires var batches := s.store.meta[stored.id].batches;
             && InBatch(first, stored.id, Cut(batches, batchId), Cut(batches, batchId + 1))
             && InBatch(second, stored.id, Cut(batches, batchId), Cut(batches, batchId + 1))
    requires Changed(first, stored, s.uploaders[u].task) && Changed(second, stored, s.uploaders[u].task)
    requires Turn(first, s.uploaders[u].task) < Turn(second, s.uploaders[u].task)
    ensures FetchDuring(s, f, u, stored.id, batchId, before, later, Success(torn))
    ensures var again, batches := s.uploaders[u].task, s.store.meta[stored.id].batches;
            var lo, hi := Cut(batches, batchId), Cut(batches, batchId + 1);
            && lo <= hi <= TestCount(stored)
            && torn != Slice(stored.tests, lo, hi) && torn != Slice(Overwritten(stored, again).tests, lo, hi)
  {
    hide Describes, Cut, ContentOf, FetchDuring, Alone, UpsertedSome, Fetch, Fetchable, Turn, Overwritten, Slots,
         Changed;
    var again := s.uploaders[u].task;
    ChangedIsDoc(first, stored, again);
    TurnBound(first, again);
    var writes := Turn(first, again) + 1;
    later := FetchBetween(s, f, u, stored, batchId, writes);
    before := Repeated(Write(u), writes);
    FetchBatch(s.store, stored, batchId);
    torn := TornBatch(s.store, Alone(s.store, s.uploaders[u], writes).0, stored, again, batchId, first, second);
  }

  lemma ChangedIsDoc(key: DocKey, stored: Task, again: Task)
    requires Paired(stored.tests) && Paired(again.tests) && again.id == stored.id && Changed(key, stored, again)
    ensures IsDocOf(key, again) && IsDocOf(key, stored)
  {
  }

  lemma TornBatch(store: Store, now: Store, stored: Task, again: Task, batchId: nat, first: DocKey, second: DocKey)
    returns (torn: TaskTests)
    requires Paired(stored.tests) && Paired(again.tests) && again.id == stored.id
    requires TestCount(stored) >= 1 && Published(store, stored) && batchId < |store.meta[stored.id].batches|
    requires now.meta == store.meta && Changed(first, stored, again) && Changed(second, stored, again)
    requires Turn(first, again) < Turn(second, again)
    requires UpsertedSome(store.docs, again, Turn(first, again) + 1, now.docs)
    requires var batches := store.meta[stored.id].batches;
             && InBatch(first, stored.id, Cut(batches, batchId), Cut(batches, batchId + 1))
             && InBatch(second, stored.id, Cut(batches, batchId), Cut(batches, batchId + 1))
    ensures var batches := store.meta[stored.id].batches;
            var lo, hi := Cut(batches, batchId), Cut(batches, batchId + 1);
            && Fetchable(now.meta, stored.id, batchId) && Fetch(now, stored.id, batchId) == Success(torn)
            && lo <= hi <= TestCount(stored)
            && torn != Slice(stored.tests, lo, hi) && torn != Slice(Overwritten(stored, again).tests, lo, hi)
  {
    hide IsGreedySplit, Cut, Turn, Overwritten;
    var metaData := store.meta[stored.id];
    BatchFromEnds(metaData.batches, TaskSizes(stored), Limit(TaskSizes(stored), metaData.batchSize), batchId);
    var lo, hi := Cut(metaData.batches, batchId), Cut(metaData.batches, batchId + 1);
    torn := Fetch(now, stored.id, batchId).value;
    SlotOfSlice(stored, first, lo, hi);
    SlotOfSlice(Overwritten(stored, again), second, lo, hi);
    assert SlotAt(torn, first, lo) == now.docs[first] == ContentOf(first, again);
    assert SlotAt(torn, second, lo) == now.docs[second] == ContentOf(second, stored);
  }

  lemma SlotOfSlice(task: Task, key: DocKey, lo: nat, hi: nat)
    requires Paired(task.tests) && InBatch(key, task.id, lo, hi) && hi <= TestCount(task)
    ensures SlotAt(Slice(task.tests, lo, hi), key, lo) == ContentOf(key, task)
  {
  }

  /**
   When a re-upload is safe: every fetch of a stored batch that starts before the metadata is replaced
   returns the old batch or the wholly overwritten one, if and only if the new upload changes at most
   one document of that batch.
   */
  lemma UntornIff(s: System, f: nat, u: nat, stored: Task, batchId: nat)
    requires Reuploading(s, u, stored) && batchId < |s.store.meta[stored.id].batches| && f < |s.fetchers|
    ensures var again, batches := s.uploaders[u].task, s.store.meta[stored.id].batches;
            var lo, hi := Cut(batches, batchId), Cut(batches, batchId + 1);
            && lo <= hi <= TestCount(stored)
            && (AtMostOneChange(stored, again, lo, hi) <==>
                forall before, later, result :: FetchDuring(s, f, u, stored.id, batchId, before, later, result) ==>
                  || result == Success(Slice(stored.tests, lo, hi))
                  || result == Success(Slice(Overwritten(stored, again).tests, lo, hi)))
  {
    hide Describes, Cut, ContentOf, FetchDuring, Turn, Overwritten, Changed, Mixed, AllDocs;
    var again, batches := s.uploaders[u].task, s.store.meta[stored.id].batches;
    var lo, hi := Cut(batches, batchId), Cut(batches, batchId + 1);
    FetchBatch(s.store, stored, batchId);
    if AtMostOneChange(stored, again, lo, hi) {
      forall before, later, result | FetchDuring(s, f, u, stored.id, batchId, before, later, result)
        ensures result == Success(Slice(stored.tests, lo, hi))
                || result == Success(Slice(Overwritten(stored, again).tests, lo, hi))
      {
        FetchMixes(s, f, u, stored, batchId, before, later, result);
        MixedIsWhole(result.value, stored, again, lo, hi);
      }
    } else {
      var first, second := TwoChanges(stored, again, lo, hi);
      var before, later, torn := TwoChangesTear(s, f, u, stored, batchId, first, second);
    }
  }

  lemma TwoChanges(stored: Task, again: Task, lo: nat, hi: nat) returns (first: DocKey, second: DocKey)
    requires Paired(stored.tests) && Paired(again.tests) && again.id == stored.id
    requires !AtMostOneChange(stored, again, lo, hi)
    ensures InBatch(first, stored.id, lo, hi) && InBatch(second, stored.id, lo, hi)
    ensures Changed(first, stored, again) && Changed(second, stored, again)
    ensures Turn(first, again) < Turn(second, again)
  {
    hide ContentOf;
    first, second :| InBatch(first, stored.id, lo, hi) && InBatch(second, stored.id, lo, hi)
                     && Changed(first, stored, again) && Changed(second, stored, again) && first != second;
    TurnsDiffer(first, second, again);
    if Turn(second, again) < Turn(first, again) {
      first, second := second, first;
    }
  }

  lemma TurnsDiffer(key: DocKey, other: DocKey, task: Task)
    requires IsDocOf(key, task) && IsDocOf(other, task) && key != other
    ensures Turn(key, task) != Turn(other, task)
  {
    TurnBound(key, task);
    NextKeyTurn(task, Turn(key, task), key);
    NextKeyTurn(task, Turn(key, task), other);
  }

  // ----- After the metadata is replaced

  /** What an uploader has written is there, and so is its metadata once it is written. */
  ghost predicate Written(store: Store, u: Uploader)
    requires Paired(u.task.tests)
  {
    && (forall key :: IsDocOf(key, u.task) && Turn(key, u.task) < u.written ==>
          key in store.docs && store.docs[key] == ContentOf(key, u.task))
    && (u.written > 2 * TestCount(u.task) ==> u.task.id in store.meta && store.meta[u.task.id] == u.metaData)
  }

  lemma WrittenIsOk(store: Store, u: Uploader)
    requires Paired(u.task.tests) && u.written > 2 * TestCount(u.task)
    ensures Written(store, u) <==> UploaderOk(store, u)
  {
  }

  lemma OwnWritten(store: Store, u: Uploader)
    requires Paired(u.task.tests) && u.metaData.taskId == u.task.id && Written(store, u)
    ensures Written(Wrote(store, u), Advanced(u))
  {
    hide Turn, NextKey, TestWrites, ContentOf;
    forall key | IsDocOf(key, u.task) ensures 0 <= Turn(key, u.task) < 2 * TestCount(u.task) {
      TurnBound(key, u.task);
    }
    if u.written < 2 * TestCount(u.task) {
      WriteAt(u.task, u.written);
      forall key | IsDocOf(key, u.task) && Turn(key, u.task) < u.written + 1 && key != NextKey(u.task, u.written)
        ensures Turn(key, u.task) < u.written
      {
        NextKeyTurn(u.task, u.written, key);
      }
    }
  }

  lemma OtherWritten(store: Store, u: Uploader, v: Uploader)
    requires Paired(u.task.tests) && u.metaData.taskId == u.task.id
    requires Paired(v.task.tests) && u.task.id != v.task.id && Written(store, v)
    ensures Written(Wrote(store, u), v)
  {
    hide Turn, TestWrites;
    if u.written < 2 * TestCount(u.task) {
      WriteAt(u.task, u.written);
    }
  }

  ghost predicate Uploading(s: System, u: nat, taskId: nat) {
    && AllPaired(s.uploaders) && u < |s.uploaders| && s.uploaders[u].task.id == taskId
    && OnlyUploader(s.uploaders, u, taskId)
    && Written(s.store, s.uploaders[u])
  }

  lemma StepUploads(s: System, e: Event, u: nat, taskId: nat)
    requires Uploading(s, u, taskId)
    ensures Uploading(Step(s, e), u, taskId) && s.uploaders[u].written <= Step(s, e).uploaders[u].written
    ensures Step(s, e).uploaders[u].metaData == s.uploaders[u].metaData
  {
    hide Written, Wrote, Asked, Received, Finished;
    if e.Write? && e.uploader < |s.uploaders| {
      if e.uploader == u {
        OwnWritten(s.store, s.uploaders[u]);
      } else {
        OtherWritten(s.store, s.uploaders[e.uploader], s.uploaders[u]);
      }
    }
  }

  lemma {:induction false} RunUploads(s: System, events: seq<Event>, u: nat, taskId: nat)
    requires Uploading(s, u, taskId)
    ensures Uploading(Run(s, events), u, taskId)
  {
    hide Uploading, Step;
    UploadingPaired(s, u, taskId);
    if events != [] {
      RunUploads(s, events[..|events| - 1], u, taskId);
      StepUploads(Run(s, events[..|events| - 1]), events[|events| - 1], u, taskId);
    }
  }

  lemma UploadingPaired(s: System, u: nat, taskId: nat)
    requires Uploading(s, u, taskId)
    ensures AllPaired(s.uploaders)
  {
  }

  /** A fetch of this batch that is under way or done, never with an error. */
  ghost predicate Fetches(f: Fetcher, u: Uploader, batchId: nat)
    requires Paired(u.task.tests)
  {
    && FetcherOk(f, u) && !f.Idle? && f.taskId == u.task.id && f.batchId == batchId
    && (f.Done? ==> f.result.Success?)
  }

  lemma StepFetches(s: System, e: Event, f: nat, u: nat, batchId: nat, taskId: nat)
    requires Uploading(s, u, taskId) && s.uploaders[u].written > 2 * TestCount(s.uploaders[u].task)
    requires f < |s.fetchers| && Fetches(s.fetchers[f], s.uploaders[u], batchId) && !(e.Ask? && e.fetcher == f)
    ensures Fetches(Step(s, e).fetchers[f], Step(s, e).uploaders[u], batchId)
  {
    hide Wrote, Written, FetcherOk, UploaderOk, OnlyUploader;
    WrittenIsOk(s.store, s.uploaders[u]);
    match e
    case Write(w) => AdvanceKeepsFetcher(s.fetchers[f], s.uploaders[u]);
    case Ask(_, _, _) =>
    case ReadDoc(_, key) => CopyOk(s.store, s.fetchers[f], s.uploaders[u], key);
    case Finish(_) => FinishOk(s.fetchers[f], s.uploaders[u]);
  }

  lemma {:induction false} RunFetches(s: System, events: seq<Event>, f: nat, u: nat, batchId: nat, taskId: nat)
    requires Uploading(s, u, taskId) && s.uploaders[u].written > 2 * TestCount(s.uploaders[u].task)
    requires f < |s.fetchers| && Fetches(s.fetchers[f], s.uploaders[u], batchId) && NeverAsks(events, f)
    ensures var end := Run(s, events);
            && u < |end.uploaders| && end.uploaders[u].task == s.uploaders[u].task
            && end.uploaders[u].metaData == s.uploaders[u].metaData
            && end.uploaders[u].written >= s.uploaders[u].written
            && f < |end.fetchers| && Fetches(end.fetchers[f], end.uploaders[u], batchId)
  {
    hide Fetches, Wrote, Written, OnlyUploader, Received, Asked, Finished;
    if events != [] {
      var before, e := events[..|events| - 1], events[|events| - 1];
      assert e in events && NeverAsks(before, f);
      RunFetches(s, before, f, u, batchId, taskId);
      RunUploads(s, before, u, taskId);
      StepUploads(Run(s, before), e, u, taskId);
      StepFetches(Run(s, before), e, f, u, batchId, taskId);
    }
  }

  /**
   Once the metadata is replaced nothing old is served any more: every fetch of a batch of the new cut
   that is asked for from then on, under every interleaving, ends with that complete batch.
   */
  lemma NewBatchAfter(s: System, f: nat, u: nat, stored: Task, batchId: nat, before: seq<Event>, later: seq<Event>)
    requires Reuploading(s, u, stored) && f < |s.fetchers| && NeverAsks(later, f)
    requires TestCount(s.uploaders[u].task) >= 1 && Describes(s.uploaders[u].metaData, s.uploaders[u].task)
    requires batchId < |s.uploaders[u].metaData.batches|
    requires u < |Run(s, before).uploaders|
    requires Run(s, before).uploaders[u].written > 2 * TestCount(s.uploaders[u].task)
    ensures var end := Run(Step(Run(s, before), Ask(f, stored.id, batchId)), later);
            && f < |end.fetchers| && Names(s.uploaders[u], batchId)
            && !end.fetchers[f].Idle? && end.fetchers[f].taskId == stored.id && end.fetchers[f].batchId == batchId
            && (end.fetchers[f].Done? ==> end.fetchers[f].result == Success(BatchOf(s.uploaders[u], batchId)))
  {
    hide Describes, Cut, Written, Wrote, FetcherOk, Received, Finished, Asked, Step, AllDocs;
    StartUploads(s, u, stored);
    RunUploads(s, before, u, stored.id);
    RunKeepsShape(s, before);
    var asking := Run(s, before);
    AskFetches(asking, f, u, batchId, stored.id);
    var asked := Step(asking, Ask(f, stored.id, batchId));
    RunFetches(asked, later, f, u, batchId, stored.id);
    var end := Run(asked, later);
    EndFetches(end.fetchers[f], end.uploaders[u], batchId);
    NamesBatch(s.uploaders[u], batchId);
  }

  lemma StartUploads(s: System, u: nat, stored: Task)
    requires Reuploading(s, u, stored)
    ensures Uploading(s, u, stored.id)
  {
    forall key: DocKey | IsDocOf(key, s.uploaders[u].task) ensures Turn(key, s.uploaders[u].task) >= 0 {
      TurnBound(key, s.uploaders[u].task);
    }
  }

  lemma NamesBatch(u: Uploader, batchId: nat)
    requires Paired(u.task.tests) && Describes(u.metaData, u.task) && batchId < |u.metaData.batches|
    ensures Names(u, batchId)
  {
    hide Cut;
    BatchIsRange(u.metaData.batches, TestCount(u.task), batchId);
  }

  lemma AskFetches(s: System, f: nat, u: nat, batchId: nat, taskId: nat)
    requires Uploading(s, u, taskId) && s.uploaders[u].written > 2 * TestCount(s.uploaders[u].task)
    requires TestCount(s.uploaders[u].task) >= 1 && Describes(s.uploaders[u].metaData, s.uploaders[u].task)
    requires batchId < |s.uploaders[u].metaData.batches| && f < |s.fetchers|
    ensures var asked := Step(s, Ask(f, taskId, batchId));
            && Uploading(asked, u, taskId) && asked.uploaders == s.uploaders && f < |asked.fetchers|
            && Fetches(asked.fetchers[f], asked.uploaders[u], batchId)
  {
    hide IsGreedySplit, Cut, FetcherOk, Written;
    var up := s.uploaders[u];
    WrittenIsOk(s.store, up);
    AskOkAnew(s.store, s.fetchers[f], up, batchId);
    BatchFromEnds(up.metaData.batches, TaskSizes(up.task), Limit(TaskSizes(up.task), up.metaData.batchSize), batchId);
  }

  /** What a fetcher did before makes no difference to asking for a batch that is there. */
  lemma AskOkAnew(store: Store, f: Fetcher, u: Uploader, batchId: nat)
    requires Paired(u.task.tests) && UploaderOk(store, u) && u.written > 2 * TestCount(u.task)
    requires TestCount(u.task) >= 1 && Describes(u.metaData, u.task) && batchId < |u.metaData.batches|
    ensures FetcherOk(Asked(store, f, u.task.id, batchId), u)
  {
    hide IsGreedySplit, Cut, SlotsOk;
    BatchFromEnds(u.metaData.batches, TaskSizes(u.task), Limit(TaskSizes(u.task), u.metaData.batchSize), batchId);
    AskOk(store, Idle, u, u.task.id, batchId);
    assert Asked(store, f, u.task.id, batchId) == Asked(store, Idle, u.task.id, batchId);
  }

  lemma EndFetches(f: Fetcher, u: Uploader, batchId: nat)
    requires Paired(u.task.tests) && Fetches(f, u, batchId)
    ensures f.Done? ==> Names(u, batchId) && f.result == Success(BatchOf(u, batchId))
  {
  }
}
