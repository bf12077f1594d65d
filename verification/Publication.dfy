/**
 Uploads and fetches at the same time. Every write and read of one document is one atomic step, and
 the steps of all uploaders and fetchers interleave in any order. An uploader that is never scheduled
 again has abandoned its upload.
 */
module Publication {
  import opened Wrappers
  import opened Sequences
  import opened Naming
  import opened Batching
  import opened Storage
  import opened Uploads

  /** An upload and how many of its documents are written: inputs, then outputs, then metadata. */
  datatype Uploader = Uploader(task: Task, metaData: MetaData, written: nat)

  datatype Fetcher =
    | Idle
    | Reading(taskId: nat, batchId: nat, front: nat, left: set<DocKey>, inputs: seq<string>, outputs: seq<string>)
    | Done(taskId: nat, batchId: nat, result: Result<TaskTests, Error>)

  datatype System = System(store: Store, uploaders: seq<Uploader>, fetchers: seq<Fetcher>)

  datatype Event =
    | Write(uploader: nat)
    | Ask(fetcher: nat, taskId: nat, batchId: nat)
    | ReadDoc(fetcher: nat, key: DocKey)
    | Finish(fetcher: nat)

  // ----- Steps

  /** The uploader's next write, in the order the handler makes them. */
  function Wrote(store: Store, u: Uploader): Store
    requires Paired(u.task.tests)
  {
    if u.written <= 2 * TestCount(u.task) then Applied(store, UploadWrites(u.task, u.metaData)[u.written]) else store
  }

  function Advanced(u: Uploader): Uploader {
    if u.written <= 2 * TestCount(u.task) then u.(written := u.written + 1) else u
  }

  function BatchKeys(taskId: nat, front: nat, count: nat): (keys: set<DocKey>)
    ensures forall key: DocKey :: key in keys <==> key.taskId == taskId && front <= key.testId < front + count
  {
    if count == 0 then {}
    else
      var last := front + count - 1;
      assert forall key: DocKey :: key.taskId == taskId && key.testId == last ==>
               key == DocKey(taskId, last, InputTest) || key == DocKey(taskId, last, OutputTest) by {
        forall key: DocKey | key.taskId == taskId && key.testId == last
          ensures key == DocKey(taskId, last, InputTest) || key == DocKey(taskId, last, OutputTest)
        {
          assert key.testType.InputTest? || key.testType.OutputTest?;
        }
      }
      BatchKeys(taskId, front, count - 1) + {DocKey(taskId, last, InputTest), DocKey(taskId, last, OutputTest)}
  }

  /** Reading the metadata; a batch id that the metadata does not have is never asked for. */
  function Asked(store: Store, f: Fetcher, taskId: nat, batchId: nat): Fetcher {
    if taskId !in store.meta then
      Done(taskId, batchId, Failure(Error("404 Not Found TaskMetaData for id: " + ToString(taskId), NOT_FOUND)))
    else
      var batches := store.meta[taskId].batches;
      if batchId >= |batches| || batches[batchId] == [] || Back(batches[batchId]) + 1 < batches[batchId][0] then f
      else
        var front, back := batches[batchId][0], Back(batches[batchId]);
        var empty := seq(back + 1 - front, i requires 0 <= i => "");
        Reading(taskId, batchId, front, BatchKeys(taskId, front, back + 1 - front), empty, empty)
  }

  /** Reading one document of the batch, if it is there, into its slot. */
  function Received(store: Store, f: Fetcher, key: DocKey): Fetcher {
    if !(f.Reading? && key in f.left) then f
    else
      var read := f.(left := f.left - {key});
      if key !in store.docs || !(f.front <= key.testId < f.front + |f.inputs| && |f.outputs| == |f.inputs|) then read
      else if key.testType == InputTest then
        read.(inputs := f.inputs[key.testId - f.front := store.docs[key]])
      else read.(outputs := f.outputs[key.testId - f.front := store.docs[key]])
  }

  function Finished(f: Fetcher): Fetcher {
    if f.Reading? && f.left == {} then Done(f.taskId, f.batchId, Success(TaskTests(f.inputs, f.outputs))) else f
  }

  ghost predicate AllPaired(uploaders: seq<Uploader>) {
    forall u :: 0 <= u < |uploaders| ==> Paired(uploaders[u].task.tests)
  }

  /** One step; an event that does not apply changes nothing. */
  function Step(s: System, e: Event): (s': System)
    requires AllPaired(s.uploaders)
    ensures |s'.uploaders| == |s.uploaders|
    ensures forall u :: 0 <= u < |s.uploaders| ==> s'.uploaders[u].task == s.uploaders[u].task
    ensures AllPaired(s'.uploaders)
  {
    match e
    case Write(u) =>
      if u < |s.uploaders| then
        System(Wrote(s.store, s.uploaders[u]), s.uploaders[u := Advanced(s.uploaders[u])], s.fetchers)
      else s
    case Ask(f, taskId, batchId) =>
      if f < |s.fetchers| then s.(fetchers := s.fetchers[f := Asked(s.store, s.fetchers[f], taskId, batchId)]) else s
    case ReadDoc(f, key) =>
      if f < |s.fetchers| then s.(fetchers := s.fetchers[f := Received(s.store, s.fetchers[f], key)]) else s
    case Finish(f) =>
      if f < |s.fetchers| then s.(fetchers := s.fetchers[f := Finished(s.fetchers[f])]) else s
  }

  function Run(s: System, events: seq<Event>): (s': System)
    requires AllPaired(s.uploaders)
    ensures AllPaired(s'.uploaders)
  {
    if events == [] then s else Step(Run(s, events[..|events| - 1]), events[|events| - 1])
  }

  // ----- Where a run starts

  /** Each task is uploaded once, with at least one test and the uploader's own cut. */
  ghost predicate OneUploadEach(uploaders: seq<Uploader>) {
    && AllPaired(uploaders)
    && (forall u :: 0 <= u < |uploaders| ==>
          TestCount(uploaders[u].task) >= 1 && Describes(uploaders[u].metaData, uploaders[u].task))
    && (forall u, v :: 0 <= u < v < |uploaders| ==> uploaders[u].task.id != uploaders[v].task.id)
  }

  /** Nothing of these tasks is published yet, nothing is being read; other tasks may be stored. */
  ghost predicate Initial(s: System) {
    && OneUploadEach(s.uploaders)
    && (forall u :: 0 <= u < |s.uploaders| ==>
          s.uploaders[u].written == 0 && s.uploaders[u].task.id !in s.store.meta)
    && (forall f :: 0 <= f < |s.fetchers| ==> s.fetchers[f] == Idle)
  }

  // ----- What every step keeps

  /** What is written is right, and metadata is there only after all 2n test documents. */
  ghost predicate UploaderOk(store: Store, u: Uploader)
    requires Paired(u.task.tests)
  {
    && (forall key :: IsDocOf(key, u.task) && Turn(key, u.task) < u.written ==>
          key in store.docs && store.docs[key] == ContentOf(key, u.task))
    && (u.task.id in store.meta <==> u.written > 2 * TestCount(u.task))
    && (u.task.id in store.meta ==> store.meta[u.task.id] == u.metaData)
  }

  /** The batch an uploader's metadata names, as the fetcher must return it. */
  function BatchOf(u: Uploader, batchId: nat): TaskTests
    requires Paired(u.task.tests)
    requires batchId < |u.metaData.batches|
    requires Cut(u.metaData.batches, batchId) <= Cut(u.metaData.batches, batchId + 1) <= TestCount(u.task)
  {
    Slice(u.task.tests, Cut(u.metaData.batches, batchId), Cut(u.metaData.batches, batchId + 1))
  }

  ghost predicate Names(u: Uploader, batchId: nat) {
    && batchId < |u.metaData.batches|
    && Cut(u.metaData.batches, batchId) <= Cut(u.metaData.batches, batchId + 1) <= TestCount(u.task)
  }

  /** A fetch in progress or finished, against the upload of the task it asked for. */
  ghost predicate FetcherOk(f: Fetcher, u: Uploader)
    requires Paired(u.task.tests)
  {
    match f
    case Idle => true
    case Done(taskId, batchId, result) =>
      taskId == u.task.id ==>
        (result.Failure? && result.error.errorCode == NOT_FOUND)
        || (Names(u, batchId) && result == Success(BatchOf(u, batchId)))
    case Reading(taskId, batchId, front, left, inputs, outputs) =>
      taskId == u.task.id ==>
        && u.written > 2 * TestCount(u.task) && Names(u, batchId)
        && front == Cut(u.metaData.batches, batchId) + 1
        && SlotsOk(inputs, left, front, InputTest, taskId, BatchOf(u, batchId).inputTests)
        && SlotsOk(outputs, left, front, OutputTest, taskId, BatchOf(u, batchId).outputTests)
        && (forall key :: key in left ==> key.taskId == taskId && front <= key.testId < front + |inputs|)
  }

  /** Every slot whose document was read holds what was uploaded. */
  ghost predicate SlotsOk(slots: seq<string>, left: set<DocKey>, front: nat, testType: TestType, taskId: nat,
                          expected: seq<string>)
  {
    && |slots| == |expected|
    && (forall i :: 0 <= i < |slots| ==> SlotOk(slots[i], left, DocKey(taskId, front + i, testType), expected[i]))
  }

  ghost predicate SlotOk(slot: string, left: set<DocKey>, key: DocKey, expected: string) {
    key in left || slot == expected
  }

  ghost predicate Invariant(s: System) {
    && OneUploadEach(s.uploaders)
    && (forall u :: 0 <= u < |s.uploaders| ==> UploaderOk(s.store, s.uploaders[u]))
    && (forall f, u :: 0 <= f < |s.fetchers| && 0 <= u < |s.uploaders| ==> FetcherOk(s.fetchers[f], s.uploaders[u]))
  }

  lemma WriteOwn(store: Store, u: Uploader)
    requires Paired(u.task.tests) && UploaderOk(store, u) && u.metaData.taskId == u.task.id
    ensures UploaderOk(Wrote(store, u), Advanced(u))
  {
    hide Turn, NextKey, TestWrites;
    forall key | IsDocOf(key, u.task) ensures 0 <= Turn(key, u.task) < 2 * TestCount(u.task) {
      TurnBound(key, u.task);
    }
    if u.written < 2 * TestCount(u.task) {
      WriteAt(u.task, u.written);
      forall key | IsDocOf(key, u.task) && Turn(key, u.task) < u.written + 1 && key != NextKey(u.task, u.written)
        ensures Turn(key, u.task) < u.written
      {
        NextKeyTurn(u.task, u.written, key);
      }
    }
  }

  lemma TurnBound(key: DocKey, task: Task)
    requires IsDocOf(key, task)
    ensures 0 <= Turn(key, task) < 2 * TestCount(task)
  {
  }

  lemma WriteOther(store: Store, u: Uploader, v: Uploader)
    requires Paired(u.task.tests) && u.metaData.taskId == u.task.id
    requires Paired(v.task.tests) && u.task.id != v.task.id && UploaderOk(store, v)
    ensures UploaderOk(Wrote(store, u), v)
  {
    hide Turn, TestWrites;
    if u.written < 2 * TestCount(u.task) {
      WriteAt(u.task, u.written);
    }
  }

  lemma AdvanceKeepsFetcher(f: Fetcher, u: Uploader)
    requires Paired(u.task.tests) && FetcherOk(f, u)
    ensures FetcherOk(f, Advanced(u))
  {
    hide SlotsOk, Cut;
  }

  lemma AskOk(store: Store, f: Fetcher, u: Uploader, taskId: nat, batchId: nat)
    requires Paired(u.task.tests) && UploaderOk(store, u) && FetcherOk(f, u)
    requires TestCount(u.task) >= 1 && Describes(u.metaData, u.task)
    ensures FetcherOk(Asked(store, f, taskId, batchId), u)
  {
    hide IsGreedySplit, Cut, SlotsOk;
    if taskId == u.task.id && taskId in store.meta && batchId < |u.metaData.batches| {
      var sizes := TaskSizes(u.task);
      BatchFromEnds(u.metaData.batches, sizes, Limit(sizes, u.metaData.batchSize), batchId);
      var batch, asked := u.metaData.batches[batchId], Asked(store, f, taskId, batchId);
      var expected := BatchOf(u, batchId);
      AllLeft(asked.inputs, asked.left, batch[0], InputTest, taskId, expected.inputTests);
      AllLeft(asked.outputs, asked.left, batch[0], OutputTest, taskId, expected.outputTests);
    }
  }

  lemma AllLeft(slots: seq<string>, left: set<DocKey>, front: nat, testType: TestType, taskId: nat,
                 expected: seq<string>)
    requires |slots| == |expected|
    requires forall key: DocKey :: key.taskId == taskId && front <= key.testId < front + |slots| ==> key in left
    ensures SlotsOk(slots, left, front, testType, taskId, expected)
  {
  }

  lemma CopyOk(store: Store, f: Fetcher, u: Uploader, key: DocKey)
    requires Paired(u.task.tests) && UploaderOk(store, u) && FetcherOk(f, u)
    ensures FetcherOk(Received(store, f, key), u)
  {
    hide Cut;
    if f.Reading? && key in f.left && f.taskId == u.task.id {
      assert IsDocOf(key, u.task) && Turn(key, u.task) < u.written;
      var content, at := ContentOf(key, u.task), key.testId - f.front;
      var expected := BatchOf(u, f.batchId);
      if key.testType == InputTest {
        assert content == expected.inputTests[at];
        CopySlot(f.inputs, f.left, f.front, f.taskId, expected.inputTests, key);
        SkipSlot(f.outputs, f.left, f.front, OutputTest, f.taskId, expected.outputTests, key);
      } else {
        assert content == expected.outputTests[at];
        CopySlot(f.outputs, f.left, f.front, f.taskId, expected.outputTests, key);
        SkipSlot(f.inputs, f.left, f.front, InputTest, f.taskId, expected.inputTests, key);
      }
    }
  }

  lemma CopySlot(slots: seq<string>, left: set<DocKey>, front: nat, taskId: nat, expected: seq<string>, key: DocKey)
    requires SlotsOk(slots, left, front, key.testType, taskId, expected)
    requires key.taskId == taskId && front <= key.testId < front + |slots|
    ensures var at := key.testId - front;
            SlotsOk(slots[at := expected[at]], left - {key}, front, key.testType, taskId, expected)
  {
    var at := key.testId - front;
    var after := slots[at := expected[at]];
    forall i | 0 <= i < |after|
      ensures SlotOk(after[i], left - {key}, DocKey(taskId, front + i, key.testType), expected[i])
    {
      assert SlotOk(slots[i], left, DocKey(taskId, front + i, key.testType), expected[i]);
    }
  }

  lemma SkipSlot(slots: seq<string>, left: set<DocKey>, front: nat, testType: TestType, taskId: nat,
                 expected: seq<string>, key: DocKey)
    requires SlotsOk(slots, left, front, testType, taskId, expected) && key.testType != testType
    ensures SlotsOk(slots, left - {key}, front, testType, taskId, expected)
  {
    forall i | 0 <= i < |slots|
      ensures SlotOk(slots[i], left - {key}, DocKey(taskId, front + i, testType), expected[i])
    {
      assert SlotOk(slots[i], left, DocKey(taskId, front + i, testType), expected[i]);
    }
  }

  lemma FinishOk(f: Fetcher, u: Uploader)
    requires Paired(u.task.tests) && FetcherOk(f, u)
    ensures FetcherOk(Finished(f), u)
  {
    hide Cut;
    if f.Reading? && f.left == {} && f.taskId == u.task.id {
      var expected := BatchOf(u, f.batchId);
      forall i | 0 <= i < |f.inputs| ensures f.inputs[i] == expected.inputTests[i] {
        assert SlotOk(f.inputs[i], f.left, DocKey(f.taskId, f.front + i, InputTest), expected.inputTests[i]);
      }
      forall i | 0 <= i < |f.outputs| ensures f.outputs[i] == expected.outputTests[i] {
        assert SlotOk(f.outputs[i], f.left, DocKey(f.taskId, f.front + i, OutputTest), expected.outputTests[i]);
      }
      assert f.inputs == expected.inputTests && f.outputs == expected.outputTests;
    }
  }

  lemma StepKeeps(s: System, e: Event)
    requires Invariant(s)
    ensures Invariant(Step(s, e))
  {
    hide UploaderOk, FetcherOk, Describes, Wrote, Asked, Received, Finished, Advanced;
    match e
    case Write(w) =>
      if w < |s.uploaders| {
        WriteKeeps(s, w);
      }
    case Ask(f, taskId, batchId) =>
      forall u | 0 <= u < |s.uploaders| && f < |s.fetchers| ensures FetcherOk(Step(s, e).fetchers[f], s.uploaders[u]) {
        AskOk(s.store, s.fetchers[f], s.uploaders[u], taskId, batchId);
      }
    case ReadDoc(f, key) =>
      forall u | 0 <= u < |s.uploaders| && f < |s.fetchers| ensures FetcherOk(Step(s, e).fetchers[f], s.uploaders[u]) {
        CopyOk(s.store, s.fetchers[f], s.uploaders[u], key);
      }
    case Finish(f) =>
      forall u | 0 <= u < |s.uploaders| && f < |s.fetchers| ensures FetcherOk(Step(s, e).fetchers[f], s.uploaders[u]) {
        FinishOk(s.fetchers[f], s.uploaders[u]);
      }
  }

  lemma WriteKeeps(s: System, w: nat)
    requires Invariant(s) && w < |s.uploaders|
    ensures Invariant(Step(s, Write(w)))
  {
    hide UploaderOk, FetcherOk, IsGreedySplit, Wrote;
    var s' := Step(s, Write(w));
    forall u | 0 <= u < |s'.uploaders| ensures UploaderOk(s'.store, s'.uploaders[u]) {
      if u == w {
        WriteOwn(s.store, s.uploaders[w]);
      } else {
        WriteOther(s.store, s.uploaders[w], s.uploaders[u]);
      }
    }
    forall f, u | 0 <= f < |s'.fetchers| && 0 <= u < |s'.uploaders|
      ensures FetcherOk(s'.fetchers[f], s'.uploaders[u])
    {
      AdvanceKeepsFetcher(s.fetchers[f], s.uploaders[u]);
    }
  }

  lemma {:induction false} RunKeeps(s: System, events: seq<Event>)
    requires Invariant(s)
    ensures Invariant(Run(s, events))
  {
    hide Invariant, Step;
    if events != [] {
      InvariantPaired(s);
      RunKeeps(s, events[..|events| - 1]);
      StepKeeps(Run(s, events[..|events| - 1]), events[|events| - 1]);
    }
  }

  lemma InvariantPaired(s: System)
    requires Invariant(s)
    ensures AllPaired(s.uploaders)
  {
  }

  /**
   Publication safety: under every interleaving, a fetch of a task that is uploaded once either
   reports not-found or returns the complete batch as uploaded, never a part or a mixture.
   */
  lemma FetchIsAllOrNothing(s: System, events: seq<Event>, f: nat, u: nat)
    requires Initial(s) && f < |s.fetchers| && u < |s.uploaders|
    ensures var end := Run(s, events);
            && |end.fetchers| == |s.fetchers| && |end.uploaders| == |s.uploaders|
            && end.uploaders[u].task == s.uploaders[u].task && end.uploaders[u].metaData == s.uploaders[u].metaData
            && (end.fetchers[f].Done? && end.fetchers[f].taskId == s.uploaders[u].task.id ==>
                  var result, batchId := end.fetchers[f].result, end.fetchers[f].batchId;
                  (result.Failure? && result.error.errorCode == NOT_FOUND)
                  || (Names(s.uploaders[u], batchId) && result == Success(BatchOf(s.uploaders[u], batchId))))
  {
    hide Step, UploaderOk, Describes, Cut;
    StartsOk(s);
    RunKeeps(s, events);
    RunKeepsShape(s, events);
    var end := Run(s, events);
    assert FetcherOk(end.fetchers[f], end.uploaders[u]);
  }

  lemma StartsOk(s: System)
    requires Initial(s)
    ensures Invariant(s)
  {
    hide Describes;
  }

  lemma {:induction false} RunKeepsShape(s: System, events: seq<Event>)
    requires AllPaired(s.uploaders)
    ensures var end := Run(s, events);
            && |end.fetchers| == |s.fetchers| && |end.uploaders| == |s.uploaders|
            && (forall u :: 0 <= u < |s.uploaders| ==>
                  && end.uploaders[u].task == s.uploaders[u].task
                  && end.uploaders[u].metaData == s.uploaders[u].metaData)
  {
    if events != [] {
      RunKeepsShape(s, events[..|events| - 1]);
    }
  }

  /** Once an upload's metadata is written, asking for one of its batches is never answered not-found. */
  lemma FoundOncePublished(s: System, f: nat, u: nat, batchId: nat)
    requires Invariant(s) && f < |s.fetchers| && u < |s.uploaders|
    requires s.uploaders[u].written > 2 * TestCount(s.uploaders[u].task)
    requires batchId < |s.uploaders[u].metaData.batches|
    ensures var asked := Step(s, Ask(f, s.uploaders[u].task.id, batchId)).fetchers[f];
            && asked.Reading? && asked.taskId == s.uploaders[u].task.id && asked.batchId == batchId
            && |asked.inputs| == |s.uploaders[u].metaData.batches[batchId]|
  {
    hide FetcherOk, IsGreedySplit, Cut;
    var up := s.uploaders[u];
    assert UploaderOk(s.store, up);
    BatchFromEnds(up.metaData.batches, TaskSizes(up.task), Limit(TaskSizes(up.task), up.metaData.batchSize), batchId);
  }

  // ----- One fetcher alone is a fetch

  /** Reading documents one after the other, with nobody writing. */
  function ReadAll(store: Store, f: Fetcher, keys: seq<DocKey>): Fetcher {
    if keys == [] then f else Received(store, ReadAll(store, f, keys[..|keys| - 1]), keys[|keys| - 1])
  }

  /** What a fetcher has read so far from an unchanging store. */
  ghost predicate ReadSome(store: Store, f: Fetcher, taskId: nat, batchId: nat, front: nat, count: nat,
                           left: set<DocKey>)
  {
    && f.Reading? && f.taskId == taskId && f.batchId == batchId && f.front == front && f.left == left
    && |f.inputs| == |f.outputs| == count
    && (forall i :: 0 <= i < count ==> ReadOk(f.inputs[i], store, DocKey(taskId, front + i, InputTest), left))
    && (forall i :: 0 <= i < count ==> ReadOk(f.outputs[i], store, DocKey(taskId, front + i, OutputTest), left))
  }

  ghost predicate ReadOk(slot: string, store: Store, key: DocKey, left: set<DocKey>) {
    slot == if key in left then "" else Slot(store.docs, key)
  }

  lemma ReadNext(store: Store, f: Fetcher, taskId: nat, batchId: nat, front: nat, count: nat,
                 left: set<DocKey>, key: DocKey)
    requires ReadSome(store, f, taskId, batchId, front, count, left) && left <= BatchKeys(taskId, front, count)
    ensures ReadSome(store, Received(store, f, key), taskId, batchId, front, count, left - {key})
  {
    var g := Received(store, f, key);
    forall i | 0 <= i < count
      ensures ReadOk(g.inputs[i], store, DocKey(taskId, front + i, InputTest), left - {key})
      ensures ReadOk(g.outputs[i], store, DocKey(taskId, front + i, OutputTest), left - {key})
    {
      assert ReadOk(f.inputs[i], store, DocKey(taskId, front + i, InputTest), left);
      assert ReadOk(f.outputs[i], store, DocKey(taskId, front + i, OutputTest), left);
    }
  }

  lemma {:induction false} ReadAllReads(store: Store, f: Fetcher, taskId: nat, batchId: nat, front: nat, count: nat,
                                        keys: seq<DocKey>)
    requires ReadSome(store, f, taskId, batchId, front, count, BatchKeys(taskId, front, count))
    ensures ReadSome(store, ReadAll(store, f, keys), taskId, batchId, front, count,
                     BatchKeys(taskId, front, count) - Elements(keys))
  {
    hide ReadSome, Received;
    if keys == [] {
      assert BatchKeys(taskId, front, count) - Elements(keys) == BatchKeys(taskId, front, count);
    } else {
      var before, last := keys[..|keys| - 1], keys[|keys| - 1];
      ReadAllReads(store, f, taskId, batchId, front, count, before);
      var left := BatchKeys(taskId, front, count) - Elements(before);
      ReadNext(store, ReadAll(store, f, before), taskId, batchId, front, count, left, last);
      assert keys == before + [last];
      assert left - {last} == BatchKeys(taskId, front, count) - Elements(keys);
    }
  }

  lemma FinishRead(store: Store, f: Fetcher, taskId: nat, batchId: nat, front: nat, count: nat)
    requires ReadSome(store, f, taskId, batchId, front, count, {})
    ensures var inputs := Slots(store.docs, taskId, front, count, InputTest);
            var outputs := Slots(store.docs, taskId, front, count, OutputTest);
            Finished(f) == Done(taskId, batchId, Success(TaskTests(inputs, outputs)))
  {
    forall i | 0 <= i < count
      ensures f.inputs[i] == Slot(store.docs, DocKey(taskId, front + i, InputTest))
      ensures f.outputs[i] == Slot(store.docs, DocKey(taskId, front + i, OutputTest))
    {
      assert ReadOk(f.inputs[i], store, DocKey(taskId, front + i, InputTest), {});
      assert ReadOk(f.outputs[i], store, DocKey(taskId, front + i, OutputTest), {});
    }
    assert f.inputs == Slots(store.docs, taskId, front, count, InputTest);
    assert f.outputs == Slots(store.docs, taskId, front, count, OutputTest);
  }

  /** Every document of the batch that the metadata names is among `keys`. */
  ghost predicate ListsBatch(keys: seq<DocKey>, store: Store, taskId: nat, batchId: nat)
    requires Fetchable(store.meta, taskId, batchId)
  {
    taskId in store.meta ==>
      var batch := store.meta[taskId].batches[batchId];
      forall key :: key in BatchKeys(taskId, batch[0], Back(batch) + 1 - batch[0]) ==> key in keys
  }

  /**
   Undisturbed, asking for a batch, reading its documents in any order and finishing gives what the
   sequential fetch gives.
   */
  lemma FetchAlone(store: Store, f: Fetcher, taskId: nat, batchId: nat, keys: seq<DocKey>)
    requires Fetchable(store.meta, taskId, batchId) && ListsBatch(keys, store, taskId, batchId)
    ensures Finished(ReadAll(store, Asked(store, f, taskId, batchId), keys)) ==
            Done(taskId, batchId, Fetch(store, taskId, batchId))
  {
    hide ReadSome, ReadAll, Received;
    if taskId in store.meta {
      var batch := store.meta[taskId].batches[batchId];
      var front, count := batch[0], Back(batch) + 1 - batch[0];
      AskReads(store, f, taskId, batchId);
      ReadAllReads(store, Asked(store, f, taskId, batchId), taskId, batchId, front, count, keys);
      assert BatchKeys(taskId, front, count) - Elements(keys) == {};
      FinishRead(store, ReadAll(store, Asked(store, f, taskId, batchId), keys), taskId, batchId, front, count);
    } else {
      DoneStays(store, Asked(store, f, taskId, batchId), keys);
    }
  }

  lemma AskReads(store: Store, f: Fetcher, taskId: nat, batchId: nat)
    requires taskId in store.meta && Fetchable(store.meta, taskId, batchId)
    ensures var batch := store.meta[taskId].batches[batchId];
            var count := Back(batch) + 1 - batch[0];
            ReadSome(store, Asked(store, f, taskId, batchId), taskId, batchId, batch[0], count,
                     BatchKeys(taskId, batch[0], count))
  {
  }

  lemma {:induction false} DoneStays(store: Store, f: Fetcher, keys: seq<DocKey>)
    requires f.Done?
    ensures ReadAll(store, f, keys) == f
  {
    if keys != [] {
      DoneStays(store, f, keys[..|keys| - 1]);
    }
  }

  // ----- One uploader alone is a complete upload

  function Alone(store: Store, u: Uploader, writes: nat): (r: (Store, Uploader))
    requires Paired(u.task.tests)
    ensures r.1.task == u.task && r.1.metaData == u.metaData
  {
    if writes == 0 then (store, u)
    else
      var (before, v) := Alone(store, u, writes - 1);
      (Wrote(before, v), Advanced(v))
  }

  lemma {:induction false} AloneWrites(store: Store, u: Uploader, writes: nat)
    requires Paired(u.task.tests) && u.written == 0 && writes <= 2 * TestCount(u.task)
    ensures var (after, v) := Alone(store, u, writes);
            v.written == writes && after.meta == store.meta && UpsertedSome(store.docs, u.task, writes, after.docs)
  {
    if writes > 0 {
      AloneWrites(store, u, writes - 1);
      var (before, v) := Alone(store, u, writes - 1);
      assert Wrote(before, v).meta == store.meta;
      WriteAt(v.task, v.written);
      UpsertNext(store.docs, v.task, v.written, before.docs);
    }
  }

  /** The 2n + 1 steps of an undisturbed uploader do what a complete upload does. */
  lemma AloneIsUpload(store: Store, u: Uploader)
    requires Paired(u.task.tests) && u.written == 0 && Describes(u.metaData, u.task)
    ensures Uploaded(store, u.task, u.metaData.batchSize, Alone(store, u, 2 * TestCount(u.task) + 1).0)
  {
    hide IsGreedySplit;
    AloneWrites(store, u, 2 * TestCount(u.task));
    UpsertedAll(store.docs, u.task, Alone(store, u, 2 * TestCount(u.task)).0.docs);
  }

  // ----- An upload that fails is one that is abandoned

  /**
   The store after an upload whose write `made` failed is the one an uploader leaves that stops after
   `made` steps, so everything said about abandoned uploads holds for failed ones.
   */
  lemma FailedIsAbandoned(before: Store, u: Uploader, made: nat, after: Store)
    requires Paired(u.task.tests) && u.written == 0 && made <= 2 * TestCount(u.task)
    requires UpsertedSome(before.docs, u.task, made, after.docs) && after.meta == before.meta
    ensures after == Alone(before, u, made).0
  {
    hide Turn, ContentOf, IsDocOf;
    AloneWrites(before, u, made);
    assert after.docs == Alone(before, u, made).0.docs;
  }

  /** The task as it was stored is still stored if and only if no document written differs. */
  lemma FailedKeepsDocs(before: Store, stored: Task, again: Task, made: nat, after: Store)
    requires Paired(stored.tests) && Paired(again.tests) && again.id == stored.id && Published(before, stored)
    requires UpsertedSome(before.docs, again, made, after.docs) && after.meta == before.meta
    ensures Published(after, stored) <==>
            forall key :: IsDocOf(key, stored) && IsDocOf(key, again) && Turn(key, again) < made ==>
              ContentOf(key, again) == ContentOf(key, stored)
  {
    hide Turn, ContentOf, Describes;
    if Published(after, stored) {
      forall key | IsDocOf(key, stored) && IsDocOf(key, again) && Turn(key, again) < made
        ensures ContentOf(key, again) == ContentOf(key, stored)
      {
        assert after.docs[key] == ContentOf(key, again);
      }
    }
  }
}
