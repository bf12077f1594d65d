/** The document store: tests one document each, one metadata document per task, and builds. */
module Storage {
  import opened Wrappers
  import opened Naming

  const NOT_FOUND := 404

  datatype Error = Error(msg: string, errorCode: int)

  datatype TestType = InputTest | OutputTest

  datatype DocKey = DocKey(taskId: nat, testId: nat, testType: TestType)

  datatype TaskTests = TaskTests(inputTests: seq<string>, outputTests: seq<string>)

  datatype Task = Task(id: nat, tests: TaskTests)

  datatype MetaData = MetaData(taskId: nat, batches: seq<seq<nat>>, batchSize: nat)

  datatype Build = Build(id: nat, initScript: string, executeScript: string)

  type Docs = map<DocKey, string>

  datatype Store = Store(docs: Docs, meta: map<nat, MetaData>)

  /** Each input has its expected output, as the request parser makes sure. */
  ghost predicate Paired(tests: TaskTests) {
    |tests.inputTests| == |tests.outputTests|
  }

  function TestCount(task: Task): nat {
    |task.tests.inputTests|
  }

  // ----- Writing

  predicate IsDocOf(key: DocKey, task: Task) {
    key.taskId == task.id && 1 <= key.testId <= TestCount(task)
  }

  function ContentOf(key: DocKey, task: Task): string
    requires IsDocOf(key, task) && Paired(task.tests)
  {
    if key.testType == InputTest then task.tests.inputTests[key.testId - 1]
    else task.tests.outputTests[key.testId - 1]
  }

  /** `after` holds the task's tests, and otherwise exactly what `before` held. */
  ghost predicate TestsUpserted(before: Docs, task: Task, after: Docs)
    requires Paired(task.tests)
  {
    && (forall key :: key in after <==> key in before || IsDocOf(key, task))
    && (forall key :: key in after ==>
          after[key] == if IsDocOf(key, task) then ContentOf(key, task) else before[key])
  }

  /** One document write, as the database sees it. */
  datatype WriteEvent = WriteDoc(key: DocKey, content: string) | WriteMeta(metaData: MetaData)

  /** The writes of a task's tests, in order: all inputs, then all expected outputs. */
  function TestWrites(task: Task): (writes: seq<WriteEvent>)
    requires Paired(task.tests)
    ensures |writes| == 2 * TestCount(task)
  {
    var n := TestCount(task);
    seq(2 * n, i requires 0 <= i < 2 * n =>
      if i < n then WriteDoc(DocKey(task.id, i + 1, InputTest), task.tests.inputTests[i])
      else WriteDoc(DocKey(task.id, i - n + 1, OutputTest), task.tests.outputTests[i - n]))
  }

  /** The writes of an upload, in order: metadata comes last. */
  function UploadWrites(task: Task, metaData: MetaData): (writes: seq<WriteEvent>)
    requires Paired(task.tests)
    ensures |writes| == 2 * TestCount(task) + 1
  {
    TestWrites(task) + [WriteMeta(metaData)]
  }

  /** The position of a test's document among the writes of its upload. */
  function Turn(key: DocKey, task: Task): int {
    if key.testType == InputTest then key.testId - 1 else TestCount(task) + key.testId - 1
  }

  /** The test document whose turn it is at write `k`. */
  function NextKey(task: Task, k: nat): DocKey
    requires k < 2 * TestCount(task)
  {
    var n := TestCount(task);
    if k < n then DocKey(task.id, k + 1, InputTest) else DocKey(task.id, k - n + 1, OutputTest)
  }

  lemma NextKeyTurn(task: Task, k: nat, key: DocKey)
    requires k < 2 * TestCount(task)
    ensures IsDocOf(key, task) && Turn(key, task) == k <==> key == NextKey(task, k)
  {
    assert key == DocKey(key.taskId, key.testId, key.testType);
    assert key.testType.InputTest? || key.testType.OutputTest?;
  }

  lemma WriteAt(task: Task, k: nat)
    requires Paired(task.tests) && k < 2 * TestCount(task)
    ensures var n := TestCount(task);
            && IsDocOf(NextKey(task, k), task)
            && TestWrites(task)[k] == WriteDoc(NextKey(task, k), ContentOf(NextKey(task, k), task))
            && (k < n ==> TestWrites(task)[k] == WriteDoc(DocKey(task.id, k + 1, InputTest), task.tests.inputTests[k]))
            && (k >= n ==> TestWrites(task)[k] ==
                           WriteDoc(DocKey(task.id, k - n + 1, OutputTest), task.tests.outputTests[k - n]))
  {
    NextKeyTurn(task, k, NextKey(task, k));
  }

  /** After `k` writes: exactly the documents whose turn came, over what was stored before. */
  ghost predicate UpsertedSome(before: Docs, task: Task, k: nat, after: Docs)
    requires Paired(task.tests)
  {
    && (forall key :: key in after <==> key in before || (IsDocOf(key, task) && Turn(key, task) < k))
    && (forall key :: key in after ==>
          after[key] == if IsDocOf(key, task) && Turn(key, task) < k then ContentOf(key, task) else before[key])
  }

  lemma UpsertedNone(before: Docs, task: Task)
    requires Paired(task.tests)
    ensures UpsertedSome(before, task, 0, before)
  {
  }

  lemma UpsertNext(before: Docs, task: Task, k: nat, now: Docs)
    requires Paired(task.tests) && k < 2 * TestCount(task) && UpsertedSome(before, task, k, now)
    ensures IsDocOf(NextKey(task, k), task)
    ensures UpsertedSome(before, task, k + 1, now[NextKey(task, k) := ContentOf(NextKey(task, k), task)])
  {
    hide Turn, NextKey, IsDocOf, ContentOf;
    NextKeyTurn(task, k, NextKey(task, k));
    forall key: DocKey
      ensures IsDocOf(key, task) && Turn(key, task) < k + 1 <==>
              (IsDocOf(key, task) && Turn(key, task) < k) || key == NextKey(task, k)
    {
      NextKeyTurn(task, k, key);
    }
  }

  lemma UpsertedAll(before: Docs, task: Task, after: Docs)
    requires Paired(task.tests) && UpsertedSome(before, task, 2 * TestCount(task), after)
    ensures TestsUpserted(before, task, after)
  {
    forall key: DocKey | IsDocOf(key, task) ensures Turn(key, task) < 2 * TestCount(task) {
      assert key.testType.InputTest? || key.testType.OutputTest?;
    }
  }

  /** How many of `total` writes are made before the first that fails; a failing write says why. */
  function WritesMade(fault: nat -> Option<string>, total: nat): (k: nat)
    ensures k <= total
    ensures forall j :: 0 <= j < k ==> fault(j).None?
    ensures k < total ==> fault(k).Some?
  {
    if total == 0 then 0
    else
      var before := WritesMade(fault, total - 1);
      if before < total - 1 || fault(before).Some? then before else total
  }

  lemma WritesMadeIs(fault: nat -> Option<string>, total: nat, k: nat)
    requires k <= total && (forall j :: 0 <= j < k ==> fault(j).None?) && (k < total ==> fault(k).Some?)
    ensures k == WritesMade(fault, total)
  {
  }

  /** What one write does. */
  function Applied(store: Store, e: WriteEvent): Store {
    match e
    case WriteDoc(key, content) => store.(docs := store.docs[key := content])
    case WriteMeta(metaData) => store.(meta := store.meta[metaData.taskId := metaData])
  }

  // ----- Reading

  /** The ends of a stored batch can be read off, and are in order. */
  ghost predicate Fetchable(meta: map<nat, MetaData>, taskId: nat, batchId: nat) {
    taskId in meta ==>
      var batches := meta[taskId].batches;
      batchId < |batches| && batches[batchId] != [] && batches[batchId][0] <= Back(batches[batchId]) + 1
  }

  function Back(batch: seq<nat>): nat
    requires batch != []
  {
    batch[|batch| - 1]
  }

  /** What a slot of a resized vector holds after the documents found were copied in. */
  function Slot(docs: Docs, key: DocKey): string {
    if key in docs then docs[key] else ""
  }

  function Slots(docs: Docs, taskId: nat, front: nat, count: nat, testType: TestType): (slots: seq<string>)
    ensures |slots| == count
    ensures forall i :: 0 <= i < count ==> slots[i] == Slot(docs, DocKey(taskId, front + i, testType))
  {
    seq(count, i requires 0 <= i => Slot(docs, DocKey(taskId, front + i, testType)))
  }

  function Fetch(store: Store, taskId: nat, batchId: nat): Result<TaskTests, Error>
    requires Fetchable(store.meta, taskId, batchId)
  {
    if taskId !in store.meta then
      Failure(Error("404 Not Found TaskMetaData for id: " + ToString(taskId), NOT_FOUND))
    else
      var batch := store.meta[taskId].batches[batchId];
      var front, count := batch[0], Back(batch) + 1 - batch[0];
      Success(TaskTests(Slots(store.docs, taskId, front, count, InputTest),
                        Slots(store.docs, taskId, front, count, OutputTest)))
  }

  datatype Doc = Doc(key: DocKey, content: string)

  /** A cursor: every document of the filter once, in any order. */
  ghost predicate IsCursor(found: seq<Doc>, docs: Docs, taskId: nat, lo: nat, hi: nat) {
    && (forall i, j :: 0 <= i < j < |found| ==> found[i].key != found[j].key)
    && (forall i :: 0 <= i < |found| ==>
          && found[i].key.taskId == taskId && lo <= found[i].key.testId <= hi
          && found[i].key in docs && docs[found[i].key] == found[i].content)
    && (forall key :: key in docs && key.taskId == taskId && lo <= key.testId <= hi ==>
          exists i :: 0 <= i < |found| && found[i].key == key)
  }

  /** A cursor on the way: the documents of the filter that are not in `left` were found. */
  ghost predicate FoundSome(found: seq<Doc>, docs: Docs, taskId: nat, lo: nat, hi: nat, left: set<DocKey>) {
    && (forall key :: key in left ==> key in docs && key.taskId == taskId && lo <= key.testId <= hi)
    && (forall i, j :: 0 <= i < j < |found| ==> found[i].key != found[j].key)
    && (forall i :: 0 <= i < |found| ==>
          && found[i].key.taskId == taskId && lo <= found[i].key.testId <= hi && found[i].key !in left
          && found[i].key in docs && docs[found[i].key] == found[i].content)
    && (forall key :: key in docs && key.taskId == taskId && lo <= key.testId <= hi && key !in left ==>
          HasKey(found, key))
  }

  ghost predicate HasKey(found: seq<Doc>, key: DocKey) {
    exists i :: 0 <= i < |found| && found[i].key == key
  }

  lemma FoundNone(docs: Docs, taskId: nat, lo: nat, hi: nat)
    ensures FoundSome([], docs, taskId, lo, hi,
                      set key | key in docs.Keys && key.taskId == taskId && lo <= key.testId <= hi)
  {
  }

  lemma FoundNext(found: seq<Doc>, docs: Docs, taskId: nat, lo: nat, hi: nat, left: set<DocKey>, key: DocKey)
    requires FoundSome(found, docs, taskId, lo, hi, left) && key in left
    ensures key in docs && FoundSome(found + [Doc(key, docs[key])], docs, taskId, lo, hi, left - {key})
  {
    hide HasKey;
    var more := found + [Doc(key, docs[key])];
    forall k | k in docs && k.taskId == taskId && lo <= k.testId <= hi && k !in left - {key} ensures HasKey(more, k) {
      HasMore(found, Doc(key, docs[key]), k);
    }
  }

  lemma HasMore(found: seq<Doc>, doc: Doc, key: DocKey)
    ensures HasKey(found + [doc], key) <==> HasKey(found, key) || key == doc.key
  {
    var more := found + [doc];
    assert more[|found|] == doc;
    if i :| 0 <= i < |found| && found[i].key == key {
      assert more[i].key == key;
    }
  }

  lemma FoundAll(found: seq<Doc>, docs: Docs, taskId: nat, lo: nat, hi: nat)
    requires FoundSome(found, docs, taskId, lo, hi, {})
    ensures IsCursor(found, docs, taskId, lo, hi)
  {
    forall key | key in docs && key.taskId == taskId && lo <= key.testId <= hi
      ensures exists i :: 0 <= i < |found| && found[i].key == key
    {
      assert HasKey(found, key);
    }
  }

  class StorageClient {
    var taskTests: Docs
    var taskMeta: map<nat, MetaData>
    var builds: map<nat, Build>
    ghost var log: seq<WriteEvent>  // the task writes so far, in the order they were made

    ghost function State(): Store
      reads this
    {
      Store(taskTests, taskMeta)
    }

    constructor ()
      ensures State() == Store(map[], map[]) && builds == map[]
    {
      taskTests, taskMeta, builds, log := map[], map[], map[], [];
    }

    /** All test documents, one write each, up to the first write that fails; its error is the answer. */
    method UpsertTaskTests(task: Task, fault: nat -> Option<string>) returns (error: Option<string>)
      requires Paired(task.tests)
      modifies this`taskTests, this`log
      ensures var total, made := 2 * TestCount(task), WritesMade(fault, 2 * TestCount(task));
              && error == (if made < total then fault(made) else None)
              && UpsertedSome(old(taskTests), task, made, taskTests)
              && (made == total ==> TestsUpserted(old(taskTests), task, taskTests))
              && log == old(log) + TestWrites(task)[..made]
    {
      hide UpsertedSome, TestsUpserted, TestWrites, NextKey, ContentOf, WritesMade;
      var testCount := |task.tests.inputTests|;
      ghost var docs, writes := taskTests, TestWrites(task);
      UpsertedNone(docs, task);
      for testIndex := 0 to testCount
        invariant forall j :: 0 <= j < testIndex ==> fault(j).None?
        invariant UpsertedSome(docs, task, testIndex, taskTests)
        invariant log == old(log) + writes[..testIndex]
      {
        if fault(testIndex).Some? {
          WritesMadeIs(fault, 2 * testCount, testIndex);
          return fault(testIndex);
        }
        UpsertNext(docs, task, testIndex, taskTests);
        WriteAt(task, testIndex);
        taskTests := taskTests[DocKey(task.id, testIndex + 1, InputTest) := task.tests.inputTests[testIndex]];
        log := log + [writes[testIndex]];
      }
      for testIndex := 0 to testCount
        invariant forall j :: 0 <= j < testCount + testIndex ==> fault(j).None?
        invariant UpsertedSome(docs, task, testCount + testIndex, taskTests)
        invariant log == old(log) + writes[..testCount + testIndex]
      {
        if fault(testCount + testIndex).Some? {
          WritesMadeIs(fault, 2 * testCount, testCount + testIndex);
          return fault(testCount + testIndex);
        }
        UpsertNext(docs, task, testCount + testIndex, taskTests);
        WriteAt(task, testCount + testIndex);
        taskTests := taskTests[DocKey(task.id, testIndex + 1, OutputTest) := task.tests.outputTests[testIndex]];
        log := log + [writes[testCount + testIndex]];
      }
      WritesMadeIs(fault, 2 * testCount, 2 * testCount);
      UpsertedAll(docs, task, taskTests);
      return None;
    }

    method UpsertTaskMetaData(metaData: MetaData, fault: Option<string>) returns (error: Option<string>)
      modifies this`taskMeta, this`log
      ensures error == fault
      ensures fault.None? ==> taskMeta == old(taskMeta)[metaData.taskId := metaData]
      ensures fault.None? ==> log == old(log) + [WriteMeta(metaData)]
      ensures fault.Some? ==> taskMeta == old(taskMeta) && log == old(log)
    {
      if fault.Some? {
        return fault;
      }
      log := log + [WriteMeta(metaData)];
      taskMeta := taskMeta[metaData.taskId := metaData];
      return None;
    }

    method GetTaskMetaData(taskId: nat) returns (r: Result<MetaData, Error>)
      ensures r == if taskId in taskMeta then Success(taskMeta[taskId])
                   else Failure(Error("404 Not Found TaskMetaData for id: " + ToString(taskId), 404))
    {
      if taskId !in taskMeta {
        return Failure(Error("404 Not Found TaskMetaData for id: " + ToString(taskId), NOT_FOUND));
      }
      return Success(taskMeta[taskId]);
    }

    /** `find` on the tests of a task between two ids; the order is the database's choice. */
    method Find(taskId: nat, lo: nat, hi: nat) returns (found: seq<Doc>)
      ensures IsCursor(found, taskTests, taskId, lo, hi)
    {
      hide FoundSome, IsCursor;
      found := [];
      var left := set key | key in taskTests.Keys && key.taskId == taskId && lo <= key.testId <= hi;
      FoundNone(taskTests, taskId, lo, hi);
      while left != {}
        invariant FoundSome(found, taskTests, taskId, lo, hi, left)
        decreases left
      {
        var key :| key in left;
        FoundNext(found, taskTests, taskId, lo, hi, left, key);
        found := found + [Doc(key, taskTests[key])];
        left := left - {key};
      }
      FoundAll(found, taskTests, taskId, lo, hi);
    }

    method GetTaskBatch(taskId: nat, batchId: nat) returns (r: Result<TaskTests, Error>)
      requires Fetchable(taskMeta, taskId, batchId)
      ensures r == Fetch(State(), taskId, batchId)
      ensures r.Success? <==> taskId in taskMeta
      ensures r.Failure? ==> r.error == Error("404 Not Found TaskMetaData for id: " + ToString(taskId), 404)
      ensures r.Success? ==>
                var batch := taskMeta[taskId].batches[batchId];
                && |r.value.inputTests| == |r.value.outputTests| == batch[|batch| - 1] + 1 - batch[0]
                && forall i :: 0 <= i < |r.value.inputTests| ==>
                     var input := DocKey(taskId, batch[0] + i, InputTest);
                     var output := DocKey(taskId, batch[0] + i, OutputTest);
                     && r.value.inputTests[i] == (if input in taskTests then taskTests[input] else "")
                     && r.value.outputTests[i] == (if output in taskTests then taskTests[output] else "")
    {
      hide Copied, Holds, Slots;
      var getResp := GetTaskMetaData(taskId);
      if getResp.Failure? {
        return Failure(getResp.error);
      }
      var batch := getResp.value.batches[batchId];
      var frontTestId, backTestId := batch[0], batch[|batch| - 1];
      var batchTestCount := backTestId + 1 - frontTestId;
      var inputTests := new string[batchTestCount](_ => "");
      var outputTests := new string[batchTestCount](_ => "");
      CopiedNone(inputTests[..], taskId, frontTestId, InputTest);
      CopiedNone(outputTests[..], taskId, frontTestId, OutputTest);
      var found := Find(taskId, frontTestId, backTestId);
      assert found[..0] == [];
      for c := 0 to |found|
        invariant Copied(inputTests[..], found[..c], taskId, frontTestId, InputTest)
        invariant Copied(outputTests[..], found[..c], taskId, frontTestId, OutputTest)
      {
        var doc := found[c];
        ghost var at := doc.key.testId - frontTestId;
        ghost var inputs, outputs := inputTests[..], outputTests[..];
        if doc.key.testType == InputTest {
          inputTests[doc.key.testId - frontTestId] := doc.content;
          CopyStep(inputs, found, c, taskId, frontTestId, InputTest);
          assert inputTests[..] == inputs[at := doc.content];
        } else {
          CopySkip(inputs, found, c, taskId, frontTestId, InputTest);
        }
        if doc.key.testType == OutputTest {
          outputTests[doc.key.testId - frontTestId] := doc.content;
          CopyStep(outputs, found, c, taskId, frontTestId, OutputTest);
          assert outputTests[..] == outputs[at := doc.content];
        } else {
          CopySkip(outputs, found, c, taskId, frontTestId, OutputTest);
        }
      }
      assert found[..|found|] == found;
      CopiedAll(inputTests[..], found, taskTests, taskId, frontTestId, backTestId, InputTest);
      CopiedAll(outputTests[..], found, taskTests, taskId, frontTestId, backTestId, OutputTest);
      return Success(TaskTests(inputTests[..], outputTests[..]));
    }

    method UpsertBuild(build: Build)
      modifies this`builds
      ensures builds == old(builds)[build.id := build]
    {
      builds := builds[build.id := build];
    }

    method GetBuild(buildId: nat) returns (r: Result<Build, Error>)
      ensures r == if buildId in builds then Success(builds[buildId])
                   else Failure(Error("404 Not Found Build for id: " + ToString(buildId), 404))
    {
      if buildId !in builds {
        return Failure(Error("404 Not Found Build for id: " + ToString(buildId), NOT_FOUND));
      }
      return Success(builds[buildId]);
    }
  }

  /** The slots after the documents `seen` were copied: each holds its document, or is still empty. */
  ghost predicate Copied(slots: seq<string>, seen: seq<Doc>, taskId: nat, front: nat, testType: TestType) {
    forall i :: 0 <= i < |slots| ==>
      Holds(slots[i], seen, DocKey(taskId, front + i, testType))
  }

  ghost predicate Holds(slot: string, seen: seq<Doc>, key: DocKey) {
    && (forall d :: d in seen && d.key == key ==> slot == d.content)
    && ((forall d :: d in seen ==> d.key != key) ==> slot == "")
  }

  lemma CopiedNone(slots: seq<string>, taskId: nat, front: nat, testType: TestType)
    requires forall i :: 0 <= i < |slots| ==> slots[i] == ""
    ensures Copied(slots, [], taskId, front, testType)
  {
  }

  lemma CopyStep(slots: seq<string>, found: seq<Doc>, c: nat, taskId: nat, front: nat, testType: TestType)
    requires c < |found| && Copied(slots, found[..c], taskId, front, testType)
    requires forall i, j :: 0 <= i < j < |found| ==> found[i].key != found[j].key
    requires found[c].key.taskId == taskId && found[c].key.testType == testType
    requires front <= found[c].key.testId < front + |slots|
    ensures Copied(slots[found[c].key.testId - front := found[c].content], found[..c + 1], taskId, front, testType)
  {
    var doc, at := found[c], found[c].key.testId - front;
    var after := slots[at := doc.content];
    forall i | 0 <= i < |after| ensures Holds(after[i], found[..c + 1], DocKey(taskId, front + i, testType)) {
      var key := DocKey(taskId, front + i, testType);
      assert Holds(slots[i], found[..c], key);
      assert found[..c + 1] == found[..c] + [doc];
      if i == at {
        assert doc in found[..c + 1];
        forall d | d in found[..c + 1] && d.key == key ensures d == doc {
          var j :| 0 <= j <= c && found[j] == d;
        }
      } else {
        assert doc.key != key;
      }
    }
  }

  lemma CopySkip(slots: seq<string>, found: seq<Doc>, c: nat, taskId: nat, front: nat, testType: TestType)
    requires c < |found| && Copied(slots, found[..c], taskId, front, testType)
    requires found[c].key.testType != testType
    ensures Copied(slots, found[..c + 1], taskId, front, testType)
  {
    forall i | 0 <= i < |slots| ensures Holds(slots[i], found[..c + 1], DocKey(taskId, front + i, testType)) {
      assert Holds(slots[i], found[..c], DocKey(taskId, front + i, testType));
      assert found[..c + 1] == found[..c] + [found[c]];
    }
  }

  /** Whatever order the cursor used, the slots end up holding what is stored. */
  lemma CopiedAll(slots: seq<string>, found: seq<Doc>, docs: Docs, taskId: nat, front: nat, back: nat,
                  testType: TestType)
    requires front <= back + 1 && |slots| == back + 1 - front
    requires IsCursor(found, docs, taskId, front, back) && Copied(slots, found, taskId, front, testType)
    ensures slots == Slots(docs, taskId, front, |slots|, testType)
  {
    forall i | 0 <= i < |slots| ensures slots[i] == Slot(docs, DocKey(taskId, front + i, testType)) {
      var key := DocKey(taskId, front + i, testType);
      assert Holds(slots[i], found, key);
      if key in docs {
        var at :| 0 <= at < |found| && found[at].key == key;
        assert found[at] in found;
      } else {
        forall d | d in found ensures d.key != key {
          var at :| 0 <= at < |found| && found[at] == d;
        }
      }
    }
  }
}
