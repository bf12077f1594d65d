/** An upload on its way in: the client's named parts, the handler's parsing of them, and the writes. */
module UploadHandler {
  import opened Wrappers
  import opened Sequences
  import opened Naming
  import opened Batching
  import opened Storage
  import opened Uploads

  datatype Test = Test(inputData: string, outputData: string)

  datatype Part = Part(name: string, body: string)

  datatype Response = Response(code: int, body: string)

  // ----- The client

  /** The named texts of the first `n` tests, and nothing else. */
  ghost predicate FormUpTo(files: map<string, string>, tests: seq<Test>, n: nat)
    requires n <= |tests|
  {
    && |files| == 2 * n
    && (forall name :: name in files ==> IsTestName(name, n))
    && HasTests(files, tests, n)
  }

  ghost predicate IsTestName(name: string, n: nat) {
    exists i :: 1 <= i <= n && (name == InputName(i) || name == OutputName(i))
  }

  ghost predicate HasTests(files: map<string, string>, tests: seq<Test>, n: nat)
    requires n <= |tests|
  {
    forall i :: 1 <= i <= n ==>
      && InputName(i) in files && files[InputName(i)] == tests[i - 1].inputData
      && OutputName(i) in files && files[OutputName(i)] == tests[i - 1].outputData
  }

  /** The form the client fills for a task: the two named texts of each test, and the task data. */
  ghost predicate IsForm(files: map<string, string>, tests: seq<Test>, taskData: string) {
    && |files| == 2 * |tests| + 1
    && TASK_DATA in files && files[TASK_DATA] == taskData
    && HasTests(files, tests, |tests|)
  }

  /** `upload_tests`; `dumps` writes the task data. The dictionary becomes the request's parts. */
  method UploadTests(taskId: nat, tests: seq<Test>, dumps: nat -> string) returns (files: map<string, string>)
    ensures IsForm(files, tests, dumps(taskId))
  {
    hide InputName, OutputName, FormUpTo, IsForm;
    files := map[];
    FormNone(tests);
    for i := 0 to |tests|
      invariant FormUpTo(files, tests, i)
    {
      FormStep(files, tests, i);
      files := files[InputName(i + 1) := tests[i].inputData];
      files := files[OutputName(i + 1) := tests[i].outputData];
    }
    FormDone(files, tests, dumps(taskId));
    files := files[TASK_DATA := dumps(taskId)];
  }

  lemma FormNone(tests: seq<Test>)
    ensures FormUpTo(map[], tests, 0)
  {
  }

  lemma FormStep(files: map<string, string>, tests: seq<Test>, n: nat)
    requires n < |tests| && FormUpTo(files, tests, n)
    ensures FormUpTo(files[InputName(n + 1) := tests[n].inputData][OutputName(n + 1) := tests[n].outputData],
                     tests, n + 1)
  {
    hide InputName, OutputName, HasTests, IsTestName;
    NextNamesNew(n);
    assert InputName(n + 1) !in files && OutputName(n + 1) !in files;
    HasTestsStep(files, tests, n);
    var after := files[InputName(n + 1) := tests[n].inputData][OutputName(n + 1) := tests[n].outputData];
    forall name | name in after ensures IsTestName(name, n + 1) {
      StillTestName(name, n);
    }
  }

  lemma HasTestsStep(files: map<string, string>, tests: seq<Test>, n: nat)
    requires n < |tests| && HasTests(files, tests, n)
    ensures HasTests(files[InputName(n + 1) := tests[n].inputData][OutputName(n + 1) := tests[n].outputData],
                     tests, n + 1)
  {
    hide InputName, OutputName;
    forall i: nat | i <= n + 1
      ensures InputName(i) == InputName(n + 1) || OutputName(i) == OutputName(n + 1) ==> i == n + 1
      ensures InputName(i) != OutputName(n + 1) && OutputName(i) != InputName(n + 1)
    {
      NamesDistinct(i, n + 1);
      NamesDistinct(n + 1, i);
    }
  }

  lemma StillTestName(name: string, n: nat)
    requires IsTestName(name, n) || name == InputName(n + 1) || name == OutputName(n + 1)
    ensures IsTestName(name, n + 1)
  {
    hide InputName, OutputName;
    if IsTestName(name, n) {
      var i :| 1 <= i <= n && (name == InputName(i) || name == OutputName(i));
    }
  }

  lemma NextNamesNew(n: nat)
    ensures forall name :: IsTestName(name, n) ==> name != InputName(n + 1) && name != OutputName(n + 1)
    ensures InputName(n + 1) != OutputName(n + 1)
  {
    hide InputName, OutputName;
    NamesDistinct(n + 1, n + 1);
    forall name | IsTestName(name, n) ensures name != InputName(n + 1) && name != OutputName(n + 1) {
      var i :| 1 <= i <= n && (name == InputName(i) || name == OutputName(i));
      NamesDistinct(i, n + 1);
      NamesDistinct(n + 1, i);
    }
  }

  lemma FormDone(files: map<string, string>, tests: seq<Test>, taskData: string)
    requires FormUpTo(files, tests, |tests|)
    ensures IsForm(files[TASK_DATA := taskData], tests, taskData)
  {
    hide InputName, OutputName;
    forall i: nat ensures InputName(i) != TASK_DATA && OutputName(i) != TASK_DATA {
      NamesDistinct(i, i);
    }
  }

  // ----- The request

  /** The parts carry the form's texts, each once, in any order. */
  ghost predicate Carries(parts: seq<Part>, files: map<string, string>) {
    && (forall i, j :: 0 <= i < j < |parts| ==> parts[i].name != parts[j].name)
    && (forall i :: 0 <= i < |parts| ==> parts[i].name in files && files[parts[i].name] == parts[i].body)
    && (forall name :: name in files ==> exists i :: 0 <= i < |parts| && parts[i].name == name)
  }

  /** Looking a part up by name finds some part of that name, if there is one. */
  ghost predicate IsPartMap(partMap: map<string, string>, parts: seq<Part>) {
    && (forall i :: 0 <= i < |parts| ==> parts[i].name in partMap)
    && (forall name :: name in partMap ==>
          exists i :: 0 <= i < |parts| && parts[i] == Part(name, partMap[name]))
  }

  // ----- The handler's parsing

  /** The first test part that is missing, looking for 1_input, 1_output, 2_input and so on. */
  function FirstMissing(partMap: map<string, string>, i: nat, testCount: nat): Option<string>
    decreases testCount + 1 - i
  {
    if i > testCount then None
    else if InputName(i) !in partMap then Some(InputName(i))
    else if OutputName(i) !in partMap then Some(OutputName(i))
    else FirstMissing(partMap, i + 1, testCount)
  }

  function Text(partMap: map<string, string>, name: string): string {
    if name in partMap then partMap[name] else ""
  }

  function Inputs(partMap: map<string, string>, testCount: nat): (s: seq<string>)
    ensures |s| == testCount && forall i :: 0 <= i < testCount ==> s[i] == Text(partMap, InputName(i + 1))
  {
    seq(testCount, i requires 0 <= i => Text(partMap, InputName(i + 1)))
  }

  function Outputs(partMap: map<string, string>, testCount: nat): (s: seq<string>)
    ensures |s| == testCount && forall i :: 0 <= i < testCount ==> s[i] == Text(partMap, OutputName(i + 1))
  {
    seq(testCount, i requires 0 <= i => Text(partMap, OutputName(i + 1)))
  }

  /** The task a request describes, or what the response complains about. */
  function Parsed(partMap: map<string, string>, testCount: nat, decode: string -> Result<nat, string>)
    : Result<Task, string>
  {
    if TASK_DATA !in partMap then Failure("no taskData.json specified")
    else
      match decode(partMap[TASK_DATA])
      case Failure(e) => Failure(e)
      case Success(id) =>
        match FirstMissing(partMap, 1, testCount)
        case Some(name) => Failure("no " + name)
        case None => Success(Task(id, TaskTests(Inputs(partMap, testCount), Outputs(partMap, testCount))))
  }

  /** The task is the one the parts describe, part by part. */
  ghost predicate Described(task: Task, partMap: map<string, string>, testCount: nat,
                            decode: string -> Result<nat, string>)
  {
    && "taskData.json" in partMap && decode(partMap["taskData.json"]) == Success(task.id)
    && |task.tests.inputTests| == |task.tests.outputTests| == testCount
    && forall i :: 1 <= i <= testCount ==>
         && HasParts(partMap, i)
         && task.tests.inputTests[i - 1] == partMap[ToString(i) + "_input"]
         && task.tests.outputTests[i - 1] == partMap[ToString(i) + "_output"]
  }

  /** Both parts of test `i` are there, under their numbered names. */
  ghost predicate HasParts(partMap: map<string, string>, i: nat) {
    ToString(i) + "_input" in partMap && ToString(i) + "_output" in partMap
  }

  /** What a rejected request is answered: the first thing that is wrong with it. */
  ghost predicate Complaint(body: string, partMap: map<string, string>, testCount: nat,
                            decode: string -> Result<nat, string>)
  {
    if "taskData.json" !in partMap then body == "no taskData.json specified"
    else
      match decode(partMap["taskData.json"])
      case Failure(e) => body == e
      case Success(_) => exists i :: 1 <= i <= testCount && NamesMissing(body, partMap, 1, i)
  }

  /** All parts of the tests from `first` up to `i` are there; then the input is not, or only the output is not. */
  ghost predicate NamesMissing(body: string, partMap: map<string, string>, first: nat, i: nat) {
    && (forall j :: first <= j < i ==> HasParts(partMap, j))
    && if ToString(i) + "_input" !in partMap then body == "no " + ToString(i) + "_input"
       else ToString(i) + "_output" !in partMap && body == "no " + ToString(i) + "_output"
  }

  lemma {:induction false} FirstMissingNamed(partMap: map<string, string>, i: nat, testCount: nat)
    ensures var missing := FirstMissing(partMap, i, testCount);
            if missing.Some? then exists j :: i <= j <= testCount && NamesMissing("no " + missing.value, partMap, i, j)
            else forall j :: i <= j <= testCount ==> HasParts(partMap, j)
    decreases testCount + 1 - i
  {
    if i <= testCount {
      var missing := FirstMissing(partMap, i, testCount);
      if InputName(i) !in partMap || OutputName(i) !in partMap {
        assert "no " + (ToString(i) + "_input") == "no " + ToString(i) + "_input";
        assert "no " + (ToString(i) + "_output") == "no " + ToString(i) + "_output";
        assert NamesMissing("no " + missing.value, partMap, i, i);
      } else {
        FirstMissingNamed(partMap, i + 1, testCount);
        if missing.Some? {
          var j :| i + 1 <= j <= testCount && NamesMissing("no " + missing.value, partMap, i + 1, j);
          assert NamesMissing("no " + missing.value, partMap, i, j);
        }
      }
    }
  }

  /** Parsing describes the task part by part, or names what is wrong first. */
  lemma ParsedMeaning(partMap: map<string, string>, testCount: nat, decode: string -> Result<nat, string>)
    ensures match Parsed(partMap, testCount, decode)
            case Success(task) => Described(task, partMap, testCount, decode)
            case Failure(e) => Complaint(e, partMap, testCount, decode)
  {
    hide FirstMissing, NamesMissing, ToString;
    FirstMissingNamed(partMap, 1, testCount);
  }

  lemma ParsedPaired(partMap: map<string, string>, testCount: nat, decode: string -> Result<nat, string>)
    ensures var parsed := Parsed(partMap, testCount, decode);
            parsed.Success? ==> Paired(parsed.value.tests) && TestCount(parsed.value) == testCount
  {
  }

  /** A part's text, until it is moved out of the request. */
  datatype Body = Here(text: string) | MovedOut

  /** Which texts the parser has moved out when it reaches test `i`. */
  ghost predicate MovedBefore(bodies: map<string, Body>, partMap: map<string, string>, i: nat) {
    && bodies.Keys == partMap.Keys
    && (forall name :: name in bodies ==>
          bodies[name] == Here(partMap[name])
          || (bodies[name] == MovedOut && exists j :: 1 <= j < i && (name == InputName(j) || name == OutputName(j))))
  }

  lemma StillHere(bodies: map<string, Body>, partMap: map<string, string>, i: nat)
    requires MovedBefore(bodies, partMap, i)
    ensures InputName(i) in partMap ==> bodies[InputName(i)] == Here(partMap[InputName(i)])
    ensures OutputName(i) in partMap ==> bodies[OutputName(i)] == Here(partMap[OutputName(i)])
    ensures InputName(i) != OutputName(i)
  {
    hide InputName, OutputName;
    NamesDistinct(i, i);
    forall j: nat | 1 <= j < i
      ensures InputName(j) != InputName(i) && OutputName(j) != InputName(i)
      ensures InputName(j) != OutputName(i) && OutputName(j) != OutputName(i)
    {
      NamesDistinct(i, j);
      NamesDistinct(j, i);
    }
  }

  lemma MoveBoth(bodies: map<string, Body>, partMap: map<string, string>, i: nat)
    requires MovedBefore(bodies, partMap, i) && i >= 1
    requires InputName(i) in partMap && OutputName(i) in partMap
    ensures MovedBefore(bodies[InputName(i) := MovedOut][OutputName(i) := MovedOut], partMap, i + 1)
  {
    hide InputName, OutputName;
    var after := bodies[InputName(i) := MovedOut][OutputName(i) := MovedOut];
    forall name | name in after && after[name] != Here(partMap[name])
      ensures after[name] == MovedOut && exists j :: 1 <= j < i + 1 && (name == InputName(j) || name == OutputName(j))
    {
      if name != InputName(i) && name != OutputName(i) {
        assert bodies[name] == MovedOut;
        var j :| 1 <= j < i && (name == InputName(j) || name == OutputName(j));
      }
    }
  }

  /** What the parser finds at test `i`. */
  lemma AtTest(bodies: map<string, Body>, partMap: map<string, string>, i: nat, testCount: nat)
    requires MovedBefore(bodies, partMap, i) && 1 <= i <= testCount
    ensures bodies.Keys == partMap.Keys
    ensures FirstMissing(partMap, i, testCount) ==
            if InputName(i) !in partMap then Some(InputName(i))
            else if OutputName(i) !in partMap then Some(OutputName(i))
            else FirstMissing(partMap, i + 1, testCount)
    ensures InputName(i) in partMap ==> Inputs(partMap, i) == Inputs(partMap, i - 1) + [partMap[InputName(i)]]
    ensures OutputName(i) in partMap ==> Outputs(partMap, i) == Outputs(partMap, i - 1) + [partMap[OutputName(i)]]
  {
    hide InputName, OutputName;
  }

  lemma NothingMoved(partMap: map<string, string>)
    ensures MovedBefore(map name | name in partMap :: Here(partMap[name]), partMap, 1)
    ensures Inputs(partMap, 0) == [] && Outputs(partMap, 0) == []
  {
  }

  lemma AllThere(partMap: map<string, string>, testCount: nat)
    ensures FirstMissing(partMap, testCount + 1, testCount).None?
  {
  }

  class UploadTestsHandler {
    var task: Task

    constructor ()
    {
      task := Task(0, TaskTests([], []));
    }

    /**
     `Parse` on a request with these parts. Every text is moved out of the request when it is taken;
     that no text is taken twice is what the assertions on `Here?` check.
     */
    method Parse(parts: seq<Part>, partMap: map<string, string>, decode: string -> Result<nat, string>)
      returns (ok: bool, res: Response)
      requires IsPartMap(partMap, parts)
      modifies this
      ensures var parsed := Parsed(partMap, |parts| / 2, decode);
              && ok == parsed.Success?
              && (ok ==> task == parsed.value && res == Response(200, ""))
              && (!ok ==> res == Response(400, parsed.error) && task == old(task))
      ensures if ok then Described(task, partMap, |parts| / 2, decode)
              else Complaint(res.body, partMap, |parts| / 2, decode)
    {
      hide InputName, OutputName, IsPartMap, Described, Complaint, MovedBefore, FirstMissing, Inputs, Outputs, Text;
      ParsedMeaning(partMap, |parts| / 2, decode);
      res := Response(200, "");
      if TASK_DATA !in partMap {
        return false, Response(400, "no taskData.json specified");
      }
      var taskData := decode(partMap[TASK_DATA]);
      if taskData.Failure? {
        return false, Response(400, taskData.error);
      }
      var testCount := |parts| / 2;
      var inputTests: seq<string>, outputTests: seq<string> := [], [];
      var bodies: map<string, Body> := map name | name in partMap :: Here(partMap[name]);
      NothingMoved(partMap);
      for testIndex := 1 to testCount + 1
        invariant task == old(task) && MovedBefore(bodies, partMap, testIndex)
        invariant FirstMissing(partMap, 1, testCount) == FirstMissing(partMap, testIndex, testCount)
        invariant inputTests == Inputs(partMap, testIndex - 1)
        invariant outputTests == Outputs(partMap, testIndex - 1)
      {
        StillHere(bodies, partMap, testIndex);
        AtTest(bodies, partMap, testIndex, testCount);
        var inputTestFileName := InputName(testIndex);
        if inputTestFileName !in bodies {
          return false, Response(400, "no " + inputTestFileName);
        }
        var outputTestFileName := OutputName(testIndex);
        assert bodies[inputTestFileName].Here?;
        ghost var was := bodies;
        inputTests := inputTests + [bodies[inputTestFileName].text];
        bodies := bodies[inputTestFileName := MovedOut];
        if outputTestFileName !in bodies {
          return false, Response(400, "no " + outputTestFileName);
        }
        assert bodies[outputTestFileName].Here?;
        outputTests := outputTests + [bodies[outputTestFileName].text];
        bodies := bodies[outputTestFileName := MovedOut];
        MoveBoth(was, partMap, testIndex);
      }
      AllThere(partMap, testCount);
      task := Task(taskData.value, TaskTests(inputTests, outputTests));
      ok := true;
    }

    /**
     The upload request: parse, cut, store all tests, and only then the metadata. The first write that
     fails ends it: what was written stays, and the metadata is as before.
     */
    method Handle(parts: seq<Part>, partMap: map<string, string>, decode: string -> Result<nat, string>,
                  batchSize: nat, storageClient: StorageClient, fault: nat -> Option<string>)
      returns (res: Response)
      requires IsPartMap(partMap, parts)
      modifies this, storageClient
      ensures storageClient.builds == old(storageClient.builds)
      ensures match Parsed(partMap, |parts| / 2, decode)
              case Failure(e) =>
                && res == Response(400, e)
                && storageClient.State() == old(storageClient.State()) && storageClient.log == old(storageClient.log)
              case Success(parsed) =>
                && Paired(parsed.tests)
                && var total, made := 2 * TestCount(parsed) + 1, WritesMade(fault, 2 * TestCount(parsed) + 1);
                if made == total then
                  && res == Response(200, "")
                  && Uploaded(old(storageClient.State()), parsed, batchSize, storageClient.State())
                  && var metaData := storageClient.taskMeta[parsed.id];
                  var inputs, outputs := parsed.tests.inputTests, parsed.tests.outputTests;
                  && metaData.taskId == parsed.id && metaData.batchSize == batchSize
                  && (exists limit :: IsByteLimit(limit, inputs, outputs, batchSize)
                                      && CutsTexts(metaData.batches, inputs, outputs, limit))
                  && storageClient.log ==
                     old(storageClient.log) + UploadWrites(parsed, storageClient.taskMeta[parsed.id])
                else
                  && res == Response(400, (if made < total - 1 then "" else "UpsertTaskMetaData Error: ")
                                          + fault(made).value)
                  && UpsertedSome(old(storageClient.taskTests), parsed, made, storageClient.taskTests)
                  && storageClient.taskMeta == old(storageClient.taskMeta)
                  && storageClient.log == old(storageClient.log) + TestWrites(parsed)[..made]
    {
      hide Parsed, IsPartMap, IsGreedySplit, TestsUpserted, UpsertedSome, TestWrites, IsByteLimit, CutsTexts, Described;
      ParsedPaired(partMap, |parts| / 2, decode);
      var ok;
      ok, res := Parse(parts, partMap, decode);
      if !ok {
        return;
      }
      var batches := SplitIntoBatches(task.tests.inputTests, task.tests.outputTests, batchSize);
      var taskMetaData := MetaData(task.id, batches, batchSize);
      var maybeError := storageClient.UpsertTaskTests(task, fault);
      if maybeError.Some? {
        return Response(400, maybeError.value);
      }
      maybeError := storageClient.UpsertTaskMetaData(taskMetaData, fault(2 * |task.tests.inputTests|));
      if maybeError.Some? {
        return Response(400, "UpsertTaskMetaData Error: " + maybeError.value);
      }
    }
  }

  // ----- What parsing means

  lemma {:induction false} FirstMissingIff(partMap: map<string, string>, i: nat, testCount: nat)
    ensures FirstMissing(partMap, i, testCount).None? <==>
            forall j :: i <= j <= testCount ==> InputName(j) in partMap && OutputName(j) in partMap
    decreases testCount + 1 - i
  {
    hide InputName, OutputName;
    if i <= testCount {
      FirstMissingIff(partMap, i + 1, testCount);
    }
  }

  /** A request is accepted exactly when its task data decodes and no numbered part is missing. */
  lemma AcceptedIff(partMap: map<string, string>, testCount: nat, decode: string -> Result<nat, string>)
    ensures Parsed(partMap, testCount, decode).Success? <==>
            && "taskData.json" in partMap && decode(partMap["taskData.json"]).Success?
            && forall j :: 1 <= j <= testCount ==> HasParts(partMap, j)
  {
    hide FirstMissing, ToString;
    FirstMissingNamed(partMap, 1, testCount);
    var missing := FirstMissing(partMap, 1, testCount);
    if missing.Some? {
      var i :| 1 <= i <= testCount && NamesMissing("no " + missing.value, partMap, 1, i);
      assert !HasParts(partMap, i);
    }
  }

  lemma PartCount(parts: seq<Part>, files: map<string, string>)
    requires Carries(parts, files)
    ensures |parts| == |files|
  {
    var names := seq(|parts|, i requires 0 <= i < |parts| => parts[i].name);
    DistinctCardinality(names);
    assert files.Keys == Elements(names) by {
      forall name | name in files ensures name in names {
        var i :| 0 <= i < |parts| && parts[i].name == name;
        assert names[i] == name;
      }
    }
    assert |files.Keys| == |files|;
  }

  lemma PartMapIsForm(parts: seq<Part>, files: map<string, string>, partMap: map<string, string>)
    requires Carries(parts, files) && IsPartMap(partMap, parts)
    ensures partMap == files
  {
    forall name | name in files ensures name in partMap {
      var i :| 0 <= i < |parts| && parts[i].name == name;
    }
    forall name | name in partMap ensures name in files && files[name] == partMap[name] {
      var i :| 0 <= i < |parts| && parts[i] == Part(name, partMap[name]);
    }
  }

  function TaskOf(id: nat, tests: seq<Test>): (task: Task)
    ensures Paired(task.tests) && TestCount(task) == |tests| && task.id == id
    ensures forall i :: 0 <= i < |tests| ==>
              task.tests.inputTests[i] == tests[i].inputData && task.tests.outputTests[i] == tests[i].outputData
  {
    Task(id, TaskTests(seq(|tests|, i requires 0 <= i < |tests| => tests[i].inputData),
                       seq(|tests|, i requires 0 <= i < |tests| => tests[i].outputData)))
  }

  /**
   Name round trip: whatever order the client's parts arrive in, the handler reads back the same task
   id and the same tests, for any number of them.
   */
  lemma NameRoundTrip(parts: seq<Part>, files: map<string, string>, partMap: map<string, string>, tests: seq<Test>,
                      taskId: nat, dumps: nat -> string, decode: string -> Result<nat, string>)
    requires IsForm(files, tests, dumps(taskId)) && decode(dumps(taskId)) == Success(taskId)
    requires Carries(parts, files) && IsPartMap(partMap, parts)
    ensures Parsed(partMap, |parts| / 2, decode) == Success(TaskOf(taskId, tests))
  {
    hide InputName, OutputName, Carries, IsPartMap;
    PartCount(parts, files);
    PartMapIsForm(parts, files, partMap);
    FirstMissingIff(files, 1, |tests|);
    var task := TaskOf(taskId, tests);
    assert Inputs(files, |tests|) == task.tests.inputTests;
    assert Outputs(files, |tests|) == task.tests.outputTests;
  }
}
