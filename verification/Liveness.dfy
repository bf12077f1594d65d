/** How many steps a testing processor needs at most, whatever uploads and other processors do in between. */
module Liveness {
  import opened Sequences
  import opened Batching
  import opened Storage
  import opened Uploads
  import opened Judge
  import opened TestingProcessor
  import opened Deployment

  /**
   A step of runner `i` counts unless it reads a document of the batch that it has read before, or that
   is not of the batch, while one is left to read. Failing calls count.
   */
  predicate Counts(s: System, e: Event, i: nat) {
    && e.Act? && e.runner == i && i < |s.runners|
    && (HasToRead(s.runners[i].phase) ==> e.key in s.runners[i].phase.fetcher.left)
  }

  predicate HasToRead(phase: Phase) {
    phase.Fetching? && phase.fetcher.Reading? && phase.fetcher.left != {}
  }

  function Steps(m: Machine, builds: map<nat, Build>, s: System, events: seq<Event>, i: nat): nat
    requires Publication.AllPaired(s.uploaders)
  {
    if events == [] then 0
    else
      var before, last := events[..|events| - 1], events[|events| - 1];
      Steps(m, builds, s, before, i) + if Counts(Run(m, builds, s, before), last, i) then 1 else 0
  }

  // ----- The budget

  ghost predicate IsUploaded(uploads: seq<Publication.Uploader>, taskId: nat) {
    exists u :: 0 <= u < |uploads| && uploads[u].task.id == taskId
  }

  ghost function UploadOf(uploads: seq<Publication.Uploader>, taskId: nat): (u: nat)
    requires IsUploaded(uploads, taskId)
    ensures u < |uploads| && uploads[u].task.id == taskId
  {
    var u :| 0 <= u < |uploads| && uploads[u].task.id == taskId;
    u
  }

  /** Preparing and closing, four steps a batch, and for each test two reads and six file steps. */
  function Cost(tests: nat, batches: nat): nat {
    2 + 4 * batches + 8 * tests
  }

  ghost function QueueCost(uploads: seq<Publication.Uploader>, queue: seq<Submission>): nat
    requires forall q :: q in queue ==> IsUploaded(uploads, q.taskId)
  {
    if queue == [] then 0
    else
      var up := uploads[UploadOf(uploads, queue[0].taskId)];
      Cost(TestCount(up.task), |up.metaData.batches|) + QueueCost(uploads, queue[1..])
  }

  // ----- What is left of it

  /** For the batches from `b` on. */
  function CostFrom(tests: nat, batches: seq<seq<nat>>, b: nat): nat {
    if b <= |batches| && Cut(batches, b) <= tests then 4 * (|batches| - b) + 8 * (tests - Cut(batches, b)) else 0
  }

  function BatchSize(batches: seq<seq<nat>>, b: nat): nat {
    if b < |batches| then |batches[b]| else 0
  }

  /** At most these many more steps for the submission at hand. */
  function PhaseLeft(phase: Phase, tests: nat, batches: seq<seq<nat>>): nat {
    match phase
    case Preparing => Cost(tests, |batches|)
    case Asking(p) => 1 + CostFrom(tests, batches, p.batch)
    case Fetching(p, f) =>
      1 + CostFrom(tests, batches, p.batch + 1) + 6 * BatchSize(batches, p.batch)
      + if f.Reading? then |f.left| + 3 else 2
    case Judging(p, w) =>
      Workers.StepsLeft(w) + if p.count == 0 then 0 else 1 + CostFrom(tests, batches, p.batch + 1)
  }

  ghost function RunnerLeft(uploads: seq<Publication.Uploader>, r: Runner): nat
    requires forall q :: q in r.queue ==> IsUploaded(uploads, q.taskId)
  {
    if r.queue == [] then 0
    else
      var up := uploads[UploadOf(uploads, r.queue[0].taskId)];
      PhaseLeft(r.phase, TestCount(up.task), up.metaData.batches) + QueueCost(uploads, r.queue[1..])
  }

  /** The same submission with fewer steps left, or the next submission. */
  ghost predicate Nearer(r: Runner, r': Runner, tests: nat, batches: seq<seq<nat>>) {
    || (r.queue != [] && r'.queue == r.queue[1..] && r'.phase == Preparing && PhaseLeft(r.phase, tests, batches) > 0)
    || (r'.queue == r.queue && PhaseLeft(r'.phase, tests, batches) < PhaseLeft(r.phase, tests, batches))
  }

  lemma CostStep(u: Publication.Uploader, b: nat)
    requires UploadSound(u) && b < |u.metaData.batches|
    ensures var n, batches := TestCount(u.task), u.metaData.batches;
            CostFrom(n, batches, b) == CostFrom(n, batches, b + 1) + 4 + 8 * |batches[b]|
  {
    hide Cut;
    BatchIsRange(u.metaData.batches, TestCount(u.task), b);
  }

  lemma {:induction false} KeysCount(taskId: nat, front: nat, count: nat)
    ensures |Publication.BatchKeys(taskId, front, count)| <= 2 * count
  {
    hide Publication.BatchKeys;
    if count > 0 {
      KeysCount(taskId, front, count - 1);
      UnionCount(Publication.BatchKeys(taskId, front, count - 1), KeysOf(taskId, front + count - 1));
    }
    KeysNext(taskId, front, count);
  }

  function KeysOf(taskId: nat, testId: nat): (keys: set<DocKey>)
    ensures |keys| == 2
  {
    {DocKey(taskId, testId, InputTest), DocKey(taskId, testId, OutputTest)}
  }

  lemma KeysNext(taskId: nat, front: nat, count: nat)
    ensures Publication.BatchKeys(taskId, front, count) ==
            if count == 0 then {}
            else Publication.BatchKeys(taskId, front, count - 1) + KeysOf(taskId, front + count - 1)
  {
  }

  lemma UnionCount(a: set<DocKey>, b: set<DocKey>)
    ensures |a + b| <= |a| + |b|
  {
    assert a + b == a + (b - a);
  }

  lemma AskLeaves(store: Store, u: Publication.Uploader, b: nat)
    requires UploadSound(u) && Publication.UploaderOk(store, u) && IsPublished(u) && b < |u.metaData.batches|
    ensures var asked := Publication.Asked(store, Publication.Idle, u.task.id, b);
            asked.Reading? && |asked.left| <= 2 * |u.metaData.batches[b]|
  {
    hide IsGreedySplit, Cut, Publication.BatchKeys;
    var batch := u.metaData.batches[b];
    BatchFromEnds(u.metaData.batches, TaskSizes(u.task), Limit(TaskSizes(u.task), u.metaData.batchSize), b);
    KeysCount(u.task.id, batch[0], |batch|);
  }

  lemma PrepareNearer(m: Machine, builds: map<nat, Build>, store: Store, r: Runner, u: Publication.Uploader,
                      through: bool)
    requires UploadSound(u) && Publication.UploaderOk(store, u)
    requires r.queue != [] && r.queue[0].taskId == u.task.id && r.phase.Preparing?
    ensures Nearer(r, Prepare(m, builds, store, r, through), TestCount(u.task), u.metaData.batches)
  {
    hide ContainerFor, Cut, JudgeFrom, IsGreedySplit;
    NothingJudged(u, (input, expected) => LOST);
  }

  lemma AskNearer(m: Machine, builds: map<nat, Build>, store: Store, r: Runner, u: Publication.Uploader, through: bool)
    requires UploadSound(u) && Publication.UploaderOk(store, u)
    requires r.queue != [] && r.queue[0].taskId == u.task.id && r.phase.Asking?
    requires Serving(m, builds, r.queue[0], r.phase.progress, u)
    ensures Nearer(r, AskNext(store, r, through), TestCount(u.task), u.metaData.batches)
  {
    hide Describes, JudgeFrom, Cut, AllOk, Publication.Asked, JudgeFor, Prepared, CostFrom;
    var p := r.phase.progress;
    if p.batch < p.count {
      AskLeaves(store, u, p.batch);
      CostStep(u, p.batch);
    }
  }

  lemma FetchNearer(store: Store, r: Runner, u: Publication.Uploader, key: DocKey)
    requires r.queue != [] && r.phase.Fetching? && Paired(u.task.tests)
    requires FetchOk(r.phase.fetcher, u, r.phase.progress.batch) && r.phase.progress.count > 0
    requires HasToRead(r.phase) ==> key in r.phase.fetcher.left
    ensures Nearer(r, FetchNext(store, r, key), TestCount(u.task), u.metaData.batches)
  {
    hide Cut, CostFrom, Publication.SlotsOk;
    var p, f := r.phase.progress, r.phase.fetcher;
    match f
    case Reading(_, _, _, left, _, _) =>
      if left != {} {
        assert Publication.Received(store, f, key).left == left - {key};
      }
    case Done(_, _, result) =>
      DoneSize(f, u, p.batch);
      NewJob(Workers.Job(r.queue[0], p.container, result.value));
  }

  lemma DoneSize(f: Publication.Fetcher, u: Publication.Uploader, b: nat)
    requires Paired(u.task.tests) && FetchOk(f, u, b) && f.Done?
    ensures f.result.Success? && |f.result.value.inputTests| <= |u.metaData.batches[b]|
  {
    ConcatStep(u.metaData.batches, b);
  }

  lemma NewJob(job: Workers.Job)
    ensures Workers.StepsLeft(Workers.Fresh([job])) == 6 * |job.tests.inputTests| + 1
  {
    assert [job][1..] == [];
  }

  lemma JudgedNearer(m: Machine, i: nat, r: Runner, files: Workers.Files, u: Publication.Uploader, job: Workers.Job)
    requires r.queue != [] && r.phase.Judging? && JobOk(m, i, r.phase.worker, files, job)
    ensures Nearer(r, Judged(r, Workers.StepOf(m, i, r.phase.worker, files).0), TestCount(u.task), u.metaData.batches)
  {
    hide Workers.StepOf, Workers.StepsLeft, Workers.ProgressOk, CostFrom, AllOk;
    Workers.StepProgress(m, i, r.phase.worker, files);
  }

  /** A step that counts brings the runner nearer to the end of its queue. */
  lemma ActNearer(m: Machine, builds: map<nat, Build>, store: Store, i: nat, r: Runner, files: Workers.Files,
                  u: Publication.Uploader, through: bool, key: DocKey)
    requires UploadSound(u) && Publication.UploaderOk(store, u) && RunnerOk(m, builds, i, r, files, u, false)
    requires r.queue != [] && r.queue[0].taskId == u.task.id
    requires HasToRead(r.phase) ==> key in r.phase.fetcher.left
    ensures Nearer(r, Acted(m, builds, store, i, r, files, through, key).0, TestCount(u.task), u.metaData.batches)
  {
    hide Nearer, Describes, Serving, FetchOk, JobOk, OutcomeOk, Prepare, AskNext, FetchNext, Judged, Workers.StepOf,
         Publication.UploaderOk;
    match r.phase
    case Preparing => PrepareNearer(m, builds, store, r, u, through);
    case Asking(_) => AskNearer(m, builds, store, r, u, through);
    case Fetching(p, _) =>
      ServingCounts(m, builds, r.queue[0], p, u);
      FetchNearer(store, r, u, key);
    case Judging(p, _) =>
      if p.count == 0 {
        JudgedNearer(m, i, r, files, u, EmptyRun(r.queue[0], Bare));
      } else {
        JudgedNearer(m, i, r, files, u, Workers.Job(r.queue[0], p.container, Publication.BatchOf(u, p.batch)));
      }
  }

  /** A step that does not count changes nothing. */
  lemma ActIdles(m: Machine, builds: map<nat, Build>, store: Store, i: nat, r: Runner, files: Workers.Files,
                 through: bool, key: DocKey)
    requires r.queue == [] || (HasToRead(r.phase) && key !in r.phase.fetcher.left)
    ensures Acted(m, builds, store, i, r, files, through, key) == (r, files)
  {
    hide Workers.StepOf;
  }

  lemma NearerLeft(uploads: seq<Publication.Uploader>, r: Runner, r': Runner)
    requires r.queue != [] && forall q :: q in r.queue ==> IsUploaded(uploads, q.taskId)
    requires var up := uploads[UploadOf(uploads, r.queue[0].taskId)];
             Nearer(r, r', TestCount(up.task), up.metaData.batches)
    ensures forall q :: q in r'.queue ==> IsUploaded(uploads, q.taskId)
    ensures RunnerLeft(uploads, r') < RunnerLeft(uploads, r)
  {
    hide PhaseLeft;
    PreparingLeft(uploads, r');
  }

  lemma PreparingLeft(uploads: seq<Publication.Uploader>, r: Runner)
    ensures r.phase == Preparing && (forall q :: q in r.queue ==> IsUploaded(uploads, q.taskId)) ==>
              RunnerLeft(uploads, r) == QueueCost(uploads, r.queue)
  {
  }

  // ----- Runs

  lemma {:induction false} RunAppend(m: Machine, builds: map<nat, Build>, s: System, events: seq<Event>,
                                     more: seq<Event>)
    requires Publication.AllPaired(s.uploaders)
    ensures Run(m, builds, s, events + more) == Run(m, builds, Run(m, builds, s, events), more)
  {
    hide Step;
    if more == [] {
      assert events + more == events;
    } else {
      assert (events + more)[..|events + more| - 1] == events + more[..|more| - 1];
      RunAppend(m, builds, s, events, more[..|more| - 1]);
    }
  }

  /** All submissions runner `i` still has are for uploaded tasks. */
  ghost predicate ForUploads(uploads: seq<Publication.Uploader>, s: System, i: nat) {
    i < |s.runners| && forall q :: q in s.runners[i].queue ==> IsUploaded(uploads, q.taskId)
  }

  /** From any state that a run reached, the steps that count use up what is left. */
  lemma {:induction false} RunLeft(m: Machine, builds: map<nat, Build>, s: System, events: seq<Event>, more: seq<Event>,
                                   i: nat)
    requires Starting(s) && i < |s.runners| && ForUploads(s.uploaders, Run(m, builds, s, events), i)
    ensures var now := Run(m, builds, s, events);
            var end := Run(m, builds, now, more);
            && ForUploads(s.uploaders, end, i)
            && (end.runners[i].queue == []
                || RunnerLeft(s.uploaders, end.runners[i]) + Steps(m, builds, now, more, i)
                   <= RunnerLeft(s.uploaders, now.runners[i]))
  {
    hide Acted, RunnerLeft, IsUploaded, Publication.UploaderOk, Describes, Publication.Wrote;
    var now := Run(m, builds, s, events);
    if more != [] {
      var before, e := more[..|more| - 1], more[|more| - 1];
      RunLeft(m, builds, s, events, before, i);
      var mid := Run(m, builds, now, before);
      if e.Act? && e.runner == i {
        if mid.runners[i].queue == [] || !Counts(mid, e, i) {
          ActIdles(m, builds, mid.store, i, mid.runners[i], mid.files, e.through, e.key);
        } else {
          RunAppend(m, builds, s, events, before);
          StepNearer(m, builds, s, events + before, i, e.through, e.key);
        }
      }
    }
  }

  lemma StepNearer(m: Machine, builds: map<nat, Build>, s: System, before: seq<Event>, i: nat, through: bool,
                   key: DocKey)
    requires Starting(s) && i < |s.runners| && ForUploads(s.uploaders, Run(m, builds, s, before), i)
    requires Run(m, builds, s, before).runners[i].queue != []
    requires Counts(Run(m, builds, s, before), Act(i, through, key), i)
    ensures var now := Run(m, builds, s, before);
            var r' := Acted(m, builds, now.store, i, now.runners[i], now.files, through, key).0;
            && (forall q :: q in r'.queue ==> IsUploaded(s.uploaders, q.taskId))
            && RunnerLeft(s.uploaders, r') < RunnerLeft(s.uploaders, now.runners[i])
  {
    hide Acted, RunnerLeft, IsUploaded, Nearer, RunnerOk, Describes, Publication.UploaderOk, Run;
    var now := Run(m, builds, s, before);
    var u := UploadOf(s.uploaders, now.runners[i].queue[0].taskId);
    UploadFits(m, builds, s, before, i, u);
    ActNearer(m, builds, now.store, i, now.runners[i], now.files, now.uploaders[u], through, key);
    NearerLeft(s.uploaders, now.runners[i], Acted(m, builds, now.store, i, now.runners[i], now.files, through, key).0);
  }

  lemma UploadFits(m: Machine, builds: map<nat, Build>, s: System, events: seq<Event>, i: nat, u: nat)
    requires Starting(s) && i < |s.runners| && u < |s.uploaders|
    ensures var now := Run(m, builds, s, events);
            && i < |now.runners| && u < |now.uploaders|
            && now.uploaders[u].task == s.uploaders[u].task && now.uploaders[u].metaData == s.uploaders[u].metaData
            && UploadSound(now.uploaders[u]) && Publication.UploaderOk(now.store, now.uploaders[u])
            && RunnerOk(m, builds, i, now.runners[i], now.files, now.uploaders[u], false)
  {
    hide RunnerOk, Publication.UploaderOk, Run, Describes, InOrder;
    StartFits(m, builds, s, i, u);
    RunKeeps(m, builds, s, events, i, u, false, s.runners[i].queue);
    RunKeepsUploads(m, builds, s, events, u);
  }

  lemma StartFits(m: Machine, builds: map<nat, Build>, s: System, i: nat, u: nat)
    requires Starting(s) && i < |s.runners| && u < |s.uploaders|
    ensures Invariant(m, builds, s, i, u, false, s.runners[i].queue)
  {
    hide Describes, Publication.UploaderOk;
  }

  lemma SomethingLeft(m: Machine, builds: map<nat, Build>, s: System, events: seq<Event>, i: nat)
    requires Starting(s) && i < |s.runners| && ForUploads(s.uploaders, Run(m, builds, s, events), i)
    requires Run(m, builds, s, events).runners[i].queue != []
    ensures RunnerLeft(s.uploaders, Run(m, builds, s, events).runners[i]) > 0
  {
    hide Acted, IsUploaded, Publication.UploaderOk, Describes, Run;
    var now := Run(m, builds, s, events);
    var key := KeyToRead(now.runners[i].phase);
    StepNearer(m, builds, s, events, i, true, key);
  }

  lemma KeyToRead(phase: Phase) returns (key: DocKey)
    ensures HasToRead(phase) ==> key in phase.fetcher.left
  {
    key := DocKey(0, 0, InputTest);
    if HasToRead(phase) {
      key :| key in phase.fetcher.left;
    }
  }

  lemma {:induction false} Counted(m: Machine, builds: map<nat, Build>, s: System, events: seq<Event>, i: nat,
                                   queue: seq<Submission>)
    requires Publication.AllPaired(s.uploaders) && i < |s.runners| && InOrder(s.runners[i], queue)
    ensures var end := Run(m, builds, s, events).runners;
            |end| == |s.runners| && InOrder(end[i], queue)
  {
    hide InOrder, Acted, Publication.Wrote;
    if events != [] {
      var now, e := Run(m, builds, s, events[..|events| - 1]), events[|events| - 1];
      Counted(m, builds, s, events[..|events| - 1], i, queue);
      if e.Act? && e.runner == i {
        ActInOrder(m, builds, now.store, i, now.runners[i], now.files, e.through, e.key, queue);
      }
    }
  }

  /**
   From any state a run reached, every continuation with enough steps of runner `i` that count finishes
   its queue, however late they come, whichever calls fail, and whatever uploads and other runners do in
   between.
   */
  lemma EnoughStepsFinishFrom(m: Machine, builds: map<nat, Build>, s: System, events: seq<Event>, more: seq<Event>,
                              i: nat)
    requires Starting(s) && i < |s.runners| && ForUploads(s.uploaders, Run(m, builds, s, events), i)
    requires var now := Run(m, builds, s, events);
             Steps(m, builds, now, more, i) >= RunnerLeft(s.uploaders, now.runners[i])
    ensures var end := Run(m, builds, Run(m, builds, s, events), more).runners;
            i < |end| && end[i].queue == [] && |end[i].finished| == |s.runners[i].queue|
  {
    hide Run, Steps, RunnerLeft, IsUploaded, Publication.UploaderOk, Describes, OutcomeOk;
    var now := Run(m, builds, s, events);
    RunLeft(m, builds, s, events, more, i);
    RunAppend(m, builds, s, events, more);
    if Run(m, builds, now, more).runners[i].queue != [] {
      SomethingLeft(m, builds, s, events + more, i);
    }
    Counted(m, builds, s, events + more, i, s.runners[i].queue);
  }

  /** From the start, the budget is the cost of the queue. */
  lemma EnoughStepsFinish(m: Machine, builds: map<nat, Build>, s: System, events: seq<Event>, i: nat)
    requires Starting(s) && ForUploads(s.uploaders, s, i)
    requires Steps(m, builds, s, events, i) >= QueueCost(s.uploaders, s.runners[i].queue)
    ensures var end := Run(m, builds, s, events).runners;
            i < |end| && end[i].queue == [] && |end[i].finished| == |s.runners[i].queue|
  {
    hide Steps, QueueCost, RunnerLeft, IsUploaded, Publication.UploaderOk, Describes, OutcomeOk;
    PreparingLeft(s.uploaders, s.runners[i]);
    EnoughStepsFinishFrom(m, builds, s, [], events, i);
  }

  /** Steps of runner `i` alone, with calls getting through, all of which count. */
  lemma {:induction false} OwnSteps(m: Machine, builds: map<nat, Build>, s: System, i: nat, count: nat)
    returns (more: seq<Event>)
    requires Publication.AllPaired(s.uploaders) && i < |s.runners|
    ensures |more| == count && forall e :: e in more ==> e.Act? && e.runner == i && e.through
    ensures |Run(m, builds, s, more).runners| == |s.runners| && Steps(m, builds, s, more, i) == count
  {
    hide Acted;
    if count == 0 {
      more := [];
    } else {
      var fewer := OwnSteps(m, builds, s, i, count - 1);
      var key := KeyToRead(Run(m, builds, s, fewer).runners[i].phase);
      more := fewer + [Act(i, true, key)];
      assert more[..|more| - 1] == fewer;
    }
  }

  /**
   No interleaving blocks a runner for good: whatever happened so far, its own steps, with calls getting
   through, can finish every submission in its queue.
   */
  lemma NeverStuck(m: Machine, builds: map<nat, Build>, s: System, events: seq<Event>, i: nat)
    returns (more: seq<Event>)
    requires Starting(s) && i < |s.runners| && ForUploads(s.uploaders, Run(m, builds, s, events), i)
    ensures forall e :: e in more ==> e.Act? && e.runner == i && e.through
    ensures |more| == RunnerLeft(s.uploaders, Run(m, builds, s, events).runners[i])
    ensures var end := Run(m, builds, Run(m, builds, s, events), more).runners;
            i < |end| && end[i].queue == [] && |end[i].finished| == |s.runners[i].queue|
  {
    hide Run, Steps, RunnerLeft, IsUploaded, Publication.UploaderOk, Describes;
    var now := Run(m, builds, s, events);
    more := OwnSteps(m, builds, now, i, RunnerLeft(s.uploaders, now.runners[i]));
    EnoughStepsFinishFrom(m, builds, s, events, more, i);
  }
}
