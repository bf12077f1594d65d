/** How one run is judged, and how the runs of a submission make a report. */
module Judge {
  import opened Wrappers
  import opened Storage

  datatype Verdict = OK | WA | TL | ML | RE | CE | CRASH

  datatype Report = Report(cpuTimeElapsedMilliSeconds: nat, memorySpent: nat, verdict: Verdict)

  /** What the executor reports about a run, and what the program printed. */
  datatype Execution = Execution(exitCode: int, cpuTimeElapsedMicroSeconds: nat, memorySpent: nat, output: string)

  datatype Submission = Submission(submissionId: nat, buildId: nat, userData: string, taskId: nat,
                                   memoryLimit: nat, cpuTimeLimitMilliSeconds: nat)

  /**
   What a submission's container holds. Each submission gets a fresh one; only a preparation whose init
   script returned 0 leaves an execute script in it.
   */
  datatype Container =
    | Bare
    | InitFailed(initScript: string, userData: string)
    | Ready(initScript: string, executeScript: string, userData: string)

  /**
   The outside programs: the exit code of an init script on the user's data, running the executor in a
   container on an input, and the exit code of `diff` on what was printed and what was expected. Each
   always answers the same on the same arguments.
   */
  datatype Machine = Machine(init: (string, string) -> int, run: (Container, string) -> Execution,
                             diff: (string, string) -> int)

  /** Running a script that is not there fails: the shell's 127 reaches the report as a non-zero exit code. */
  ghost predicate NeedsExecuteScript(m: Machine) {
    forall c: Container, input: string :: !c.Ready? ==> m.run(c, input).exitCode != 0
  }

  /** The time limit in microseconds, as 64-bit unsigned arithmetic computes it. */
  function LimitMicroSeconds(milliSeconds: nat): nat {
    (milliSeconds * 1000) % 0x1_0000_0000_0000_0000
  }

  /** The exit code of the checker as a verdict. */
  function CheckVerdict(exitCode: int): Verdict {
    if exitCode == 0 then OK else if exitCode == 1 then WA else CRASH
  }

  /** The verdict the executor's report forces, if any. */
  function LimitVerdict(s: Submission, e: Execution): Option<Verdict> {
    if e.exitCode != 0 then Some(RE)
    else if e.cpuTimeElapsedMicroSeconds > LimitMicroSeconds(s.cpuTimeLimitMilliSeconds) then Some(TL)
    else if e.memorySpent > s.memoryLimit then Some(ML)
    else None
  }

  /** The report on one test. */
  function JudgeOne(m: Machine, c: Container, s: Submission, input: string, expected: string): Report {
    var e := m.run(c, input);
    var verdict :=
      match LimitVerdict(s, e)
      case Some(v) => v
      case None => CheckVerdict(m.diff(e.output, expected));
    Report(e.cpuTimeElapsedMicroSeconds / 1000, e.memorySpent, verdict)
  }

  /** A run that ended by itself and stayed within the limits. */
  ghost predicate WithinLimits(s: Submission, e: Execution) {
    && e.exitCode == 0
    && e.cpuTimeElapsedMicroSeconds <= LimitMicroSeconds(s.cpuTimeLimitMilliSeconds)
    && e.memorySpent <= s.memoryLimit
  }

  /**
   When each verdict is given: a failing exit code outranks the time limit, that the memory limit, that
   the output.
   */
  lemma VerdictIff(m: Machine, c: Container, s: Submission, input: string, expected: string)
    ensures var e, v := m.run(c, input), JudgeOne(m, c, s, input, expected).verdict;
            && (v == OK <==> WithinLimits(s, e) && m.diff(e.output, expected) == 0)
            && (v == WA <==> WithinLimits(s, e) && m.diff(e.output, expected) == 1)
            && (v == CRASH <==> WithinLimits(s, e) && m.diff(e.output, expected) !in {0, 1})
            && (v == RE <==> e.exitCode != 0)
            && (v == TL <==> e.exitCode == 0
                             && e.cpuTimeElapsedMicroSeconds > LimitMicroSeconds(s.cpuTimeLimitMilliSeconds))
            && (v == ML <==> e.exitCode == 0
                             && e.cpuTimeElapsedMicroSeconds <= LimitMicroSeconds(s.cpuTimeLimitMilliSeconds)
                             && e.memorySpent > s.memoryLimit)
            && v != CE
    ensures var e, r := m.run(c, input), JudgeOne(m, c, s, input, expected);
            && r.cpuTimeElapsedMilliSeconds * 1000 <= e.cpuTimeElapsedMicroSeconds
            && e.cpuTimeElapsedMicroSeconds < r.cpuTimeElapsedMilliSeconds * 1000 + 1000
            && r.memorySpent == e.memorySpent
  {
  }

  // ----- The wrapping time limit

  /** The largest limit in milliseconds that is still exact in microseconds. */
  const MAX_EXACT_LIMIT := 18446744073709551

  lemma LimitExactIff(milliSeconds: nat)
    ensures LimitMicroSeconds(milliSeconds) == milliSeconds * 1000 <==> milliSeconds <= MAX_EXACT_LIMIT
    ensures LimitMicroSeconds(milliSeconds) < 0x1_0000_0000_0000_0000
  {
  }

  /** A run judged over the time limit, and one that really is over the configured limit. */
  ghost predicate TimedRight(s: Submission, e: Execution) {
    LimitVerdict(s, e) == Some(TL) <==> e.cpuTimeElapsedMicroSeconds > s.cpuTimeLimitMilliSeconds * 1000
  }

  /**
   TL goes exactly to the runs over the configured limit, among all runs that exit by themselves and
   whose time fits 64 bits, if and only if the limit is at most MAX_EXACT_LIMIT milliseconds.
   */
  lemma TimeLimitRightIff(s: Submission)
    ensures (forall e: Execution :: e.exitCode == 0 && e.cpuTimeElapsedMicroSeconds < 0x1_0000_0000_0000_0000 ==>
               TimedRight(s, e))
            <==> s.cpuTimeLimitMilliSeconds <= MAX_EXACT_LIMIT
  {
    LimitExactIff(s.cpuTimeLimitMilliSeconds);
    if s.cpuTimeLimitMilliSeconds > MAX_EXACT_LIMIT {
      var limit := LimitMicroSeconds(s.cpuTimeLimitMilliSeconds);
      WrappedLimitIsShort(s.cpuTimeLimitMilliSeconds);
      assert !TimedRight(s, Execution(0, limit + 1, 0, ""));
    }
  }

  /** A wrapped limit is below the configured one, and is never the largest 64-bit number. */
  lemma WrappedLimitIsShort(milliSeconds: nat)
    requires milliSeconds > MAX_EXACT_LIMIT
    ensures LimitMicroSeconds(milliSeconds) + 1 < 0x1_0000_0000_0000_0000 <= milliSeconds * 1000
  {
    var all := milliSeconds * 1000;
    var limit := all % 0x1_0000_0000_0000_0000;
    assert all == 0x1_0000_0000_0000_0000 * (all / 0x1_0000_0000_0000_0000) + limit;
    MultipleOfEight(milliSeconds, all / 0x1_0000_0000_0000_0000, limit);
  }

  lemma MultipleOfEight(n: nat, q: nat, r: nat)
    requires n * 1000 == 0x1_0000_0000_0000_0000 * q + r
    ensures r % 8 == 0
  {
    assert r == 8 * (n * 125 - 0x2000_0000_0000_0000 * q);
  }

  /** One millisecond above it, a run of 385 microseconds is judged over the limit of some 585 thousand years. */
  lemma ShortRunTimesOut(m: Machine, c: Container, s: Submission, input: string, expected: string)
    requires s.cpuTimeLimitMilliSeconds == MAX_EXACT_LIMIT + 1
    requires m.run(c, input).exitCode == 0 && m.run(c, input).cpuTimeElapsedMicroSeconds == 385
    ensures JudgeOne(m, c, s, input, expected).verdict == TL
    ensures m.run(c, input).cpuTimeElapsedMicroSeconds < s.cpuTimeLimitMilliSeconds * 1000
  {
    assert LimitMicroSeconds(MAX_EXACT_LIMIT + 1) == 384;
  }

  // ----- Reports of many tests

  predicate AllOk(report: seq<Report>) {
    forall i :: 0 <= i < |report| ==> report[i].verdict == OK
  }

  type Judging = (string, string) -> Report

  /** The simple judge: walk the tests from `i` on and stop after the first that is not OK. */
  function JudgeFrom(judge: Judging, tests: TaskTests, i: nat): seq<Report>
    requires |tests.inputTests| <= |tests.outputTests|
    decreases |tests.inputTests| - i
  {
    if i >= |tests.inputTests| then []
    else
      var first := judge(tests.inputTests[i], tests.outputTests[i]);
      if first.verdict == OK then [first] + JudgeFrom(judge, tests, i + 1) else [first]
  }

  function JudgeFlat(judge: Judging, tests: TaskTests): seq<Report>
    requires |tests.inputTests| <= |tests.outputTests|
  {
    JudgeFrom(judge, tests, 0)
  }

  /** What the simple judge's report says: entry by entry the tests' own reports, up to the first not OK. */
  lemma {:induction false} FlatMeaning(judge: Judging, tests: TaskTests, i: nat)
    requires |tests.inputTests| <= |tests.outputTests| && i <= |tests.inputTests|
    ensures var r, n := JudgeFrom(judge, tests, i), |tests.inputTests|;
            && |r| <= n - i && (i < n ==> r != [])
            && (forall j :: 0 <= j < |r| ==> r[j] == judge(tests.inputTests[i + j], tests.outputTests[i + j]))
            && (forall j :: 0 <= j < |r| - 1 ==> r[j].verdict == OK)
            && (AllOk(r) <==> forall j :: i <= j < n ==> judge(tests.inputTests[j], tests.outputTests[j]).verdict == OK)
            && (AllOk(r) ==> |r| == n - i)
    decreases |tests.inputTests| - i
  {
    if i < |tests.inputTests| {
      FlatMeaning(judge, tests, i + 1);
      var first := judge(tests.inputTests[i], tests.outputTests[i]);
      var rest := JudgeFrom(judge, tests, i + 1);
      var r := JudgeFrom(judge, tests, i);
      if first.verdict == OK {
        assert r == [first] + rest;
        assert AllOk(r) <==> AllOk(rest) by {
          assert forall j :: 0 <= j < |rest| ==> rest[j] == r[j + 1];
        }
      } else {
        assert !AllOk(r) by {
          assert r[0].verdict != OK;
        }
      }
    }
  }

  /** Go on with `rest` only if everything so far was OK. */
  function Then(report: seq<Report>, rest: seq<Report>): seq<Report> {
    if AllOk(report) then report + rest else report
  }

  const LOST := Report(0, 0, CRASH)

  /** The batch loop: each batch in turn, a batch that cannot be fetched (None) ends the report. */
  function JudgeBatches(judge: Judging, fetched: seq<Option<TaskTests>>): seq<Report>
    requires AllPairedBatches(fetched)
  {
    if fetched == [] then []
    else
      match fetched[0]
      case None => [LOST]
      case Some(tests) => Then(JudgeFlat(judge, tests), JudgeBatches(judge, fetched[1..]))
  }

  ghost predicate PairedBatch(batch: Option<TaskTests>) {
    batch.Some? ==> Paired(batch.value)
  }

  ghost predicate AllPairedBatches(fetched: seq<Option<TaskTests>>) {
    forall b :: 0 <= b < |fetched| ==> PairedBatch(fetched[b])
  }

  /** The tests of the batches before the first that cannot be fetched, in one list. */
  function Joined(fetched: seq<Option<TaskTests>>): (tests: TaskTests)
    requires AllPairedBatches(fetched)
    ensures Paired(tests)
  {
    if fetched == [] || fetched[0].None? then TaskTests([], [])
    else
      var rest := Joined(fetched[1..]);
      assert PairedBatch(fetched[0]);
      TaskTests(fetched[0].value.inputTests + rest.inputTests, fetched[0].value.outputTests + rest.outputTests)
  }

  lemma {:induction false} JudgeAppend(judge: Judging, a: TaskTests, b: TaskTests, i: nat)
    requires Paired(a) && Paired(b) && i <= |a.inputTests|
    ensures JudgeFrom(judge, TaskTests(a.inputTests + b.inputTests, a.outputTests + b.outputTests), i) ==
            Then(JudgeFrom(judge, a, i), JudgeFrom(judge, b, 0))
    decreases |a.inputTests| - i
  {
    var both := TaskTests(a.inputTests + b.inputTests, a.outputTests + b.outputTests);
    if i < |a.inputTests| {
      JudgeAppend(judge, a, b, i + 1);
      var first := judge(a.inputTests[i], a.outputTests[i]);
      if first.verdict == OK {
        ThenCons(first, JudgeFrom(judge, a, i + 1), JudgeFrom(judge, b, 0));
      } else {
        assert !AllOk([first]) by {
          assert [first][0].verdict != OK;
        }
      }
    } else {
      JudgeShift(judge, both, b, |a.inputTests|, 0);
    }
  }

  lemma ThenCons(first: Report, report: seq<Report>, rest: seq<Report>)
    requires first.verdict == OK
    ensures Then([first] + report, rest) == [first] + Then(report, rest)
  {
    assert AllOk([first] + report) <==> AllOk(report) by {
      assert forall j :: 0 <= j < |report| ==> report[j] == ([first] + report)[j + 1];
    }
    assert ([first] + report) + rest == [first] + (report + rest);
  }

  lemma {:induction false} JudgeShift(judge: Judging, both: TaskTests, b: TaskTests, skip: nat, i: nat)
    requires Paired(b) && Paired(both) && |both.inputTests| == skip + |b.inputTests| && i <= |b.inputTests|
    requires both.inputTests[skip..] == b.inputTests && both.outputTests[skip..] == b.outputTests
    ensures JudgeFrom(judge, both, skip + i) == JudgeFrom(judge, b, i)
    decreases |b.inputTests| - i
  {
    if i < |b.inputTests| {
      assert both.inputTests[skip + i] == b.inputTests[i] && both.outputTests[skip + i] == b.outputTests[i];
      JudgeShift(judge, both, b, skip, i + 1);
    }
  }

  lemma ThenAssoc(a: seq<Report>, b: seq<Report>, c: seq<Report>)
    ensures Then(Then(a, b), c) == Then(a, Then(b, c))
  {
    if AllOk(a) {
      assert AllOk(a + b) <==> AllOk(b) by {
        assert forall j :: 0 <= j < |b| ==> b[j] == (a + b)[|a| + j];
      }
      assert (a + b) + c == a + (b + c);
    }
  }

  predicate AllFetched(fetched: seq<Option<TaskTests>>) {
    forall b :: 0 <= b < |fetched| ==> fetched[b].Some?
  }

  /**
   The batch loop is the simple judge on the joined tests; if a batch could not be fetched and
   everything before it was OK, one CRASH entry follows.
   */
  lemma {:induction false} BatchesAreFlat(judge: Judging, fetched: seq<Option<TaskTests>>)
    requires AllPairedBatches(fetched)
    ensures JudgeBatches(judge, fetched) ==
            Then(JudgeFlat(judge, Joined(fetched)), if AllFetched(fetched) then [] else [Report(0, 0, CRASH)])
  {
    if fetched != [] && fetched[0].Some? {
      BatchesAreFlat(judge, fetched[1..]);
      assert PairedBatch(fetched[0]);
      var tests, rest := fetched[0].value, Joined(fetched[1..]);
      JudgeAppend(judge, tests, rest, 0);
      assert AllFetched(fetched) <==> AllFetched(fetched[1..]) by {
        assert forall b :: 0 <= b < |fetched[1..]| ==> fetched[1..][b] == fetched[b + 1];
      }
      ThenAssoc(JudgeFlat(judge, tests), JudgeFlat(judge, rest), if AllFetched(fetched) then [] else [LOST]);
    }
  }

  /**
   The shape of a batch report: all entries but the last are OK, and the whole is OK exactly when
   every batch was fetched and every test passed.
   */
  lemma BatchReportMeaning(judge: Judging, fetched: seq<Option<TaskTests>>)
    requires AllPairedBatches(fetched)
    ensures var r, tests := JudgeBatches(judge, fetched), Joined(fetched);
            && (forall j :: 0 <= j < |r| - 1 ==> r[j].verdict == OK)
            && (AllOk(r) <==>
                  AllFetched(fetched)
                  && forall j :: 0 <= j < |tests.inputTests| ==>
                       judge(tests.inputTests[j], tests.outputTests[j]).verdict == OK)
            && (|tests.inputTests| > 0 || !AllFetched(fetched) ==> r != [])
  {
    hide JudgeBatches, Joined;
    BatchesAreFlat(judge, fetched);
    FlatMeaning(judge, Joined(fetched), 0);
    var r := JudgeBatches(judge, fetched);
    if !AllFetched(fetched) {
      assert r[|r| - 1].verdict != OK;
    }
  }
}
