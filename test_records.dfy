/** The CTRF test record and `updateCtrfTestResultsFromTestResult`'s
    per-case construction, in minimal or detailed mode. */
module TestRecords {
  import opened Wrappers
  import opened Statuses
  import opened Options
  import opened JestResults
  import opened FailureDetails
  import opened SuitePaths

  /** `CtrfTest`. The three required properties, then the detailed ones,
      `None` where the property is never assigned or assigned `undefined`
      (both are left out of the written report). `testType` is `type`. */
  datatype CtrfTest = CtrfTest(
    name: string,
    duration: int,
    status: CtrfTestState,
    message: Option<string>,
    trace: Option<string>,
    rawStatus: Option<string>,
    testType: Option<string>,
    filePath: Option<string>,
    retries: Option<int>,
    flaky: Option<bool>,
    suite: Option<string>)

  /** No detailed property is set. */
  predicate IsMinimalRecord(t: CtrfTest) {
    && t.message.None? && t.trace.None? && t.rawStatus.None? && t.testType.None?
    && t.filePath.None? && t.retries.None? && t.flaky.None? && t.suite.None?
  }

  /** Detailed mode is on only when the resolved `minimal` option is exactly `false`. */
  predicate IsDetailed(config: ReporterConfigOptions) {
    config.minimal == Some(false)
  }

  /** The record pushed for one test case of the file at `testFilePath`. */
  function BuildTest(config: ReporterConfigOptions, testFilePath: string, c: TestCase): (t: CtrfTest)
    ensures t.name == c.fullName
    ensures c.duration.Some? ==> t.duration == c.duration.value
    ensures c.duration.None? ==> t.duration == 0
    ensures t.status == MapStatus(c.status)
    ensures !IsDetailed(config) ==> IsMinimalRecord(t)
    ensures IsDetailed(config) ==>
      && t.rawStatus == Some(c.status)
      && t.testType == Some(config.testType.GetOr(DefaultTestType))
      && t.filePath == Some(testFilePath)
      && t.retries == Some(c.invocations.GetOr(1) - 1)
      && t.flaky == Some(t.status == Passed && t.retries.value > 0)
      && t.suite == Some(BuildSuitePath(testFilePath, c.ancestorTitles))
      && (t.message.Some? <==> t.status == Failed && c.failureMessages.Some?)
      && t.trace.Some? == t.message.Some?
      && FailureParts(t.message, t.trace) == ExtractFailureDetails(c)
  {
    var t := CtrfTest(c.fullName, c.duration.GetOr(0), MapStatus(c.status),
                      None, None, None, None, None, None, None, None);
    if IsDetailed(config) then
      t.(message := ExtractFailureDetails(c).message,
         trace := ExtractFailureDetails(c).trace,
         rawStatus := Some(c.status),
         testType := Some(config.testType.GetOr(DefaultTestType)),
         filePath := Some(testFilePath),
         retries := Some(c.invocations.GetOr(1) - 1),
         flaky := Some(c.status == "passed" && c.invocations.GetOr(1) - 1 > 0),
         suite := Some(BuildSuitePath(testFilePath, c.ancestorTitles)))
    else
      t
  }

  /** The records a batch appends, one per case, in batch order. */
  function BuildRecords(config: ReporterConfigOptions, testFilePath: string, cases: seq<TestCase>): seq<CtrfTest>
  {
    if |cases| == 0 then []
    else BuildRecords(config, testFilePath, cases[..|cases| - 1]) + [BuildTest(config, testFilePath, cases[|cases| - 1])]
  }

  /** Exactly one record per case, and the `k`th record is built from the `k`th case. */
  lemma {:induction false} BuildRecordsIndex(config: ReporterConfigOptions, testFilePath: string, cases: seq<TestCase>)
    ensures |BuildRecords(config, testFilePath, cases)| == |cases|
    ensures forall k :: 0 <= k < |cases| ==>
      BuildRecords(config, testFilePath, cases)[k] == BuildTest(config, testFilePath, cases[k])
  {
    if |cases| > 0 {
      var init := cases[..|cases| - 1];
      BuildRecordsIndex(config, testFilePath, init);
      assert forall k :: 0 <= k < |init| ==> init[k] == cases[k];
    }
  }

  /** In minimal mode no record of a batch has a detailed property. */
  lemma MinimalBatch(config: ReporterConfigOptions, testFilePath: string, cases: seq<TestCase>)
    requires !IsDetailed(config)
    ensures forall t :: t in BuildRecords(config, testFilePath, cases) ==> IsMinimalRecord(t)
  {
    BuildRecordsIndex(config, testFilePath, cases);
  }

  /** The retry and flakiness examples: three invocations of a passing test
      are two retries and flaky; one invocation is neither; a failing test is never flaky. */
  lemma FlakyExamples(config: ReporterConfigOptions, testFilePath: string, c: TestCase)
    requires IsDetailed(config)
    ensures c.status == "passed" && c.invocations == Some(3) ==>
      BuildTest(config, testFilePath, c).retries == Some(2) && BuildTest(config, testFilePath, c).flaky == Some(true)
    ensures c.status == "passed" && c.invocations == Some(1) ==>
      BuildTest(config, testFilePath, c).retries == Some(0) && BuildTest(config, testFilePath, c).flaky == Some(false)
    ensures c.status == "failed" ==> BuildTest(config, testFilePath, c).flaky == Some(false)
  {
  }

  /** The number of records whose status is `st`. */
  function RecordCount(records: seq<CtrfTest>, st: CtrfTestState): (n: nat)
    ensures n <= |records|
  {
    if |records| == 0 then 0
    else RecordCount(records[..|records| - 1], st) + (if records[|records| - 1].status == st then 1 else 0)
  }

  /** The number of cases whose mapped status is `st`. */
  function Occurrences(cases: seq<TestCase>, st: CtrfTestState): (n: nat)
    ensures n <= |cases|
  {
    if |cases| == 0 then 0
    else Occurrences(cases[..|cases| - 1], st) + (if MapStatus(cases[|cases| - 1].status) == st then 1 else 0)
  }

  lemma {:induction false} RecordCountConcat(a: seq<CtrfTest>, b: seq<CtrfTest>, st: CtrfTestState)
    ensures RecordCount(a + b, st) == RecordCount(a, st) + RecordCount(b, st)
  {
    if |b| == 0 {
      assert a + b == a;
    } else {
      var b' := b[..|b| - 1];
      RecordCountConcat(a, b', st);
      assert (a + b)[..|a + b| - 1] == a + b';
    }
  }

  /** A batch's records carry, state by state, the mapped statuses of its cases. */
  lemma {:induction false} RecordCountOfBatch(config: ReporterConfigOptions, testFilePath: string, cases: seq<TestCase>, st: CtrfTestState)
    ensures RecordCount(BuildRecords(config, testFilePath, cases), st) == Occurrences(cases, st)
  {
    if |cases| > 0 {
      var init := cases[..|cases| - 1];
      RecordCountOfBatch(config, testFilePath, init, st);
      var rs := BuildRecords(config, testFilePath, init);
      var last := BuildTest(config, testFilePath, cases[|cases| - 1]);
      assert (rs + [last])[..|rs|] == rs;
    }
  }

  /** Every record is counted under exactly one state. */
  lemma {:induction false} RecordCountsSum(records: seq<CtrfTest>)
    ensures RecordCount(records, Passed) + RecordCount(records, Failed) + RecordCount(records, Pending)
          + RecordCount(records, Skipped) + RecordCount(records, Other) == |records|
  {
    if |records| > 0 {
      RecordCountsSum(records[..|records| - 1]);
    }
  }

  /** Every case is counted under exactly one state. */
  lemma {:induction false} OccurrencesSum(cases: seq<TestCase>)
    ensures Occurrences(cases, Passed) + Occurrences(cases, Failed) + Occurrences(cases, Pending)
          + Occurrences(cases, Skipped) + Occurrences(cases, Other) == |cases|
  {
    if |cases| > 0 {
      OccurrencesSum(cases[..|cases| - 1]);
    }
  }
}
