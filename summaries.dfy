/** The CTRF summary and `updateTotalsFromTestResult`'s running counts. */
module Summaries {
  import opened Statuses
  import opened JestResults
  import opened Options
  import opened TestRecords

  /** `summary`: the total, one counter per state, and the run's start and stop times. */
  datatype Summary = Summary(
    tests: int, passed: int, failed: int, pending: int, skipped: int, other: int,
    start: int, stop: int)

  /** The summary the constructor creates: everything 0. */
  const ZeroSummary := Summary(0, 0, 0, 0, 0, 0, 0, 0)

  /** `summary[state]` */
  function Counter(s: Summary, st: CtrfTestState): int {
    match st
    case Passed => s.passed
    case Failed => s.failed
    case Pending => s.pending
    case Skipped => s.skipped
    case Other => s.other
  }

  /** `summary[state] = v`: that counter changes, nothing else does. */
  function WithCounter(s: Summary, st: CtrfTestState, v: int): (r: Summary)
    ensures Counter(r, st) == v
    ensures forall st' :: st' != st ==> Counter(r, st') == Counter(s, st')
    ensures r.tests == s.tests && r.start == s.start && r.stop == s.stop
  {
    match st
    case Passed => s.(passed := v)
    case Failed => s.(failed := v)
    case Pending => s.(pending := v)
    case Skipped => s.(skipped := v)
    case Other => s.(other := v)
  }

  /** The total is the sum of the five counters. */
  predicate Consistent(s: Summary) {
    s.tests == s.passed + s.failed + s.pending + s.skipped + s.other
  }

  /** One step of the loop: `summary[ctrfStatus]++` then `summary.tests++`. */
  function CountCase(s: Summary, c: TestCase): (r: Summary)
    ensures r.tests == s.tests + 1
    ensures Counter(r, MapStatus(c.status)) == Counter(s, MapStatus(c.status)) + 1
    ensures forall st :: st != MapStatus(c.status) ==> Counter(r, st) == Counter(s, st)
    ensures r.start == s.start && r.stop == s.stop
  {
    var st := MapStatus(c.status);
    WithCounter(s, st, Counter(s, st) + 1).(tests := s.tests + 1)
  }

  /** The summary after counting `cases` in order. */
  function Tally(s: Summary, cases: seq<TestCase>): Summary {
    if |cases| == 0 then s else CountCase(Tally(s, cases[..|cases| - 1]), cases[|cases| - 1])
  }

  /** Counting a batch raises the total by its size, each counter by the
      number of cases mapped to its state, and leaves the times alone. */
  lemma {:induction false} TallyCounts(s: Summary, cases: seq<TestCase>)
    ensures Tally(s, cases).tests == s.tests + |cases|
    ensures forall st :: Counter(Tally(s, cases), st) == Counter(s, st) + Occurrences(cases, st)
    ensures Tally(s, cases).start == s.start && Tally(s, cases).stop == s.stop
  {
    if |cases| > 0 {
      TallyCounts(s, cases[..|cases| - 1]);
    }
  }

  /** Counting keeps the total equal to the sum of the counters. */
  lemma TallyConsistent(s: Summary, cases: seq<TestCase>)
    requires Consistent(s)
    ensures Consistent(Tally(s, cases))
  {
    TallyCounts(s, cases);
    OccurrencesSum(cases);
    var t := Tally(s, cases);
    assert t.passed == Counter(t, Passed) && t.failed == Counter(t, Failed) && t.pending == Counter(t, Pending)
        && t.skipped == Counter(t, Skipped) && t.other == Counter(t, Other);
  }

  /** A summary whose counters agree with a record list is consistent. */
  lemma AgreementIsConsistent(s: Summary, records: seq<CtrfTest>)
    requires s.tests == |records|
    requires forall st :: Counter(s, st) == RecordCount(records, st)
    ensures Consistent(s)
  {
    RecordCountsSum(records);
    assert s.passed == Counter(s, Passed) && s.failed == Counter(s, Failed) && s.pending == Counter(s, Pending)
        && s.skipped == Counter(s, Skipped) && s.other == Counter(s, Other);
  }

  /** Appending a batch's records and counting its cases keep the summary in
      agreement with the records. */
  lemma TallyAgreesWithRecords(s: Summary, records: seq<CtrfTest>, config: ReporterConfigOptions,
                               testFilePath: string, cases: seq<TestCase>)
    requires s.tests == |records|
    requires forall st :: Counter(s, st) == RecordCount(records, st)
    ensures Tally(s, cases).tests == |records + BuildRecords(config, testFilePath, cases)|
    ensures forall st :: Counter(Tally(s, cases), st) == RecordCount(records + BuildRecords(config, testFilePath, cases), st)
    ensures Consistent(Tally(s, cases))
  {
    var batch := BuildRecords(config, testFilePath, cases);
    TallyCounts(s, cases);
    BuildRecordsIndex(config, testFilePath, cases);
    forall st ensures Counter(Tally(s, cases), st) == RecordCount(records + batch, st) {
      RecordCountConcat(records, batch, st);
      RecordCountOfBatch(config, testFilePath, cases, st);
    }
    AgreementIsConsistent(Tally(s, cases), records + batch);
  }

  /** The counts the reporter's own tests expect for one case of each Jest status. */
  lemma SingleCaseTally(c: TestCase)
    ensures c.status == "passed" ==> Tally(ZeroSummary, [c]) == ZeroSummary.(tests := 1, passed := 1)
    ensures c.status == "failed" ==> Tally(ZeroSummary, [c]) == ZeroSummary.(tests := 1, failed := 1)
    ensures c.status == "skipped" ==> Tally(ZeroSummary, [c]) == ZeroSummary.(tests := 1, skipped := 1)
    ensures c.status == "pending" ==> Tally(ZeroSummary, [c]) == ZeroSummary.(tests := 1, pending := 1)
    ensures c.status in {"todo", "disabled", "focused"} ==> Tally(ZeroSummary, [c]) == ZeroSummary.(tests := 1, other := 1)
  {
    assert [c][..0] == [];
  }
}
