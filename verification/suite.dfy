/**
 * The suite runner of run_all_tests.py: every test-case entry is run once, its
 * result record is enriched with the entry's metadata and appended, and the
 * record's status is tallied into passed / failed / errors. Test functions are
 * an oracle `run`; timings and timestamps are left out.
 */
module Suite {
  import opened Wrappers

  const Passed := "PASSED"
  const Failed := "FAILED"
  const Error := "ERROR"
  const ExceptionPrefix := "Exception during execution: "
  /** str(KeyError('status')), raised when a returned record has no "status" key. */
  const MissingStatusError := "'status'"

  /** What calling a test function does: return a result record, whose "status"
      and "message" keys may be absent, or raise an exception (carried as str(e)). */
  datatype TestOutcome =
    | Returned(status: Option<string>, message: Option<string>)
    | Raised(error: string)

  datatype SuiteEntry = SuiteEntry(
    id: string, description: string, techniques: string,
    dynamicTesting: string, input: string, expected: string)

  /** One appended record: the entry's metadata plus the status and message. */
  datatype SuiteResult = SuiteResult(
    testId: string, description: string, techniques: string,
    dynamicTesting: string, input: string, expected: string,
    status: Option<string>, message: Option<string>)

  /** The six entries of the suite, in order. */
  const SuiteEntries: seq<SuiteEntry> := [
    SuiteEntry("TC05", "Input Validation - Không chọn phân loại",
      "Input Validation, Decision Table", "Input Validation",
      "Không chọn phân loại đối tượng",
      "Hiển thị thông báo lỗi 'Vui lòng chọn một khóa học'"),
    SuiteEntry("TC06", "Boundary Value Analysis - Số lượng = 0",
      "Boundary Value Analysis, Validation Testing", "Boundary Condition Testing",
      "Số lượng = 0",
      "Không thêm khóa học vào giỏ hàng, số lượng reset về 1"),
    SuiteEntry("TC07", "Error Handling - Số lượng = -1",
      "Equivalence Partitioning, Error Guessing", "Error Handling",
      "Số lượng = -1",
      "Không cho phép nhập số âm, số lượng reset về 1"),
    SuiteEntry("TC08", "Input Validation - Nhập chữ 'e'",
      "Equivalence Partitioning, Error Guessing", "Input Validation",
      "Số lượng = 'e'",
      "Hiển thị lỗi 'Hãy nhập số hợp lệ', không thêm sản phẩm vào giỏ hàng"),
    SuiteEntry("TC09", "Stress Testing - Số lượng = 999999",
      "Boundary Value Analysis, Stress/Load Testing", "Stress/Load Testing",
      "Số lượng = 999999",
      "Hiển thị thông báo 'Số lượng không hợp lệ', không thêm khóa học"),
    SuiteEntry("TC10", "Error Handling - Ký tự đặc biệt '!@#'",
      "Equivalence Partitioning, Error Guessing", "Error Handling",
      "Số lượng = !@#",
      "Hiển thị lỗi 'Hãy nhập số hợp lệ', không thêm sản phẩm vào giỏ hàng")
  ]

  function Enriched(e: SuiteEntry, status: Option<string>, message: Option<string>): SuiteResult {
    SuiteResult(e.id, e.description, e.techniques, e.dynamicTesting, e.input, e.expected, status, message)
  }

  function ErrorRecord(e: SuiteEntry, error: string): SuiteResult {
    Enriched(e, Some(Error), Some(ExceptionPrefix + error))
  }

  /** Reference definition: the records one entry contributes. A returned record
      without a status is appended before the lookup of its status raises, and
      the handler then appends an error record as well. */
  function ResultsFor(e: SuiteEntry, o: TestOutcome): seq<SuiteResult> {
    match o
    case Returned(Some(s), m) => [Enriched(e, Some(s), m)]
    case Returned(None, m) => [Enriched(e, None, m), ErrorRecord(e, MissingStatusError)]
    case Raised(err) => [ErrorRecord(e, err)]
  }

  /** Reference definition: the records of a whole run, entry by entry. */
  function ExpectedResults(entries: seq<SuiteEntry>, run: SuiteEntry -> TestOutcome): seq<SuiteResult> {
    if |entries| == 0 then []
    else ExpectedResults(entries[..|entries| - 1], run) + ResultsFor(entries[|entries| - 1], run(entries[|entries| - 1]))
  }

  /** Number of records whose status is exactly s. */
  function CountStatus(rs: seq<SuiteResult>, s: string): nat {
    if |rs| == 0 then 0
    else CountStatus(rs[..|rs| - 1], s) + (if rs[|rs| - 1].status == Some(s) then 1 else 0)
  }

  predicate IsOther(r: SuiteResult) {
    r.status.Some? && r.status.value != Passed && r.status.value != Failed
  }

  /** Number of records with a status other than PASSED and FAILED. */
  function CountOther(rs: seq<SuiteResult>): nat {
    if |rs| == 0 then 0
    else CountOther(rs[..|rs| - 1]) + (if IsOther(rs[|rs| - 1]) then 1 else 0)
  }

  /** Number of records without a status. */
  function CountMissing(rs: seq<SuiteResult>): nat {
    if |rs| == 0 then 0
    else CountMissing(rs[..|rs| - 1]) + (if rs[|rs| - 1].status.None? then 1 else 0)
  }

  /** Every record is counted exactly once: as passed, failed, other or missing. */
  lemma {:induction false} CountsPartition(rs: seq<SuiteResult>)
    ensures CountStatus(rs, Passed) + CountStatus(rs, Failed) + CountOther(rs) + CountMissing(rs) == |rs|
    decreases |rs|
  {
    if |rs| > 0 {
      CountsPartition(rs[..|rs| - 1]);
    }
  }

  lemma CountsSnoc(rs: seq<SuiteResult>, r: SuiteResult)
    ensures CountStatus(rs + [r], Passed) == CountStatus(rs, Passed) + (if r.status == Some(Passed) then 1 else 0)
    ensures CountStatus(rs + [r], Failed) == CountStatus(rs, Failed) + (if r.status == Some(Failed) then 1 else 0)
    ensures CountOther(rs + [r]) == CountOther(rs) + (if IsOther(r) then 1 else 0)
    ensures CountMissing(rs + [r]) == CountMissing(rs) + (if r.status.None? then 1 else 0)
  {
    assert (rs + [r])[..|rs|] == rs;
  }

  lemma ExpectedResultsStep(entries: seq<SuiteEntry>, i: nat, run: SuiteEntry -> TestOutcome)
    requires i < |entries|
    ensures ExpectedResults(entries[..i + 1], run) == ExpectedResults(entries[..i], run) + ResultsFor(entries[i], run(entries[i]))
  {
    assert entries[..i + 1][..i] == entries[..i];
  }

  /** Counting distributes over concatenation. */
  lemma {:induction false} CountsAppend(a: seq<SuiteResult>, b: seq<SuiteResult>)
    ensures CountStatus(a + b, Passed) == CountStatus(a, Passed) + CountStatus(b, Passed)
    ensures CountStatus(a + b, Failed) == CountStatus(a, Failed) + CountStatus(b, Failed)
    ensures CountOther(a + b) == CountOther(a) + CountOther(b)
    ensures CountMissing(a + b) == CountMissing(a) + CountMissing(b)
    decreases |b|
  {
    if |b| == 0 {
      assert a + b == a;
    } else {
      var init := b[..|b| - 1];
      assert (a + b)[..|a + b| - 1] == a + init;
      assert (a + b)[|a + b| - 1] == b[|b| - 1];
      CountsAppend(a, init);
    }
  }

  /** One pass of the loop body (the try/except of run_all_tests): the records
      appended for one entry and what they add to each counter. */
  method RunEntry(entry: SuiteEntry, outcome: TestOutcome) returns (records: seq<SuiteResult>, passed: nat, failed: nat, errors: nat)
    ensures records == ResultsFor(entry, outcome)
    ensures passed == CountStatus(records, Passed)
    ensures failed == CountStatus(records, Failed)
    ensures errors == CountOther(records)
    ensures outcome.Raised? ==> errors == 1 && passed == failed == 0
  {
    passed, failed, errors := 0, 0, 0;
    if outcome.Raised? {
      records := [ErrorRecord(entry, outcome.error)];
      errors := errors + 1;
    } else {
      var record := Enriched(entry, outcome.status, outcome.message);
      records := [record];
      if outcome.status == Some(Passed) {
        passed := passed + 1;
      } else if outcome.status == Some(Failed) {
        failed := failed + 1;
      } else if outcome.status.Some? {
        errors := errors + 1;
      } else {
        // reading the missing status raises, and the handler appends an error record
        records := records + [ErrorRecord(entry, MissingStatusError)];
        errors := errors + 1;
        CountsSnoc([record], ErrorRecord(entry, MissingStatusError));
      }
    }
    CountsSnoc([], records[0]);
    assert [] + [records[0]] == [records[0]];
  }

  /** The loop of run_all_tests: run each entry, append its record(s), tally. */
  method RunAllTests(entries: seq<SuiteEntry>, run: SuiteEntry -> TestOutcome) returns (results: seq<SuiteResult>, passed: nat, failed: nat, errors: nat)
    ensures results == ExpectedResults(entries, run)
    ensures passed == CountStatus(results, Passed)
    ensures failed == CountStatus(results, Failed)
    ensures errors == CountOther(results)
    ensures passed + failed + errors + CountMissing(results) == |results|
  {
    results := [];
    passed, failed, errors := 0, 0, 0;
    for i := 0 to |entries|
      invariant results == ExpectedResults(entries[..i], run)
      invariant passed == CountStatus(results, Passed)
      invariant failed == CountStatus(results, Failed)
      invariant errors == CountOther(results)
    {
      var records, p, f, e := RunEntry(entries[i], run(entries[i]));
      CountsAppend(results, records);
      ExpectedResultsStep(entries, i, run);
      results := results + records;
      passed, failed, errors := passed + p, failed + f, errors + e;
    }
    assert entries[..|entries|] == entries;
    CountsPartition(results);
  }

  /** Every outcome that returns a record carries a status. */
  ghost predicate AlwaysStatused(entries: seq<SuiteEntry>, run: SuiteEntry -> TestOutcome) {
    forall i :: 0 <= i < |entries| ==> run(entries[i]).Returned? ==> run(entries[i]).status.Some?
  }

  /** When every returned record carries a status, each entry contributes exactly
      one record, at its own position, with its metadata copied; an exception
      gives an ERROR record carrying the exception text. */
  lemma {:induction false} OneRecordPerEntry(entries: seq<SuiteEntry>, run: SuiteEntry -> TestOutcome)
    requires AlwaysStatused(entries, run)
    ensures |ExpectedResults(entries, run)| == |entries|
    ensures forall i :: 0 <= i < |entries| ==> RecordOf(entries[i], run(entries[i]), ExpectedResults(entries, run)[i])
    decreases |entries|
  {
    if |entries| > 0 {
      var init := entries[..|entries| - 1];
      assert AlwaysStatused(init, run) by {
        forall i | 0 <= i < |init| ensures run(init[i]).Returned? ==> run(init[i]).status.Some? {
          assert init[i] == entries[i];
        }
      }
      OneRecordPerEntry(init, run);
      var last := entries[|entries| - 1];
      assert run(last).Returned? ==> run(last).status.Some?;
      forall i | 0 <= i < |entries|
        ensures RecordOf(entries[i], run(entries[i]), ExpectedResults(entries, run)[i])
      {
        if i < |init| {
          assert entries[i] == init[i];
        }
      }
    }
  }

  /** The record an entry produces for a given outcome. */
  ghost predicate RecordOf(e: SuiteEntry, o: TestOutcome, r: SuiteResult) {
    && r.testId == e.id && r.description == e.description && r.techniques == e.techniques
    && r.dynamicTesting == e.dynamicTesting && r.input == e.input && r.expected == e.expected
    && (o.Returned? ==> r.status == o.status && r.message == o.message)
    && (o.Raised? ==> r.status == Some(Error) && r.message == Some(ExceptionPrefix + o.error))
  }

  /** Without status-less records the three counters add up to the number of results. */
  lemma CountersCoverResults(entries: seq<SuiteEntry>, run: SuiteEntry -> TestOutcome)
    requires AlwaysStatused(entries, run)
    ensures var rs := ExpectedResults(entries, run);
      CountStatus(rs, Passed) + CountStatus(rs, Failed) + CountOther(rs) == |rs| == |entries|
  {
    var rs := ExpectedResults(entries, run);
    OneRecordPerEntry(entries, run);
    CountsPartition(rs);
    NoMissing(rs);
  }

  lemma {:induction false} NoMissing(rs: seq<SuiteResult>)
    requires forall i :: 0 <= i < |rs| ==> rs[i].status.Some?
    ensures CountMissing(rs) == 0
    decreases |rs|
  {
    if |rs| > 0 {
      NoMissing(rs[..|rs| - 1]);
    }
  }

  /** A record without a status is followed by an ERROR record: that entry adds
      two results but only one error, so the counters then fall short of the total. */
  lemma MissingStatusCountsOnce(e: SuiteEntry, m: Option<string>)
    ensures var rs := ResultsFor(e, Returned(None, m));
      |rs| == 2 && rs[1].status == Some(Error)
      && CountOther(rs) == 1 && CountMissing(rs) == 1
      && CountStatus(rs, Passed) + CountStatus(rs, Failed) + CountOther(rs) < |rs|
  {
    var rs := ResultsFor(e, Returned(None, m));
    CountsSnoc([], rs[0]);
    CountsSnoc([rs[0]], rs[1]);
    assert [] + [rs[0]] == [rs[0]];
    assert [rs[0]] + [rs[1]] == rs;
  }

  /** The suite as shipped has six entries, TC05 to TC10 in order, and yields six results. */
  lemma SixResults(run: SuiteEntry -> TestOutcome)
    requires AlwaysStatused(SuiteEntries, run)
    ensures |SuiteEntries| == 6
    ensures forall i :: 0 <= i < 6 ==> SuiteEntries[i].id == ["TC05", "TC06", "TC07", "TC08", "TC09", "TC10"][i]
    ensures |ExpectedResults(SuiteEntries, run)| == 6
  {
    OneRecordPerEntry(SuiteEntries, run);
  }
}
