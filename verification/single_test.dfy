/**
 * The single-test entry point of run_single_test.py: the --test argument is
 * padded with str.zfill(2), looked up in the table of known test cases, and the
 * matching test function (an oracle `run`) decides the exit code.
 */
module SingleTest {
  import opened Wrappers
  import opened PyText
  import Suite

  /** A run of n '0' characters. */
  function Zeros(n: nat): (z: string)
    ensures |z| == n
    ensures forall i :: 0 <= i < n ==> z[i] == '0'
  {
    seq(n, _ => '0')
  }

  predicate IsSign(c: char) {
    c == '+' || c == '-'
  }

  /** Python str.zfill: pad with '0's to the given width, after a leading sign. */
  function ZFill(s: string, width: int): (r: string)
    ensures |r| == if width > |s| then width else |s|
    ensures width <= |s| ==> r == s
  {
    if width <= |s| then s
    else if |s| > 0 && IsSign(s[0]) then [s[0]] + Zeros(width - |s|) + s[1..]
    else Zeros(width - |s|) + s
  }

  /** Padding only inserts '0's, right after the sign when there is one; the
      rest of the string is kept in order. */
  lemma ZFillInsertsZeros(s: string, width: int)
    ensures var r := ZFill(s, width);
      var p := if |s| > 0 && IsSign(s[0]) then 1 else 0;
      var k := |r| - |s|;
      r[..p] == s[..p] && r[p..p + k] == Zeros(k) && r[p + k..] == s[p..]
  {
  }

  /** Leading zeros do not change a digit string's value. */
  lemma {:induction false} LeadingZerosKeepValue(k: nat, d: string)
    requires AllDigits(d)
    ensures AllDigits(Zeros(k) + d)
    ensures DigitsValue(Zeros(k) + d) == DigitsValue(d)
    decreases |d|
  {
    var z := Zeros(k) + d;
    if |d| == 0 {
      assert z == Zeros(k);
      ZerosValue(k);
    } else {
      assert z[..|z| - 1] == Zeros(k) + d[..|d| - 1];
      LeadingZerosKeepValue(k, d[..|d| - 1]);
    }
  }

  lemma {:induction false} ZerosValue(k: nat)
    ensures AllDigits(Zeros(k))
    ensures DigitsValue(Zeros(k)) == 0
  {
    if k > 0 {
      assert Zeros(k)[..k - 1] == Zeros(k - 1);
      ZerosValue(k - 1);
    }
  }

  /** zfill keeps an integer literal an integer literal, with the same value. */
  lemma ZFillKeepsValue(s: string, width: int)
    requires IsIntegerLiteral(s)
    ensures IsIntegerLiteral(ZFill(s, width))
    ensures ParseInt(ZFill(s, width)) == ParseInt(s)
  {
    var r := ZFill(s, width);
    if width > |s| {
      var k := width - |s|;
      if s[0] == '-' {
        LeadingZerosKeepValue(k, s[1..]);
        assert r[1..] == Zeros(k) + s[1..];
      } else {
        LeadingZerosKeepValue(k, s);
        assert r == Zeros(k) + s;
      }
    }
  }

  /** The --test argument as looked up. */
  function NormaliseId(arg: string): (id: string)
    ensures |id| == if |arg| < 2 then 2 else |arg|
    ensures |arg| >= 2 ==> id == arg
  {
    ZFill(arg, 2)
  }

  lemma NormaliseExamples()
    ensures NormaliseId("5") == "05"
    ensures NormaliseId("") == "00"
    ensures NormaliseId("-") == "-0"
    ensures NormaliseId("+") == "+0"
    ensures NormaliseId("10") == "10"
    ensures NormaliseId("005") == "005"
  {
    assert ZFill("5", 2) == Zeros(1) + "5";
    assert ZFill("-", 2) == ['-'] + Zeros(1) + "";
    assert ZFill("+", 2) == ['+'] + Zeros(1) + "";
  }

  datatype TestInfo = TestInfo(description: string, techniques: string)

  /** The known test cases, keyed by their two-digit id. */
  const TestCases: map<string, TestInfo> := map[
    "05" := TestInfo("Input Validation - Không chọn phân loại", "Input Validation, Decision Table"),
    "06" := TestInfo("Boundary Value Analysis - Số lượng = 0", "Boundary Value Analysis, Validation Testing"),
    "07" := TestInfo("Error Handling - Số lượng = -1", "Equivalence Partitioning, Error Guessing"),
    "08" := TestInfo("Input Validation - Nhập chữ e", "Equivalence Partitioning, Error Guessing"),
    "09" := TestInfo("Stress Testing - Số lượng = 999999", "Boundary Value Analysis, Stress/Load Testing"),
    "10" := TestInfo("Error Handling - Ký tự đặc biệt", "Equivalence Partitioning, Error Guessing")
  ]

  lemma TestCaseIds()
    ensures TestCases.Keys == {"05", "06", "07", "08", "09", "10"}
    ensures forall id :: id in TestCases ==> |id| == 2 && NormaliseId(id) == id
  {
  }

  /** run_specific_test: an unknown id fails without running anything; a known
      id succeeds iff its test function returns a record whose status is PASSED
      (the message is read first, so a record without one fails too). */
  function RunSpecificTest(testId: string, run: string -> Suite.TestOutcome): (ok: bool)
    ensures ok ==> testId in TestCases
    ensures ok <==> (testId in TestCases && run(testId).Returned?
                     && run(testId).status == Some(Suite.Passed) && run(testId).message.Some?)
  {
    if testId !in TestCases then false
    else match run(testId)
      case Raised(_) => false
      case Returned(status, message) =>
        status.Some? && message.Some? && status.value == Suite.Passed
  }

  /** The answer for an unknown id does not depend on the test functions. */
  lemma UnknownIdIgnoresOracle(testId: string, run1: string -> Suite.TestOutcome, run2: string -> Suite.TestOutcome)
    requires testId !in TestCases
    ensures RunSpecificTest(testId, run1) == RunSpecificTest(testId, run2) == false
  {
  }

  /** For a known id, the single runner succeeds exactly when the suite runner
      would record the same outcome as PASSED and the record carries a message. */
  lemma SingleAgreesWithSuite(testId: string, run: string -> Suite.TestOutcome, e: Suite.SuiteEntry)
    requires testId in TestCases
    ensures RunSpecificTest(testId, run) <==>
      && Suite.ResultsFor(e, run(testId))[0].status == Some(Suite.Passed)
      && (run(testId).Returned? ==> run(testId).message.Some?)
  {
  }

  /** The one place the runners part: a PASSED record without a message is a pass
      for the suite runner and a failure for the single runner, which reads the
      message before it compares the status. */
  lemma RunnersDisagreeWithoutMessage(testId: string, run: string -> Suite.TestOutcome, e: Suite.SuiteEntry)
    requires testId in TestCases && run(testId) == Suite.Returned(Some(Suite.Passed), None)
    ensures Suite.ResultsFor(e, run(testId)) == [Suite.Enriched(e, Some(Suite.Passed), None)]
    ensures !RunSpecificTest(testId, run)
  {
  }

  /** main(): an empty --test argument is skipped (exit 0); otherwise the exit
      code is 0 on success and 1 on failure. */
  function MainExitCode(arg: string, run: string -> Suite.TestOutcome): (code: int)
    ensures code == 0 || code == 1
    ensures code == 0 <==> arg == "" || RunSpecificTest(NormaliseId(arg), run)
  {
    if arg == "" then 0
    else if RunSpecificTest(NormaliseId(arg), run) then 0
    else 1
  }

  /** "5" and "05" select the same test. */
  lemma PaddedAndUnpaddedAgree(run: string -> Suite.TestOutcome)
    ensures MainExitCode("5", run) == MainExitCode("05", run)
  {
    NormaliseExamples();
  }

  /** "005" is not padded down, is unknown, and so always exits with 1. */
  lemma ThreeDigitIdRejected(run: string -> Suite.TestOutcome)
    ensures MainExitCode("005", run) == 1
  {
    NormaliseExamples();
    assert "005" !in TestCases by {
      TestCaseIds();
    }
  }
}
