/**
 The verdict logic of the comprehensive boundary-value test
 (tests/test_case_bva_comprehensive.py): how one observation becomes a behaviour
 label and a PASSED/FAILED status, and how results are tallied per boundary type.

 The page is not modelled: the text of the first error element found (or `None`
 when none is found) and the field's value after typing are parameters.
 */
module BvaVerdict {
  import opened Wrappers
  import opened PyText

  const Passed := "PASSED"
  const Failed := "FAILED"
  const Accepted := "ACCEPTED"
  const NoValidationResponse := "NO_VALIDATION_RESPONSE"
  const ErrorMessagePrefix := "ERROR_MESSAGE: "
  const FieldResetPrefix := "FIELD_RESET: "

  /** The dictionary `analyze_boundary_result` returns. */
  datatype BvaResult = BvaResult(
    testId: string,
    input: PyValue,
    expected: string,
    actual: string,
    status: string,
    boundaryType: string,
    fieldValue: string,
    errorMessage: Option<string>)

  /** `if error_message:` — an absent or empty message is falsy. */
  predicate HasErrorMessage(errorMessage: Option<string>) {
    errorMessage.Some? && errorMessage.value != ""
  }

  /** The field counts as reset when something was typed and the field no longer
      shows `str(input)`: the comparison is of text, so an int read back as a
      different number is a reset, and so is the same number padded with zeros. */
  predicate FieldReset(input: PyValue, fieldValue: string)
    ensures input.PyNone? ==> !FieldReset(input, fieldValue)
    ensures input.PyInt? && IsIntegerLiteral(fieldValue) && ParseInt(fieldValue) != input.i ==>
      FieldReset(input, fieldValue)
    ensures input.PyInt? && fieldValue == "0" + IntToString(input.i) ==> FieldReset(input, fieldValue)
  {
    IntToStringRoundTrip(if input.PyInt? then input.i else 0);
    if input.PyNone? then false else fieldValue != Str(input)
  }

  /** `"Accept" in expected` */
  predicate ExpectsAccept(expected: string) {
    Contains(expected, "Accept")
  }

  /** The behaviour label, in the precedence `analyze_boundary_result` uses: error
      message, then field reset, then acceptance, then no response. */
  function ActualBehavior(expected: string, fieldValue: string, errorMessage: Option<string>, reset: bool)
    : (behavior: string)
    ensures HasErrorMessage(errorMessage) ==> StartsWith(behavior, ErrorMessagePrefix)
    ensures behavior == NoValidationResponse <==>
      !HasErrorMessage(errorMessage) && !reset && !ExpectsAccept(expected)
    ensures behavior == Accepted <==> !HasErrorMessage(errorMessage) && !reset && ExpectsAccept(expected)
  {
    if HasErrorMessage(errorMessage) then
      assert (ErrorMessagePrefix + errorMessage.value)[0] == 'E';
      ErrorMessagePrefix + errorMessage.value
    else if reset then
      assert (FieldResetPrefix + fieldValue)[0] == 'F';
      FieldResetPrefix + fieldValue
    else if ExpectsAccept(expected) then Accepted
    else NoValidationResponse
  }

  /** The status: an accepting expectation passes when the page did not react, any
      other expectation passes when it did. */
  function Status(expected: string, errorMessage: Option<string>, reset: bool): (s: string)
    ensures s == Passed || s == Failed
  {
    var reacted := HasErrorMessage(errorMessage) || reset;
    if ExpectsAccept(expected) then (if !reacted then Passed else Failed)
    else (if reacted then Passed else Failed)
  }

  /** The pure part of `analyze_boundary_result`; `errorMessage` stands for the
      text of the error element the page query found. */
  function AnalyzeBoundaryResult(
    testId: string, input: PyValue, expected: string, fieldValue: string,
    boundaryType: string, errorMessage: Option<string>): (r: BvaResult)
    ensures r.status == Passed || r.status == Failed
    ensures r.testId == testId && r.input == input && r.expected == expected
    ensures r.boundaryType == boundaryType && r.fieldValue == fieldValue && r.errorMessage == errorMessage
  {
    var reset := FieldReset(input, fieldValue);
    BvaResult(testId, input, expected,
      ActualBehavior(expected, fieldValue, errorMessage, reset),
      Status(expected, errorMessage, reset),
      boundaryType, fieldValue, errorMessage)
  }

  /** Under an accepting expectation a result passes exactly when the page showed
      no error message and left the field alone. */
  lemma AcceptVerdict(testId: string, input: PyValue, expected: string, fieldValue: string,
                      boundaryType: string, errorMessage: Option<string>)
    requires ExpectsAccept(expected)
    ensures AnalyzeBoundaryResult(testId, input, expected, fieldValue, boundaryType, errorMessage).status == Passed
      <==> !HasErrorMessage(errorMessage) && !FieldReset(input, fieldValue)
  {
  }

  /** Under any other expectation a result passes exactly when the page showed an
      error message or reset the field. */
  lemma RejectVerdict(testId: string, input: PyValue, expected: string, fieldValue: string,
                      boundaryType: string, errorMessage: Option<string>)
    requires !ExpectsAccept(expected)
    ensures AnalyzeBoundaryResult(testId, input, expected, fieldValue, boundaryType, errorMessage).status == Passed
      <==> HasErrorMessage(errorMessage) || FieldReset(input, fieldValue)
  {
  }

  /** The same observations get opposite verdicts under an accepting and a
      rejecting expectation. */
  lemma OppositeVerdicts(testId: string, input: PyValue, accept: string, reject: string, fieldValue: string,
                         boundaryType: string, errorMessage: Option<string>)
    requires ExpectsAccept(accept) && !ExpectsAccept(reject)
    ensures AnalyzeBoundaryResult(testId, input, accept, fieldValue, boundaryType, errorMessage).status
      != AnalyzeBoundaryResult(testId, input, reject, fieldValue, boundaryType, errorMessage).status
  {
  }

  /** An input of `None` never counts as a reset, whatever the field shows. */
  lemma NoneNeverResets(fieldValue: string)
    ensures !FieldReset(PyNone, fieldValue)
  {
  }

  /** The label and the verdict agree: an accepting expectation passes exactly when
      the label is "ACCEPTED", any other passes exactly when the label is not
      "NO_VALIDATION_RESPONSE". */
  lemma LabelAgreesWithVerdict(testId: string, input: PyValue, expected: string, fieldValue: string,
                               boundaryType: string, errorMessage: Option<string>)
    ensures var r := AnalyzeBoundaryResult(testId, input, expected, fieldValue, boundaryType, errorMessage);
      (ExpectsAccept(expected) ==> (r.status == Passed <==> r.actual == Accepted))
      && (!ExpectsAccept(expected) ==> (r.status == Passed <==> r.actual != NoValidationResponse))
  {
    var r := AnalyzeBoundaryResult(testId, input, expected, fieldValue, boundaryType, errorMessage);
    if HasErrorMessage(errorMessage) {
      assert r.actual[0] == 'E';
    } else if FieldReset(input, fieldValue) {
      assert r.actual[0] == 'F';
    }
  }

  /** The label's precedence: a non-empty error message wins over a reset, a reset
      over the expectation. */
  lemma LabelPrecedence(testId: string, input: PyValue, expected: string, fieldValue: string,
                        boundaryType: string, errorMessage: Option<string>)
    ensures var r := AnalyzeBoundaryResult(testId, input, expected, fieldValue, boundaryType, errorMessage);
      && (HasErrorMessage(errorMessage) ==> r.actual == ErrorMessagePrefix + errorMessage.value)
      && (!HasErrorMessage(errorMessage) && FieldReset(input, fieldValue) ==> r.actual == FieldResetPrefix + fieldValue)
      && (!HasErrorMessage(errorMessage) && !FieldReset(input, fieldValue) ==>
            r.actual == (if ExpectsAccept(expected) then Accepted else NoValidationResponse))
  {
  }

  /** Zero typed into a field the page resets to 1: a reset, and a pass for a
      rejecting expectation. An empty error text counts as no message. */
  lemma ZeroResetExample(expected: string)
    requires expected == "Reject/Reset"
    ensures var r := AnalyzeBoundaryResult("BVA_X1", PyInt(0), expected, "1", "invalid_zero", Some(""));
      r.status == Passed && r.actual == FieldResetPrefix + "1"
  {
    assert IntToString(0) == "0";
    NotContainsWithoutHead(expected, "Accept");
  }

  // ---------------------------------------------------------------------------
  // Per-boundary-type tally of generate_bva_report

  datatype TypeStats = TypeStats(passed: nat, failed: nat, total: nat)

  /** One step of the tally loop: create the entry if missing, count the result as
      passed when its status is "PASSED" and as failed otherwise. */
  function TallyStep(stats: map<string, TypeStats>, r: BvaResult): (next: map<string, TypeStats>)
    ensures next.Keys == stats.Keys + {r.boundaryType}
    ensures forall t :: t in stats && t != r.boundaryType ==> next[t] == stats[t]
    ensures var before := if r.boundaryType in stats then stats[r.boundaryType] else TypeStats(0, 0, 0);
      && next[r.boundaryType].total == before.total + 1
      && next[r.boundaryType].passed == before.passed + (if r.status == Passed then 1 else 0)
      && next[r.boundaryType].failed == before.failed + (if r.status == Passed then 0 else 1)
  {
    var s := if r.boundaryType in stats then stats[r.boundaryType] else TypeStats(0, 0, 0);
    stats[r.boundaryType := if r.status == Passed
      then TypeStats(s.passed + 1, s.failed, s.total + 1)
      else TypeStats(s.passed, s.failed + 1, s.total + 1)]
  }

  /** Number of results of boundary type `t`. */
  function CountOfType(results: seq<BvaResult>, t: string): nat {
    if |results| == 0 then 0
    else CountOfType(results[..|results| - 1], t) + (if results[|results| - 1].boundaryType == t then 1 else 0)
  }

  /** Number of results of boundary type `t` whose status is "PASSED". */
  function PassedOfType(results: seq<BvaResult>, t: string): nat {
    if |results| == 0 then 0
    else
      var last := results[|results| - 1];
      PassedOfType(results[..|results| - 1], t) + (if last.boundaryType == t && last.status == Passed then 1 else 0)
  }

  /** Some result has boundary type `t`. */
  ghost predicate HasType(results: seq<BvaResult>, t: string) {
    exists i :: 0 <= i < |results| && results[i].boundaryType == t
  }

  lemma HasTypeSnoc(results: seq<BvaResult>, t: string)
    requires |results| > 0
    ensures HasType(results, t) <==>
      HasType(results[..|results| - 1], t) || results[|results| - 1].boundaryType == t
  {
    var prefix := results[..|results| - 1];
    if HasType(prefix, t) {
      var i :| 0 <= i < |prefix| && prefix[i].boundaryType == t;
      assert results[i] == prefix[i];
    }
    if HasType(results, t) {
      var i :| 0 <= i < |results| && results[i].boundaryType == t;
      if i < |prefix| {
        assert results[i] == prefix[i];
      }
    }
  }

  /** A type no result has is counted zero times. */
  lemma {:induction false} NoResultsOfAbsentType(results: seq<BvaResult>, t: string)
    ensures !HasType(results, t) ==> CountOfType(results, t) == 0 && PassedOfType(results, t) == 0
    decreases |results|
  {
    if |results| > 0 {
      HasTypeSnoc(results, t);
      NoResultsOfAbsentType(results[..|results| - 1], t);
    }
  }

  /** The `boundary_stats` dictionary after the loop over all results. */
  function BoundaryStats(results: seq<BvaResult>): (stats: map<string, TypeStats>)
    ensures forall t :: t in stats <==> HasType(results, t)
    ensures forall t :: t in stats ==> stats[t].passed + stats[t].failed == stats[t].total
    ensures forall t :: t in stats ==>
      stats[t].total == CountOfType(results, t) && stats[t].passed == PassedOfType(results, t)
  {
    if |results| == 0 then map[]
    else
      var prefix := results[..|results| - 1];
      var last := results[|results| - 1];
      var stats := TallyStep(BoundaryStats(prefix), last);
      assert forall t :: HasType(results, t) <==> HasType(prefix, t) || last.boundaryType == t by {
        forall t ensures HasType(results, t) <==> HasType(prefix, t) || last.boundaryType == t {
          HasTypeSnoc(results, t);
        }
      }
      NoResultsOfAbsentType(prefix, last.boundaryType);
      stats
  }
}
