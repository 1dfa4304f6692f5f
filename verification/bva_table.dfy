/**
 The static boundary-value table for the quantity field
 (config/boundary_value_table.py) and the test matrix built from it.
 */
module BvaTable {
  import opened PyText
  import Boundary
  import BvaVerdict

  /** The declared valid range "1 - 999". */
  const ValidMin := 1
  const ValidMax := 999

  /** One entry of `QUANTITY_BVA["boundaries"]`. */
  datatype BoundaryPoint = BoundaryPoint(key: string, value: PyValue, description: string, tag: string)

  const QuantityValid: seq<BoundaryPoint> := [
    BoundaryPoint("V1", PyInt(1), "Minimum valid value", "Lower bound"),
    BoundaryPoint("V2", PyInt(2), "Just above minimum", "Lower bound + 1"),
    BoundaryPoint("V3", PyInt(500), "Middle valid value", "Normal value"),
    BoundaryPoint("V4", PyInt(998), "Just below maximum", "Upper bound - 1"),
    BoundaryPoint("V5", PyInt(999), "Maximum valid value", "Upper bound")
  ]

  const QuantityInvalid: seq<BoundaryPoint> := [
    BoundaryPoint("X1", PyInt(0), "Below minimum", "Lower bound - 1"),
    BoundaryPoint("X2", PyInt(-1), "Negative value", "Invalid negative"),
    BoundaryPoint("X3", PyInt(-999), "Large negative", "Extreme negative"),
    BoundaryPoint("X4", PyInt(1000), "Just above maximum", "Upper bound + 1"),
    BoundaryPoint("X5", PyInt(9999), "Large invalid value", "Extreme positive"),
    BoundaryPoint("X6", PyInt(999999), "Stress test value", "Stress boundary"),
    BoundaryPoint("X7", PyStr("abc"), "Text input", "Non-numeric"),
    BoundaryPoint("X8", PyStr("!@#"), "Special characters", "Invalid chars"),
    BoundaryPoint("X9", PyStr(""), "Empty input", "Null input"),
    BoundaryPoint("X10", PyStr(" "), "Whitespace", "Space input"),
    BoundaryPoint("X11", PyStr("1.5"), "Decimal value", "Invalid decimal"),
    BoundaryPoint("X12", PyNone, "Null value", "Null")
  ]

  /** One test case of `get_test_data_matrix`. */
  datatype BvaCase = BvaCase(testId: string, input: PyValue, expected: string, boundaryType: string)

  const ValidBoundaries: seq<BvaCase> := [
    BvaCase("BVA_V1", PyInt(1), "Accept", "valid_min"),
    BvaCase("BVA_V2", PyInt(2), "Accept", "valid_min_plus"),
    BvaCase("BVA_V3", PyInt(500), "Accept", "valid_normal"),
    BvaCase("BVA_V4", PyInt(998), "Accept", "valid_max_minus"),
    BvaCase("BVA_V5", PyInt(999), "Accept", "valid_max")
  ]

  const InvalidBoundaries: seq<BvaCase> := [
    BvaCase("BVA_X1", PyInt(0), "Reject/Reset", "invalid_zero"),
    BvaCase("BVA_X2", PyInt(-1), "Reject/Reset", "invalid_negative"),
    BvaCase("BVA_X3", PyInt(-999), "Reject/Reset", "invalid_large_negative"),
    BvaCase("BVA_X4", PyInt(1000), "Reject", "invalid_over_max"),
    BvaCase("BVA_X5", PyInt(9999), "Reject", "invalid_large"),
    BvaCase("BVA_X6", PyInt(999999), "Reject", "invalid_stress"),
    BvaCase("BVA_X7", PyStr("abc"), "Reject", "invalid_text"),
    BvaCase("BVA_X8", PyStr("!@#"), "Reject", "invalid_special"),
    BvaCase("BVA_X9", PyStr(""), "Reject", "invalid_empty"),
    BvaCase("BVA_X10", PyStr(" "), "Reject", "invalid_space"),
    BvaCase("BVA_X11", PyStr("1.5"), "Reject", "invalid_decimal"),
    BvaCase("BVA_X12", PyNone, "Reject", "invalid_null")
  ]

  /** The matrix in the order the comprehensive test runs it: valid cases first. */
  const Matrix: seq<BvaCase> := ValidBoundaries + InvalidBoundaries

  lemma MatrixSizes()
    ensures |ValidBoundaries| == 5 && |InvalidBoundaries| == 12 && |Matrix| == 17
  {
  }

  /** No two test cases of the matrix share an id. */
  lemma TestIdsDistinct()
    ensures forall i, j :: 0 <= i < j < |Matrix| ==> Matrix[i].testId != Matrix[j].testId
  {
    forall i, j | 0 <= i < j < |Matrix| ensures Matrix[i].testId != Matrix[j].testId {
      var a, b := Matrix[i].testId, Matrix[j].testId;
      assert a[4] != b[4] || a[5..] != b[5..];
    }
  }

  /** Valid cases expect exactly "Accept", and no invalid case mentions it. */
  lemma ExpectedLabels()
    ensures forall c :: c in ValidBoundaries ==> c.expected == "Accept"
    ensures forall c :: c in InvalidBoundaries ==> !BvaVerdict.ExpectsAccept(c.expected)
  {
    InvalidExpectations();
    forall c | c in InvalidBoundaries ensures !BvaVerdict.ExpectsAccept(c.expected) {
      RejectLabelsLackAccept(c.expected);
    }
  }

  lemma InvalidExpectations()
    ensures forall c :: c in InvalidBoundaries ==> c.expected == "Reject" || c.expected == "Reject/Reset"
  {
  }

  lemma RejectLabelsLackAccept(e: string)
    requires e == "Reject" || e == "Reject/Reset"
    ensures !BvaVerdict.ExpectsAccept(e)
  {
    NotContainsWithoutHead(e, "Accept");
  }

  lemma AcceptLabelHasAccept(e: string)
    requires e == "Accept"
    ensures BvaVerdict.ExpectsAccept(e)
  {
    assert StartsWith(e, "Accept");
  }

  /** Integer inputs of valid cases lie in the declared range, those of invalid
      cases outside it. */
  lemma IntegerInputsAgainstRange()
    ensures forall c :: c in ValidBoundaries ==> c.input.PyInt? && ValidMin <= c.input.i <= ValidMax
    ensures forall c :: c in InvalidBoundaries && c.input.PyInt? ==> c.input.i < ValidMin || ValidMax < c.input.i
  {
  }

  /** The "Reject/Reset" cases are exactly those with an integer input of at most 0. */
  lemma ResetCasesAreNonPositive()
    ensures forall c :: c in InvalidBoundaries ==>
      (c.expected == "Reject/Reset" <==> c.input.PyInt? && c.input.i <= 0)
  {
  }

  /** The matrix inputs are the V1–V5 and X1–X12 values of the table, in order,
      and each test id is "BVA_" followed by the table's key. */
  lemma MatrixFollowsTable()
    ensures |ValidBoundaries| == |QuantityValid| && |InvalidBoundaries| == |QuantityInvalid|
    ensures forall i :: 0 <= i < |ValidBoundaries| ==>
      ValidBoundaries[i].input == QuantityValid[i].value && ValidBoundaries[i].testId == "BVA_" + QuantityValid[i].key
    ensures forall i :: 0 <= i < |InvalidBoundaries| ==>
      InvalidBoundaries[i].input == QuantityInvalid[i].value && InvalidBoundaries[i].testId == "BVA_" + QuantityInvalid[i].key
  {
  }

  /** For every integer input of the matrix, the expectation agrees with
      `analyze_boundary_behavior` on the declared range: "Accept" is expected
      exactly when the analysis says "accept". */
  lemma MatrixAgreesWithAnalysis()
    ensures forall c :: c in Matrix && c.input.PyInt? ==>
      (BvaVerdict.ExpectsAccept(c.expected)
       <==> Boundary.AnalyzeBoundaryBehavior(c.input.i, ValidMin, ValidMax).expectedBehavior == "accept")
  {
    ExpectedLabels();
    IntegerInputsAgainstRange();
    forall c | c in Matrix && c.input.PyInt?
      ensures BvaVerdict.ExpectsAccept(c.expected)
        <==> Boundary.AnalyzeBoundaryBehavior(c.input.i, ValidMin, ValidMax).expectedBehavior == "accept"
    {
      Boundary.AcceptedValues(c.input.i, ValidMin, ValidMax);
      if c in ValidBoundaries {
        AcceptLabelHasAccept(c.expected);
      }
    }
  }
}
