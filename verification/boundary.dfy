/**
 Boundary value generation and classification of `BoundaryHelpers`
 (utils/boundary_helpers.py).
 */
module Boundary {
  import opened PyText

  /** The dictionary `get_boundary_values` returns, one field per key. */
  datatype BoundaryValues = BoundaryValues(
    belowMinimum: seq<int>,
    minimum: seq<int>,
    justAboveMinimum: seq<int>,
    normalValues: seq<int>,
    justBelowMaximum: seq<int>,
    maximum: seq<int>,
    aboveMaximum: seq<int>)

  /** Python's `a // b` for a positive divisor: floor division, which Dafny's
      Euclidean `/` agrees with when the divisor is positive. */
  function FloorDiv(a: int, b: int): (q: int)
    requires b > 0
    ensures q * b <= a < (q + 1) * b
  {
    a / b
  }

  function GetBoundaryValues(minValue: int, maxValue: int): (r: BoundaryValues)
    ensures r.belowMinimum == [minValue - 2, minValue - 1]
    ensures forall i :: 0 <= i < |r.belowMinimum| ==> r.belowMinimum[i] < minValue
    ensures r.minimum == [minValue] && r.maximum == [maxValue]
    ensures r.justAboveMinimum == [minValue + 1] && r.justBelowMaximum == [maxValue - 1]
    ensures r.aboveMaximum == [maxValue + 1, maxValue + 2]
    ensures forall i :: 0 <= i < |r.aboveMaximum| ==> r.aboveMaximum[i] > maxValue
    ensures |r.normalValues| == 3
    ensures minValue <= maxValue ==>
      minValue <= r.normalValues[0] <= r.normalValues[1] <= r.normalValues[2] <= maxValue
  {
    var span := maxValue - minValue;
    BoundaryValues(
      [minValue - 2, minValue - 1],
      [minValue],
      [minValue + 1],
      [minValue + FloorDiv(span, 4), minValue + FloorDiv(span, 2), minValue + FloorDiv(3 * span, 4)],
      [maxValue - 1],
      [maxValue],
      [maxValue + 1, maxValue + 2])
  }

  /** With the bounds the wrong way round the normal values still lie between
      them, now in decreasing order. */
  lemma NormalValuesReversedBounds(minValue: int, maxValue: int)
    requires maxValue < minValue
    ensures var n := GetBoundaryValues(minValue, maxValue).normalValues;
      maxValue <= n[2] <= n[1] <= n[0] <= minValue
  {
  }

  lemma BoundaryValuesExample()
    ensures GetBoundaryValues(1, 999) == BoundaryValues(
      [-1, 0], [1], [2], [250, 500, 749], [998], [999], [1000, 1001])
  {
  }

  // ---------------------------------------------------------------------------
  // analyze_boundary_behavior

  datatype Category = BelowMinimum | MinimumBoundary | AboveMaximum | MaximumBoundary | WithinRange {
    /** The "category" string `analyze_boundary_behavior` returns. */
    function Name(): string {
      match this
      case BelowMinimum => "below_minimum"
      case MinimumBoundary => "minimum_boundary"
      case AboveMaximum => "above_maximum"
      case MaximumBoundary => "maximum_boundary"
      case WithinRange => "within_range"
    }
  }

  /** The dictionary `analyze_boundary_behavior` returns. */
  datatype Analysis = Analysis(
    category: Category, expectedBehavior: string, riskLevel: string, description: string)

  function AnalyzeBoundaryBehavior(inputValue: int, minVal: int, maxVal: int): (r: Analysis)
    ensures r.expectedBehavior == "accept" <==> r.category in {MinimumBoundary, MaximumBoundary, WithinRange}
    ensures r.riskLevel == "high" <==> r.category in {BelowMinimum, AboveMaximum}
    ensures r.riskLevel == "medium" <==> r.category in {MinimumBoundary, MaximumBoundary}
    ensures r.riskLevel == "low" <==> r.category == WithinRange
  {
    var v := IntToString(inputValue);
    if inputValue < minVal then
      Analysis(BelowMinimum, "reject_or_reset", "high",
        "Value " + v + " is below minimum " + IntToString(minVal))
    else if inputValue == minVal then
      Analysis(MinimumBoundary, "accept", "medium", "Value " + v + " is at minimum boundary")
    else if inputValue > maxVal then
      Analysis(AboveMaximum, "reject_or_limit", "high",
        "Value " + v + " exceeds maximum " + IntToString(maxVal))
    else if inputValue == maxVal then
      Analysis(MaximumBoundary, "accept", "medium", "Value " + v + " is at maximum boundary")
    else
      Analysis(WithinRange, "accept", "low", "Value " + v + " is within valid range")
  }

  /** Each category described on its own, without the order of the tests: the
      reference the ordered chain is proved against. */
  ghost predicate Describes(c: Category, v: int, lo: int, hi: int) {
    match c
    case BelowMinimum => v < lo
    case MinimumBoundary => v == lo
    case AboveMaximum => v > lo && v > hi
    case MaximumBoundary => lo < v == hi
    case WithinRange => lo < v < hi
  }

  /** The ordered chain picks exactly the category that describes the value, and
      exactly one category does. */
  lemma CategoryIsTheOneDescribed(v: int, lo: int, hi: int, c: Category)
    ensures AnalyzeBoundaryBehavior(v, lo, hi).category == c <==> Describes(c, v, lo, hi)
  {
  }

  /** A value is accepted exactly when it is the minimum, or above the minimum and
      not above the maximum; so the minimum is accepted even when it exceeds the
      maximum. */
  lemma AcceptedValues(v: int, lo: int, hi: int)
    ensures AnalyzeBoundaryBehavior(v, lo, hi).expectedBehavior == "accept" <==> v == lo || lo < v <= hi
  {
  }

  /** With a proper range, "within_range" means strictly between the bounds. */
  lemma WithinRangeIsStrictlyInside(v: int, lo: int, hi: int)
    requires lo < hi
    ensures AnalyzeBoundaryBehavior(v, lo, hi).category == WithinRange <==> lo < v < hi
  {
  }

  /** When both bounds and the value coincide the minimum test wins. */
  lemma DegenerateRange(v: int)
    ensures AnalyzeBoundaryBehavior(v, v, v).category == MinimumBoundary
  {
  }

  /** The two out-of-range categories expect a rejection of their own kind, and
      their descriptions name the value and the bound it violates. */
  lemma OutOfRangeDescriptions(v: int, lo: int, hi: int)
    ensures v < lo ==>
      var r := AnalyzeBoundaryBehavior(v, lo, hi);
      && r.expectedBehavior == "reject_or_reset"
      && r.description == "Value " + IntToString(v) + " is below minimum " + IntToString(lo)
    ensures lo < v && hi < v ==>
      var r := AnalyzeBoundaryBehavior(v, lo, hi);
      && r.expectedBehavior == "reject_or_limit"
      && r.description == "Value " + IntToString(v) + " exceeds maximum " + IntToString(hi)
  {
  }

  /** The three accepted categories describe the value alone: at the minimum, at
      the maximum, or strictly inside the range. */
  lemma InRangeDescriptions(v: int, lo: int, hi: int)
    ensures v == lo ==>
      AnalyzeBoundaryBehavior(v, lo, hi).description == "Value " + IntToString(v) + " is at minimum boundary"
    ensures lo < v == hi ==>
      AnalyzeBoundaryBehavior(v, lo, hi).description == "Value " + IntToString(v) + " is at maximum boundary"
    ensures lo < v < hi ==>
      AnalyzeBoundaryBehavior(v, lo, hi).description == "Value " + IntToString(v) + " is within valid range"
  {
  }

  lemma BelowMinimumExample()
    ensures AnalyzeBoundaryBehavior(0, 1, 999).description == "Value 0 is below minimum 1"
  {
    assert IntToString(0) == "0" && IntToString(1) == "1";
  }

  lemma AboveMaximumExample()
    ensures AnalyzeBoundaryBehavior(1000, 1, 999).description == "Value 1000 exceeds maximum 999"
  {
    PrintsThousandAndNineNineNine();
  }

  lemma PrintsThousandAndNineNineNine()
    ensures IntToString(1000) == "1000" && IntToString(999) == "999"
  {
    assert NatToString(100) == "100" by {
      assert NatToString(10) == "10";
    }
    assert NatToString(99) == "99";
  }

  // ---------------------------------------------------------------------------
  // get_quantity_boundaries

  datatype QuantityBoundaries = QuantityBoundaries(
    absoluteMinimum: int, practicalMinimum: int, reasonableMaximum: int,
    systemMaximum: int, stressTestValue: int)

  function GetQuantityBoundaries(): (r: QuantityBoundaries)
    ensures r.absoluteMinimum == r.practicalMinimum == 1
    ensures r.practicalMinimum < r.reasonableMaximum < r.systemMaximum < r.stressTestValue
  {
    QuantityBoundaries(1, 1, 100, 9999, 999999)
  }

  /** Against the range from the absolute minimum to the system maximum, the
      stress-test value is above the maximum and the reasonable maximum is inside. */
  lemma QuantityBoundariesClassified()
    ensures var q := GetQuantityBoundaries();
      && AnalyzeBoundaryBehavior(q.stressTestValue, q.absoluteMinimum, q.systemMaximum).category == AboveMaximum
      && AnalyzeBoundaryBehavior(q.reasonableMaximum, q.absoluteMinimum, q.systemMaximum).category == WithinRange
      && AnalyzeBoundaryBehavior(q.practicalMinimum, q.absoluteMinimum, q.systemMaximum).category == MinimumBoundary
  {
  }
}
