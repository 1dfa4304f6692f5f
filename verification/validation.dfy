/**
 Quantity validation and the special-character scanner of `ValidationHelpers`
 (utils/validation_helpers.py), with its table of equivalence classes.
 */
module Validation {
  import opened Wrappers
  import opened PyText

  const MsgEmpty := "Input không được để trống"
  const MsgNegative := "Không cho phép số âm"
  const MsgZero := "Số lượng phải lớn hơn 0"
  const MsgValid := "Valid numeric input"
  const MsgNotNumeric := "Chỉ cho phép nhập số"

  /** The message of the `except` branch for an exception whose text is `e`. */
  function ValidationError(e: string): string {
    "Validation error: " + e
  }

  /** The dictionary `validate_numeric_input` returns. */
  datatype Verdict = Verdict(isValid: bool, message: string, cleanedValue: Option<int>)

  /** The five outcomes the validator distinguishes, in terms of the stripped text
      alone: the reference the validator is proved against. */
  datatype QuantityClass = Empty | Negative | Zero | Positive(n: nat) | NotNumeric | TooManyDigits(digits: nat)

  /** Which class a stripped text belongs to, described without the validator's
      chain of tests: through its sign and digits. */
  ghost predicate InClass(t: string, c: QuantityClass) {
    match c
    case Empty => t == ""
    case NotNumeric => t != "" && !IsIntegerLiteral(t)
    case Negative =>
      exists d :: 1 <= |d| <= IntMaxStrDigits && AllDigits(d) && DigitsValue(d) > 0 && t == "-" + d
    case Zero =>
      exists d :: 1 <= |d| <= IntMaxStrDigits && AllDigits(d) && DigitsValue(d) == 0 && (t == d || t == "-" + d)
    case Positive(n) =>
      n > 0 && |t| <= IntMaxStrDigits && AllDigits(t) && DigitsValue(t) == n
    case TooManyDigits(k) =>
      exists d :: |d| == k > IntMaxStrDigits && AllDigits(d) && (t == d || t == "-" + d)
  }

  /** The verdict `validate_numeric_input` returns for each class; a literal with
      too many digits makes `int()` raise, and the `except` branch reports it. */
  function VerdictFor(c: QuantityClass): Verdict {
    match c
    case Empty => Verdict(false, MsgEmpty, None)
    case Negative => Verdict(false, MsgNegative, None)
    case Zero => Verdict(false, MsgZero, None)
    case Positive(n) => Verdict(true, MsgValid, Some(n))
    case NotNumeric => Verdict(false, MsgNotNumeric, None)
    case TooManyDigits(k) => Verdict(false, ValidationError(ToIntLimitMessage(k)), None)
  }

  /** `validate_numeric_input` once `str(value)` has been taken. */
  function ValidateText(text: string): (r: Verdict)
    ensures r.isValid <==> r.cleanedValue.Some?
    ensures r.cleanedValue.Some? ==> r.cleanedValue.value >= 1
    ensures r.isValid <==> r.message == MsgValid
  {
    var t := Strip(text);
    if t == "" then
      VerdictFor(Empty)
    else if IsIntegerLiteral(t) && LiteralDigits(t) > IntMaxStrDigits then
      VerdictFor(TooManyDigits(LiteralDigits(t)))
    else if IsIntegerLiteral(t) then
      var n := ParseInt(t);
      if n < 0 then VerdictFor(Negative)
      else if n == 0 then VerdictFor(Zero)
      else VerdictFor(Positive(n))
    else
      VerdictFor(NotNumeric)
  }

  /** `validate_numeric_input(value)`: `str(value)` raises for an int with too
      many digits, and the `except` branch turns that into a validation error;
      every other value is judged by its text. */
  function ValidateNumericInput(value: PyValue): (r: Verdict)
    ensures StrRaises(value) ==> r == Verdict(false, ValidationError(ToStrLimitMessage), None)
    ensures !StrRaises(value) ==> r == ValidateText(Str(value))
    ensures r.isValid <==> r.cleanedValue.Some?
  {
    if StrRaises(value) then Verdict(false, ValidationError(ToStrLimitMessage), None)
    else
      ValidateText(Str(value))
  }

  /** The validator returns exactly the verdict of the class the stripped input
      falls into. */
  lemma ValidateTextMatchesClass(text: string, c: QuantityClass)
    requires InClass(Strip(text), c)
    ensures ValidateText(text) == VerdictFor(c)
  {
    var t := Strip(text);
    match c
    case Empty =>
    case NotNumeric =>
    case Negative =>
      var d :| 1 <= |d| <= IntMaxStrDigits && AllDigits(d) && DigitsValue(d) > 0 && t == "-" + d;
      SignedDigits(t, d, true);
    case Zero =>
      var d :| 1 <= |d| <= IntMaxStrDigits && AllDigits(d) && DigitsValue(d) == 0 && (t == d || t == "-" + d);
      SignedDigits(t, d, t != d);
    case Positive(n) =>
      SignedDigits(t, t, false);
    case TooManyDigits(k) =>
      var d :| |d| == k > IntMaxStrDigits && AllDigits(d) && (t == d || t == "-" + d);
      SignedDigits(t, d, t != d);
  }

  /** A run of digits, with or without a leading '-', as `int()` sees it. */
  lemma SignedDigits(t: string, d: string, negative: bool)
    requires |d| >= 1 && AllDigits(d) && t == (if negative then "-" + d else d)
    ensures t != "" && IsIntegerLiteral(t) && LiteralDigits(t) == |d|
    ensures ParseInt(t) == if negative then -(DigitsValue(d) as int) else DigitsValue(d)
  {
    if negative {
      assert t[0] == '-' && t[1..] == d;
    } else {
      assert IsDigit(t[0]);
    }
  }

  /** Every stripped text falls into some class, so the lemma above describes the
      validator on every input. */
  lemma EveryTextHasClass(text: string) returns (c: QuantityClass)
    ensures InClass(Strip(text), c)
  {
    var t := Strip(text);
    if t == "" {
      c := Empty;
    } else if !IsIntegerLiteral(t) {
      c := NotNumeric;
    } else if t[0] == '-' {
      var d := t[1..];
      assert t == "-" + d && LiteralDigits(t) == |d|;
      c := if |d| > IntMaxStrDigits then TooManyDigits(|d|)
        else if DigitsValue(d) == 0 then Zero else Negative;
    } else if |t| > IntMaxStrDigits {
      c := TooManyDigits(|t|);
    } else {
      c := if DigitsValue(t) == 0 then Zero else Positive(DigitsValue(t));
    }
  }

  /** Empty or whitespace-only input is rejected as empty, and nothing else is. */
  lemma EmptyInputRejected(text: string)
    ensures ValidateText(text).message == MsgEmpty <==> AllSpace(text)
    ensures AllSpace(text) ==> ValidateText(text) == Verdict(false, MsgEmpty, None)
  {
    StripEmptyIffAllSpace(text);
  }

  /** Leading and trailing whitespace does not change the verdict. */
  lemma SurroundingSpaceIgnored(w1: string, text: string, w2: string)
    requires AllSpace(w1) && AllSpace(w2)
    ensures ValidateText(w1 + text + w2) == ValidateText(text)
  {
    StripIgnoresSurroundingSpace(w1, text, w2);
  }

  /** An int is accepted exactly when it is at least 1 and below 10^4300, and then
      it is its own cleaned value; a negative int and zero get their own messages,
      and an int too long for `str()` a validation error. */
  lemma IntInputVerdict(n: int)
    ensures ValidateNumericInput(PyInt(n)).isValid <==> 1 <= n < Pow10(IntMaxStrDigits)
    ensures 1 <= n < Pow10(IntMaxStrDigits) ==> ValidateNumericInput(PyInt(n)).cleanedValue == Some(n)
    ensures n < 0 && -n < Pow10(IntMaxStrDigits) ==> ValidateNumericInput(PyInt(n)).message == MsgNegative
    ensures n == 0 ==> ValidateNumericInput(PyInt(n)).message == MsgZero
    ensures Pow10(IntMaxStrDigits) <= (if n < 0 then -n else n) ==>
      ValidateNumericInput(PyInt(n)) == Verdict(false, ValidationError(ToStrLimitMessage), None)
  {
    DigitCountBound(if n < 0 then -n else n, IntMaxStrDigits);
    IntVerdictByDigits(n);
  }

  /** The same, with the bound stated as a number of digits. */
  lemma IntVerdictByDigits(n: int)
    ensures ValidateNumericInput(PyInt(n)).isValid <==> 1 <= n && DecimalDigits(n) <= IntMaxStrDigits
    ensures 1 <= n && DecimalDigits(n) <= IntMaxStrDigits ==> ValidateNumericInput(PyInt(n)).cleanedValue == Some(n)
    ensures n < 0 && DecimalDigits(n) <= IntMaxStrDigits ==> ValidateNumericInput(PyInt(n)).message == MsgNegative
    ensures n == 0 ==> ValidateNumericInput(PyInt(n)).message == MsgZero
  {
    if !StrRaises(PyInt(n)) {
      IntToStringRoundTrip(n);
      IntToStringHasNoSpace(n);
      LiteralDigitsOfIntToString(n);
    }
  }

  /** A digit string with a positive value is accepted, leading zeros and all, and
      cleans to its decimal value, unless it has more digits than `int()` converts. */
  lemma DigitsAccepted(d: string)
    requires |d| >= 1 && AllDigits(d) && DigitsValue(d) > 0
    ensures |d| <= IntMaxStrDigits ==> ValidateText(d) == Verdict(true, MsgValid, Some(DigitsValue(d)))
    ensures |d| > IntMaxStrDigits ==>
      ValidateText(d) == Verdict(false, ValidationError(ToIntLimitMessage(|d|)), None)
  {
    DigitsStripToThemselves(d);
    assert LiteralDigits(d) == |d| by {
      assert IsDigit(d[0]);
    }
    if |d| <= IntMaxStrDigits {
      assert InClass(Strip(d), Positive(DigitsValue(d)));
      ValidateTextMatchesClass(d, Positive(DigitsValue(d)));
    } else {
      assert InClass(Strip(d), TooManyDigits(|d|));
      ValidateTextMatchesClass(d, TooManyDigits(|d|));
    }
  }

  lemma DigitsStripToThemselves(d: string)
    requires |d| >= 1 && AllDigits(d)
    ensures Strip(d) == d && IsIntegerLiteral(d) && ParseInt(d) == DigitsValue(d)
  {
    assert IsDigit(d[0]) && IsDigit(d[|d| - 1]);
    assert StripLeft(d) == d;
    assert StripRight(d) == d;
  }

  /** A text that needs no stripping and is not an integer literal gets the
      non-numeric message. */
  lemma NotNumericWhenNotLiteral(t: string)
    requires t != "" && !IsSpace(t[0]) && !IsSpace(t[|t| - 1]) && !IsIntegerLiteral(t)
    ensures ValidateText(t) == Verdict(false, MsgNotNumeric, None)
  {
    assert StripLeft(t) == t;
    assert StripRight(t) == t;
  }

  /** A text with no surrounding whitespace is non-numeric once some character
      other than a leading '-' is not a digit. */
  lemma NotNumericAt(t: string, i: nat)
    requires i < |t| && !IsSpace(t[0]) && !IsSpace(t[|t| - 1])
    requires !IsDigit(t[i]) && (t[0] == '-' ==> i >= 1)
    ensures ValidateText(t) == Verdict(false, MsgNotNumeric, None)
  {
    if t[0] == '-' {
      assert t[1..][i - 1] == t[i];
    }
    NotNumericWhenNotLiteral(t);
  }

  lemma PaddingExamples()
    ensures ValidateText(" 5 ") == ValidateText("5") == Verdict(true, MsgValid, Some(5))
    ensures ValidateText("007") == Verdict(true, MsgValid, Some(7))
  {
    SurroundingSpaceIgnored(" ", "5", " ");
    DigitsAccepted("5");
    assert DigitsValue("007") == 7 by {
      assert "007"[..2] == "00" && "00"[..1] == "0";
    }
    DigitsAccepted("007");
  }

  lemma ZeroExamples()
    ensures ValidateText("0").message == MsgZero
    ensures ValidateText("-0").message == MsgZero
    ensures ValidateText("000").message == MsgZero
  {
    DigitsStripToThemselves("0");
    assert DigitsValue("000") == 0 by {
      assert "000"[..2] == "00" && "00"[..1] == "0";
    }
    DigitsStripToThemselves("000");
    assert "-0"[1..] == "0";
    assert StripLeft("-0") == "-0" && StripRight("-0") == "-0";
  }

  lemma NotNumericExamples()
    ensures ValidateText("1.5").message == MsgNotNumeric
    ensures ValidateText("e").message == MsgNotNumeric
    ensures ValidateText("+5").message == MsgNotNumeric
    ensures ValidateText("!@#").message == MsgNotNumeric
    ensures ValidateText("1 2").message == MsgNotNumeric
  {
    NotNumericAt("1.5", 1);
    NotNumericAt("e", 0);
    NotNumericAt("+5", 0);
    NotNumericAt("!@#", 0);
    NotNumericAt("1 2", 1);
  }

  // ---------------------------------------------------------------------------
  // validate_special_characters

  /** The character class `[!@#$%^&*()_+=\[\]{}|;:,.<>?]`; '-' is not in it. */
  const SpecialClass: set<char> :=
    {'!', '@', '#', '$', '%', '^', '&', '*', '(', ')', '_', '+', '=', '[', ']',
     '{', '}', '|', ';', ':', ',', '.', '<', '>', '?'}

  /** Membership in the class, by code-point ranges. */
  predicate IsSpecial(c: char) {
    c == '!' || ('#' <= c <= '&') || ('(' <= c <= ',') || c == '.' || (':' <= c <= '@')
    || c == '[' || (']' <= c <= '_') || ('{' <= c <= '}')
  }

  /** The ranges above are exactly the class as written. */
  lemma IsSpecialMatchesClass(c: char)
    ensures IsSpecial(c) <==> c in SpecialClass
  {
  }

  /** `re.findall` with that class: every matching character, in order. */
  function FindAllSpecial(s: string): (r: string)
    ensures |r| <= |s|
    ensures forall i :: 0 <= i < |r| ==> IsSpecial(r[i])
    ensures forall c :: c in r <==> c in s && IsSpecial(c)
  {
    if |s| == 0 then ""
    else if IsSpecial(s[0]) then [s[0]] + FindAllSpecial(s[1..])
    else FindAllSpecial(s[1..])
  }

  /** The dictionary `validate_special_characters` returns; the message listing the
      characters found is left out, since it joins a set in an unspecified order. */
  datatype SpecialScan = SpecialScan(hasSpecialChars: bool, specialCharsFound: set<char>)

  function ValidateSpecialCharacters(value: string): (r: SpecialScan)
    ensures r.hasSpecialChars <==> r.specialCharsFound != {}
    ensures forall c :: c in r.specialCharsFound <==> c in value && c in SpecialClass
  {
    forall c ensures IsSpecial(c) <==> c in SpecialClass {
      IsSpecialMatchesClass(c);
    }
    var found := FindAllSpecial(value);
    var distinct := set i | 0 <= i < |found| :: found[i];
    if |found| > 0 then
      assert found[0] in distinct;
      SpecialScan(true, distinct)
    else
      SpecialScan(false, {})
  }

  /** '-' is not a special character, so a negative number has none. */
  lemma MinusIsNotSpecial()
    ensures !ValidateSpecialCharacters("-1").hasSpecialChars
  {
    assert FindAllSpecial("-1") == "" by {
      assert "-1"[1..] == "1";
      assert "1"[1..] == "";
    }
  }

  lemma SpecialCharacterExample()
    ensures ValidateSpecialCharacters("1.5") == SpecialScan(true, {'.'})
  {
    assert FindAllSpecial("1.5") == ".";
  }

  // ---------------------------------------------------------------------------
  // get_equivalence_classes

  const ValidPositive: seq<PyValue> := [PyInt(1), PyInt(2), PyInt(5), PyInt(10), PyInt(100)]
  const InvalidZero: seq<PyValue> := [PyInt(0)]
  const InvalidNegative: seq<PyValue> := [PyInt(-1), PyInt(-2), PyInt(-10)]
  const InvalidDecimal: seq<PyValue> := [PyFloat("1.5"), PyFloat("2.7"), PyFloat("-1.2")]
  const InvalidText: seq<PyValue> := [PyStr("abc"), PyStr("xyz"), PyStr("test")]
  const InvalidSpecial: seq<PyValue> := [PyStr("!@#"), PyStr("$%^"), PyStr("()")]
  const InvalidMixed: seq<PyValue> := [PyStr("1a"), PyStr("2b"), PyStr("a1")]
  const InvalidEmpty: seq<PyValue> := [PyStr(""), PyStr(" "), PyNone]

  const QuantityClasses: map<string, seq<PyValue>> := map[
    "valid_positive" := ValidPositive,
    "invalid_zero" := InvalidZero,
    "invalid_negative" := InvalidNegative,
    "invalid_decimal" := InvalidDecimal,
    "invalid_text" := InvalidText,
    "invalid_special" := InvalidSpecial,
    "invalid_mixed" := InvalidMixed,
    "invalid_empty" := InvalidEmpty
  ]

  const CategoryClasses: map<string, seq<PyValue>> := map[
    "valid_selections" := [PyStr("option1"), PyStr("option2"), PyStr("option3")],
    "invalid_none" := [PyNone, PyStr("")],
    "invalid_nonexistent" := [PyStr("fake_option"), PyStr("invalid_choice")]
  ]

  function GetEquivalenceClasses(dataType: string): (r: map<string, seq<PyValue>>)
    ensures dataType == "quantity" ==> |r| == 8
    ensures dataType == "category" ==> |r| == 3
    ensures dataType != "quantity" && dataType != "category" ==> r == map[]
  {
    if dataType == "quantity" then
      QuantityClassCount();
      QuantityClasses
    else if dataType == "category" then
      CategoryClassCount();
      CategoryClasses
    else
      map[]
  }

  lemma QuantityClassCount()
    ensures |QuantityClasses| == 8
  {
    var names := {"valid_positive", "invalid_zero", "invalid_negative", "invalid_decimal",
      "invalid_text", "invalid_special", "invalid_mixed", "invalid_empty"};
    assert QuantityClasses.Keys == names;
    assert |names| == 8;
  }

  lemma CategoryClassCount()
    ensures |CategoryClasses| == 3
  {
    var names := {"valid_selections", "invalid_none", "invalid_nonexistent"};
    assert CategoryClasses.Keys == names;
    assert |names| == 3;
  }

  /** The quantity classes agree with the validator: a value of a quantity class
      is accepted exactly when the class is "valid_positive". */
  lemma QuantityClassesAgreeWithValidator()
    ensures forall k, v | k in QuantityClasses && v in QuantityClasses[k] ::
      ValidateNumericInput(v).isValid <==> k == "valid_positive"
  {
    forall k, v | k in QuantityClasses && v in QuantityClasses[k]
      ensures ValidateNumericInput(v).isValid <==> k == "valid_positive"
    {
      ClassAgrees(k);
      assert v in QuantityClasses[k];
    }
  }

  /** Whether the validator accepts every value of a list (`accepted`) or none. */
  predicate AllVerdicts(vs: seq<PyValue>, accepted: bool) {
    forall v | v in vs :: ValidateNumericInput(v).isValid == accepted
  }

  lemma ClassAgrees(k: string)
    requires k in QuantityClasses
    ensures AllVerdicts(QuantityClasses[k], k == "valid_positive")
  {
    if k == "valid_positive" {
      PositiveClassAgrees();
    } else {
      NonPositiveClassesAgree();
      DecimalsRejected();
      WordsRejected();
      MixedRejected();
      SymbolsRejected();
      EmptyClassAgrees();
      assert QuantityClasses[k] in
        [InvalidZero, InvalidNegative, InvalidDecimal, InvalidText, InvalidSpecial, InvalidMixed, InvalidEmpty];
    }
  }

  lemma PositiveClassAgrees()
    ensures AllVerdicts(ValidPositive, true)
  {
    IntVerdictByDigits(1);
    IntVerdictByDigits(2);
    IntVerdictByDigits(5);
    IntVerdictByDigits(10);
    IntVerdictByDigits(100);
  }

  lemma NonPositiveClassesAgree()
    ensures AllVerdicts(InvalidZero, false) && AllVerdicts(InvalidNegative, false)
  {
    forall n | n in [0, -1, -2, -10] ensures !ValidateNumericInput(PyInt(n)).isValid {
      IntVerdictByDigits(n);
    }
  }

  lemma EmptyClassAgrees()
    ensures AllVerdicts(InvalidEmpty, false)
  {
    EmptyInputRejected("");
    EmptyInputRejected(" ");
    NoneRejected();
  }

  lemma DecimalsRejected()
    ensures AllVerdicts(InvalidDecimal, false)
  {
    NotNumericAt("1.5", 1);
    NotNumericAt("2.7", 1);
    NotNumericAt("-1.2", 2);
  }

  lemma WordsRejected()
    ensures AllVerdicts(InvalidText, false)
  {
    NotNumericAt("abc", 0);
    NotNumericAt("xyz", 0);
    NotNumericAt("test", 0);
  }

  lemma MixedRejected()
    ensures AllVerdicts(InvalidMixed, false)
  {
    NotNumericAt("1a", 1);
    NotNumericAt("2b", 1);
    NotNumericAt("a1", 0);
  }

  /** None reaches the validator as the text "None". */
  lemma NoneRejected()
    ensures ValidateNumericInput(PyNone) == Verdict(false, MsgNotNumeric, None)
  {
    NotNumericAt("None", 0);
  }

  lemma SymbolsRejected()
    ensures AllVerdicts(InvalidSpecial, false)
  {
    NotNumericAt("!@#", 0);
    NotNumericAt("$%^", 0);
    NotNumericAt("()", 0);
  }
}
