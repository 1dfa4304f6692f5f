# TestCase decision core in Dafny

This project models the pure decision logic inside the TestCase e-commerce test
automation suite and proves properties about it. The suite drives a shop page
with Selenium; the modelled parts are the ones that decide things without the
browser:

- The quantity validator (`validate_numeric_input`) strips the input and matches
  it against `^-?\d+$`. It then puts the input into one of six classes: empty,
  negative, zero, valid positive, not numeric, or an integer literal with more
  digits than Python's `int()` converts (its default limit of 4300 digits), which
  the validator's `except` branch reports as a validation error.
- The special-character scanner (`validate_special_characters`) and the
  equivalence-class table (`get_equivalence_classes`).
- The boundary-value helpers: the min−2 … max+2 value lists, the five-way
  boundary classification, and the fixed quantity boundaries.
- The error-name classifier (`categorize_error`).
- The verdict logic of the comprehensive boundary-value test. Observations (the
  typed value, the field value read back, and the error text shown) become a
  behaviour label and a PASSED/FAILED status. The file also tallies results per
  boundary type.
- The constant boundary-value table and the test matrix built from it.
- The suite runner's loop over test entries, with its passed/failed/errors
  counters, and the single-test runner's `zfill(2)` id normalisation, lookup and
  exit code.
- The multi-selector element lookup. It picks XPath for selectors starting with
  `//` and CSS otherwise, and the first selector whose wait does not time out
  wins.

Python values reaching the core (`int`, `str`, float literals, `None`) are one
datatype, `PyText.PyValue`. `PyText` models the Python string operations used:
`str()`, `strip()` over Python's whitespace set, substring `in`, `startswith`,
and `int()` of an ASCII digit string, with CPython's default limit of 4300
digits on conversions between `int` and decimal text.

Some things are parameters:

- The browser page is an oracle from locator to probe result.
- Each test function is an oracle from entry to outcome.
- The error text of the BVA test is an `Option<string>` argument.

Modules, one per file: `Wrappers`, `PyText`, `Validation`, `Boundary`,
`ErrorCategory`, `BvaVerdict`, `BvaTable`, `Suite`, `SingleTest`, `Selectors`.

## Model

| member | source | states |
|---|---|---|
| PyText.ContainsIsOccurrence | utils/error_handlers.py:96-99 | Python's substring test `sub in s` holds exactly when `sub` occurs at some index of `s` |
| PyText.StripEmptyIffAllSpace | utils/validation_helpers.py:24-27 | `strip()` gives the empty string exactly when every character is whitespace |
| PyText.StripIgnoresSurroundingSpace | utils/validation_helpers.py:24 | whitespace added on either side of a string does not change its `strip()` |
| PyText.IntToStringRoundTrip | tests/test_case_bva_comprehensive.py:154 | `str()` of an integer is an integer literal that `int()` reads back as the same integer (the conversions themselves; the 4300-digit limit is stated separately) |
| PyText.LiteralDigitsOfIntToString | utils/validation_helpers.py:24-36 | the digits `int()` counts in `str(i)` are exactly the decimal digits of `i`, so an int `str()` can print is a text `int()` can read back |
| PyText.DigitCountBound | utils/validation_helpers.py:24 | a natural number has at most k decimal digits exactly when it is below 10^k, so the 4300-digit limit of `str()` admits exactly the ints of absolute value below 10^4300 |
| Validation.ValidateText | utils/validation_helpers.py:22-61 | the input is valid exactly when a cleaned value is returned; that value is at least 1; the message is "Valid numeric input" exactly when the input is valid |
| Validation.ValidateNumericInput | utils/validation_helpers.py:22-68 | an int with more than 4300 digits makes `str()` raise, and the result is invalid with "Validation error: " + the ValueError text and no cleaned value; every other value is judged by the text `str()` gives; valid exactly when a cleaned value is returned |
| Validation.ValidateTextMatchesClass | utils/validation_helpers.py:24-61 | the verdict is the one fixed for the class of the stripped input. The classes are defined by sign and digits: empty; "-" + at most 4300 digits of positive value; at most 4300 digits of value 0, with or without "-"; at most 4300 digits of positive value n (cleaned value n); more than 4300 digits, with or without "-", which gives "Validation error: " + the ValueError text naming the digit count; anything else |
| Validation.EveryTextHasClass | utils/validation_helpers.py:24-61 | every input falls into one of the six classes, so the classification is total |
| Validation.EmptyInputRejected | utils/validation_helpers.py:24-32 | the message is "Input không được để trống" exactly when the input is whitespace only; then the input is invalid with no cleaned value |
| Validation.SurroundingSpaceIgnored | utils/validation_helpers.py:24 | surrounding whitespace never changes the verdict |
| Validation.IntInputVerdict | utils/validation_helpers.py:24-55 | an integer is accepted iff 1 ≤ n < 10^4300, and then its cleaned value is itself; negatives above −10^4300 get "Không cho phép số âm", 0 gets "Số lượng phải lớn hơn 0", and an int of 10^4300 or more in absolute value gets the validation error of `str()` |
| Validation.DigitsAccepted | utils/validation_helpers.py:35-55 | a digit string of positive value with at most 4300 digits is accepted with the decimal value of its digits, leading zeros allowed; a longer one gets "Validation error: " + the ValueError text of `int()` |
| Validation.NotNumericWhenNotLiteral | utils/validation_helpers.py:35-61 | a stripped input that does not match `-?digits` is rejected with "Chỉ cho phép nhập số" |
| Validation.NotNumericAt | utils/validation_helpers.py:35-61 | an input with a non-digit character after the optional leading '-' is rejected as not numeric |
| Validation.PaddingExamples | utils/validation_helpers.py:24-55 | " 5 " and "5" both give a valid verdict with cleaned value 5; "007" gives 7 |
| Validation.ZeroExamples | utils/validation_helpers.py:35-49 | "0", "-0" and "000" all give "Số lượng phải lớn hơn 0" |
| Validation.NotNumericExamples | utils/validation_helpers.py:35-61 | "1.5", "e", "+5", "!@#" and "1 2" give "Chỉ cho phép nhập số" |
| Validation.IsSpecialMatchesClass | utils/validation_helpers.py:81 | the range test used for scanning accepts exactly the 25 punctuation characters of the regex class used by `re.findall`, the vertical bar included |
| Validation.FindAllSpecial | utils/validation_helpers.py:81 | `re.findall` returns only special characters, and a character appears in the result exactly when it appears in the input and is special |
| Validation.ValidateSpecialCharacters | utils/validation_helpers.py:81-94 | `has_special_chars` is true iff the found set is non-empty; the found set is exactly the input's characters that lie in the special class |
| Validation.MinusIsNotSpecial | utils/validation_helpers.py:81-94 | '-' is not special, so "-1" has no special characters |
| Validation.SpecialCharacterExample | utils/validation_helpers.py:81-88 | "1.5" has special characters, and the found set is exactly {'.'} |
| Validation.GetEquivalenceClasses | utils/validation_helpers.py:107-125 | "quantity" gives 8 classes, "category" gives 3, and any other key gives an empty map |
| Validation.QuantityClassesAgreeWithValidator | utils/validation_helpers.py:107-117 | every sample value of the quantity classes is accepted by the validator exactly when its class is "valid_positive" |
| Validation.ClassAgrees | utils/validation_helpers.py:107-117 | for each quantity class, all of its sample values get the same verdict: accepted for "valid_positive", rejected for the other seven |
| Validation.NoneRejected | utils/validation_helpers.py:24-61 | `None` becomes the text "None" and is rejected as not numeric |
| Boundary.FloorDiv | utils/boundary_helpers.py:27-29 | Python's `//` with a positive divisor: the quotient q satisfies q·b ≤ a < (q+1)·b |
| Boundary.GetBoundaryValues | utils/boundary_helpers.py:22-34 | below-minimum values are min−2 and min−1, both under min; above-maximum values are max+1 and max+2, both over max; just-above and just-below are min+1 and max−1; when min ≤ max the three normal values are nondecreasing and lie in [min, max] |
| Boundary.NormalValuesReversedBounds | utils/boundary_helpers.py:26-30 | with max < min the normal values still lie between the bounds, now nonincreasing |
| Boundary.BoundaryValuesExample | utils/boundary_helpers.py:22-34 | for the range 1..999 the lists are [-1, 0], [1], [2], [250, 500, 749], [998], [999] and [1000, 1001] |
| Boundary.AnalyzeBoundaryBehavior | utils/boundary_helpers.py:49-83 | the behaviour is "accept" exactly for the two boundary categories and within_range; risk is "high" exactly for below/above, "medium" exactly for the two boundaries, "low" exactly for within_range |
| Boundary.CategoryIsTheOneDescribed | utils/boundary_helpers.py:49-83 | the category returned is the one whose condition holds, with the earlier tests taking precedence: below (v < min), at minimum, above (v > max), at maximum, else within |
| Boundary.AcceptedValues | utils/boundary_helpers.py:49-83 | a value is accepted exactly when it equals min or lies in (min, max] |
| Boundary.WithinRangeIsStrictlyInside | utils/boundary_helpers.py:77-83 | when min < max the category is within_range exactly when min < v < max |
| Boundary.DegenerateRange | utils/boundary_helpers.py:56-62 | when min = max = v the category is minimum_boundary, since that test comes first |
| Boundary.OutOfRangeDescriptions | utils/boundary_helpers.py:49-69 | below min the expected behaviour is "reject_or_reset" and the description "Value {v} is below minimum {min}"; above max (and above min) they are "reject_or_limit" and "Value {v} exceeds maximum {max}" |
| Boundary.InRangeDescriptions | utils/boundary_helpers.py:56-83 | at the minimum the description is "Value {v} is at minimum boundary"; at the maximum (above the minimum) "Value {v} is at maximum boundary"; strictly inside "Value {v} is within valid range" |
| Boundary.BelowMinimumExample | utils/boundary_helpers.py:49-55 | 0 against 1..999 is described as "Value 0 is below minimum 1" |
| Boundary.AboveMaximumExample | utils/boundary_helpers.py:63-69 | 1000 against 1..999 is described as "Value 1000 exceeds maximum 999" |
| Boundary.GetQuantityBoundaries | utils/boundary_helpers.py:93-99 | absolute and practical minimum are both 1, and 1 < reasonable maximum < system maximum < stress value |
| Boundary.QuantityBoundariesClassified | utils/boundary_helpers.py:49-99 | against the range from the absolute minimum to the system maximum, the stress value is above the maximum, the reasonable maximum is within range and the practical minimum is the minimum boundary |
| ErrorCategory.CategorizeError | utils/error_handlers.py:94-101 | the result is always one of the four labels |
| ErrorCategory.CategoryRules | utils/error_handlers.py:88-101 | SELENIUM_ERROR iff the name is one of the five listed; NETWORK_ERROR iff not listed and the name contains "Connection" or "Network"; PERMISSION_ERROR iff neither of those and it contains "Permission" or "Access"; GENERAL_ERROR otherwise |
| ErrorCategory.NetworkBeforePermission | utils/error_handlers.py:96-99 | "NetworkAccessError" is a network error, not a permission error |
| ErrorCategory.LowerCaseMarkerIsGeneral | utils/error_handlers.py:96-101 | matching is case-sensitive: "connectionerror" is a general error |
| ErrorCategory.ExtendedSeleniumNameIsGeneral | utils/error_handlers.py:88-101 | membership is exact: "MyTimeoutException" is a general error |
| ErrorCategory.SeleniumExample | utils/error_handlers.py:88-95 | "TimeoutException" is a Selenium error |
| ErrorCategory.NetworkExample | utils/error_handlers.py:96-97 | "ConnectionError" is a network error |
| ErrorCategory.PermissionExample | utils/error_handlers.py:98-99 | "PermissionError" is a permission error |
| ErrorCategory.GeneralExample | utils/error_handlers.py:100-101 | "ValueError" is a general error |
| BvaVerdict.Status | tests/test_case_bva_comprehensive.py:167-180 | the status is always PASSED or FAILED; the initial "UNKNOWN" never survives |
| BvaVerdict.FieldReset | tests/test_case_bva_comprehensive.py:154 | a `None` input is never a reset; for an int input, reading back an integer literal of a different value is a reset, and so is reading back the same number with a leading zero, since the comparison is of text |
| BvaVerdict.ActualBehavior | tests/test_case_bva_comprehensive.py:157-164 | a non-empty error text makes the label start with "ERROR_MESSAGE: "; the label is "NO_VALIDATION_RESPONSE" exactly when there is no error text, no reset and no "Accept" in the expectation, and "ACCEPTED" exactly when there is none of the first two and "Accept" is expected |
| BvaVerdict.AnalyzeBoundaryResult | tests/test_case_bva_comprehensive.py:154-191 | the record's status is PASSED or FAILED, and test id, input, expected label, boundary type, field value and error text are echoed unchanged |
| BvaVerdict.AcceptVerdict | tests/test_case_bva_comprehensive.py:169-174 | when the expected label contains "Accept", the test passes exactly when there is no non-empty error text and no field reset |
| BvaVerdict.RejectVerdict | tests/test_case_bva_comprehensive.py:175-180 | for any other expected label, the test passes exactly when there is a non-empty error text or a field reset |
| BvaVerdict.OppositeVerdicts | tests/test_case_bva_comprehensive.py:169-180 | on the same observations, an accepting and a rejecting expectation get opposite statuses |
| BvaVerdict.NoneNeverResets | tests/test_case_bva_comprehensive.py:154 | a `None` input never counts as a field reset |
| BvaVerdict.LabelPrecedence | tests/test_case_bva_comprehensive.py:151-164 | a non-empty error text gives "ERROR_MESSAGE: …", which wins over a reset, which gives "FIELD_RESET: …"; otherwise "ACCEPTED" if the label contains "Accept", else "NO_VALIDATION_RESPONSE"; an empty error text counts as absent |
| BvaVerdict.LabelAgreesWithVerdict | tests/test_case_bva_comprehensive.py:157-180 | with an accepting expectation the test passes iff the label is "ACCEPTED"; with any other it passes iff the label is not "NO_VALIDATION_RESPONSE" |
| BvaVerdict.ZeroResetExample | tests/test_case_bva_comprehensive.py:151-180 | typing 0 and reading back "1", with an empty error text, is a "FIELD_RESET: 1" that passes for "Reject/Reset" |
| BvaVerdict.NoResultsOfAbsentType | tests/test_case_bva_comprehensive.py:256-266 | a boundary type that no result carries has zero total and zero passed |
| BvaVerdict.TallyStep | tests/test_case_bva_comprehensive.py:257-266 | one result adds its boundary type to the keys, leaves every other type's entry unchanged, and adds one to the total and one to passed or to failed according to whether its status is PASSED |
| BvaVerdict.BoundaryStats | tests/test_case_bva_comprehensive.py:256-266 | the tally has an entry exactly for the boundary types that occur; for each, passed + failed = total, total is the number of results of that type, and passed is the number of those whose status is PASSED |
| BvaTable.MatrixSizes | config/boundary_value_table.py:76-97 | the matrix has 5 valid and 12 invalid cases, 17 in all |
| BvaTable.TestIdsDistinct | config/boundary_value_table.py:76-97 | all 17 test ids are distinct |
| BvaTable.ExpectedLabels | config/boundary_value_table.py:77-96 | every valid case expects exactly "Accept", and no invalid case's label contains "Accept" |
| BvaTable.IntegerInputsAgainstRange | config/boundary_value_table.py:18-90 | integer inputs of valid cases lie in 1..999; integer inputs of invalid cases lie outside it |
| BvaTable.ResetCasesAreNonPositive | config/boundary_value_table.py:85-96 | the "Reject/Reset" cases are exactly the invalid cases whose input is an integer ≤ 0 |
| BvaTable.MatrixFollowsTable | config/boundary_value_table.py:22-97 | the matrix inputs are the table's V1–V5 and X1–X12 values in order, and each test id is "BVA_" followed by the table key |
| BvaTable.MatrixAgreesWithAnalysis | config/boundary_value_table.py:76-90 | for every integer input, the matrix expects "Accept" exactly when the boundary classification of 1..999 says "accept" |
| Suite.CountsPartition | run_all_tests.py:133-160 | every record is counted exactly once: as passed, as failed, under another status, or as having no status |
| Suite.RunEntry | run_all_tests.py:118-160 | one pass of the try/except: the records appended for one entry are the reference records for its outcome, and each counter grows by the number of those records with its status; an exception adds exactly one error and nothing else |
| Suite.CountsAppend | run_all_tests.py:131-160 | each counter of a concatenation is the sum of the counters of its parts, so tallying entry by entry gives the tally of the whole result list |
| Suite.RunAllTests | run_all_tests.py:105-160 | the results are the per-entry records in entry order; `passed` and `failed` count the records with exactly that status; `errors` counts the records with any other status; passed + failed + errors + status-less records = the number of results |
| Suite.OneRecordPerEntry | run_all_tests.py:118-152 | when every returned record carries a status, entry i yields exactly record i, with id, description, techniques, dynamic testing, input and expected copied; a returned status and message are kept; an exception gives status "ERROR" and message "Exception during execution: " + the exception text |
| Suite.CountersCoverResults | run_all_tests.py:131-203 | when every returned record carries a status, passed + failed + errors equals the number of results, which equals the number of entries |
| Suite.MissingStatusCountsOnce | run_all_tests.py:131-152 | a returned record without a status is appended and then followed by an ERROR record, so that entry adds two results but only one to the counters |
| Suite.SixResults | run_all_tests.py:40-160 | the suite has six entries, TC05 to TC10 in order, and yields six results |
| SingleTest.ZFill | run_single_test.py:156 | `str.zfill`: the result's length is the larger of the width and the input length, and an input at least that long is unchanged |
| SingleTest.ZFillInsertsZeros | run_single_test.py:156 | padding only inserts '0's, after a leading '+' or '-' when there is one, and keeps the rest of the string in order |
| SingleTest.LeadingZerosKeepValue | run_single_test.py:156 | leading zeros do not change the value of a digit string |
| SingleTest.ZFillKeepsValue | run_single_test.py:156 | padding an integer literal gives an integer literal with the same value |
| SingleTest.NormaliseId | run_single_test.py:156 | the normalised id has length 2 when the argument is shorter, and an argument of length 2 or more is used as it is |
| SingleTest.NormaliseExamples | run_single_test.py:156 | "5" → "05", "" → "00", "-" → "-0", "+" → "+0"; "10" and "005" are unchanged |
| SingleTest.TestCaseIds | run_single_test.py:27-58 | the known ids are exactly "05" to "10", each two characters long and unchanged by normalisation |
| SingleTest.RunSpecificTest | run_single_test.py:77-118 | success requires a known id; it holds exactly when the test function returns a record with a message and the status PASSED; an exception or a missing key gives failure |
| SingleTest.UnknownIdIgnoresOracle | run_single_test.py:77-82 | for an unknown id the answer is False whatever the test functions would do |
| SingleTest.SingleAgreesWithSuite | run_single_test.py:99-118 | for a known id, the single runner succeeds exactly when the suite runner records the outcome as PASSED and the returned record carries a message |
| SingleTest.RunnersDisagreeWithoutMessage | run_single_test.py:99-118 | a record with status PASSED and no message is a single PASSED record for the suite runner, while the single runner fails on it |
| SingleTest.MainExitCode | run_single_test.py:154-158 | the exit code is 0 or 1; it is 0 exactly when the argument is empty, since `if args.test:` skips it, or when the normalised id runs successfully |
| SingleTest.PaddedAndUnpaddedAgree | run_single_test.py:154-158 | "5" and "05" give the same exit code |
| SingleTest.ThreeDigitIdRejected | run_single_test.py:77-158 | "005" is not shortened, is unknown, and always exits with 1 |
| Selectors.LocatorOf | utils/test_helpers.py:33-42 | a selector is used as an XPath query exactly when it starts with "//", otherwise as CSS, and the query text is the selector itself |
| Selectors.FindElement | utils/test_helpers.py:31-49 | None is returned exactly when every selector times out, including for an empty list; otherwise the result is decided by the first selector whose wait does not time out: its element, or its error raised to the caller |
| Selectors.FirstAnswerShifts | utils/test_helpers.py:45-46 | after a timed-out first selector, the search continues on the rest: the first answer moves up by one, and all time out iff the rest all do |
| Selectors.FirstAnswerUnique | utils/test_helpers.py:31-46 | there is at most one first selector that does not time out |
| Selectors.FindElementAppend | utils/test_helpers.py:31-49 | once a prefix of the list decides the result, appended selectors are never tried; if the prefix found nothing, the appended selectors alone decide |
| Selectors.OnlyPrefixConsulted | utils/test_helpers.py:31-46 | two pages that answer alike up to and including the first answer give the same result |
| Selectors.AddToCartKinds | config/locators.py:10-18 | the first three add-to-cart selectors are XPath queries and the other four are CSS |
| Selectors.QuantityInputKinds | config/locators.py:21-27 | every quantity-input selector is a CSS query |
| Selectors.EmptySelectorList | utils/test_helpers.py:31-49 | an empty selector list gives None whatever the page |

## Left out

- Selenium interaction is not modelled: `safe_click`, `safe_send_keys`, `take_screenshot`, `DriverManager`, `handle_selenium_error` and `setup_logging`. The browser is only reachable through the page oracle of `Selectors.FindElement` and the error text passed to `BvaVerdict.AnalyzeBoundaryResult`.
- The driver call at tests/test_case_bva_comprehensive.py:147-151 is left out. Its result, the error element's text or None, is a parameter.
- The `timeout` argument of the selector lookup is not modelled. Whether a wait times out is the page oracle's answer.
- The per-scenario scripts tests/test_case_05.py–test_case_10.py are not modelled. Their verdicts are interleaved with driver calls and Unicode `lower()` keyword matching. They appear only as the test-function oracle of the suite and single-test runners.
- Timings, timestamps, pass rates and the average test time in run_all_tests.py are left out. They are floating point and clock readings.
- Report rendering and file writing are left out, both in run_all_tests.py and in the BVA report.
- Log output and console printing are left out.
- The `--list` option of run_single_test.py is left out. It only prints.
- Validation.ValidateText: Python's `\d` and `int()` also accept non-ASCII Unicode decimal digits. Only '0'–'9' are modelled as digits.
- Validation.ValidateText: floats reach the validator only through the text of their `repr`. Float arithmetic is not modelled.
- Validation.ValidateNumericInput: the `except` branch (utils/validation_helpers.py:63-68) is modelled for the one failure the modelled values can meet, the 4300-digit limit of `str()` and `int()`, with CPython 3.12's wording of the ValueError. The limit is CPython's default; a program that changes it with `sys.set_int_max_str_digits` or `PYTHONINTMAXSTRDIGITS` is not modelled, and neither are objects whose `__str__` raises.
- PyText.IntToStringRoundTrip: states the round trip of the conversions themselves. In CPython both raise ValueError beyond 4300 digits; that error path is modelled in the validator only.
- Boundary.AnalyzeBoundaryBehavior: the f-strings at utils/boundary_helpers.py:53-82 call `str()` on the value and the bound, which raises ValueError for an int of more than 4300 digits; the model always returns a record. Nothing in the suite passes such a value.
- BvaVerdict.AnalyzeBoundaryResult: `str(input_value)` at tests/test_case_bva_comprehensive.py:154 raises ValueError for an int of more than 4300 digits; the model, through BvaVerdict.FieldReset, always returns a record. The boundary table's inputs all have at most 6 digits.
- Validation.ValidateSpecialCharacters: the message field is not modelled. Its text joins a Python set, whose iteration order is unspecified. `special_chars_found` is modelled as a set, not as the list `list(set(...))`, for the same reason.
- Validation.GetEquivalenceClasses: the "category" classes are kept as sample constants only, since no validator in the source consumes them.
- ErrorCategory.CategorizeError takes the exception's type name, `type(error).__name__`, as a string. Exception objects are not modelled.
- Suite.RunAllTests: the test functions are an oracle from entry to outcome. Their side effects and any extra keys of the returned record are not modelled.
- Suite.RunAllTests: the message of a status-less record's error entry is `str(KeyError('status'))`, which is "'status'".
- SingleTest.RunSpecificTest: the test functions are an oracle keyed by the normalised id. They are called at most once, and only for a known id.
- config/settings.py, config/test_data.py and run_bva_complete.py are not part of this model. They hold configuration and interactive prompts. Two selector lists from config/locators.py are used only as sample constants for the selector-kind lemmas.
