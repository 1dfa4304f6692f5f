/**
 `ErrorHandlers.categorize_error` (utils/error_handlers.py): the label an
 exception's class name is reported under.
 */
module ErrorCategory {
  import opened PyText

  const SeleniumErrors: seq<string> := [
    "NoSuchElementException", "ElementNotInteractableException",
    "TimeoutException", "StaleElementReferenceException",
    "ElementClickInterceptedException"
  ]

  const SeleniumError := "SELENIUM_ERROR"
  const NetworkError := "NETWORK_ERROR"
  const PermissionError := "PERMISSION_ERROR"
  const GeneralError := "GENERAL_ERROR"

  /** The category of an exception, given `type(error).__name__`. */
  function CategorizeError(errorType: string): (r: string)
    ensures r in {SeleniumError, NetworkError, PermissionError, GeneralError}
  {
    if errorType in SeleniumErrors then SeleniumError
    else if Contains(errorType, "Connection") || Contains(errorType, "Network") then NetworkError
    else if Contains(errorType, "Permission") || Contains(errorType, "Access") then PermissionError
    else GeneralError
  }

  /** Each label, characterised through substring positions rather than the scan:
      the first rule that applies decides. */
  lemma CategoryRules(errorType: string)
    ensures CategorizeError(errorType) == SeleniumError <==> errorType in SeleniumErrors
    ensures CategorizeError(errorType) == NetworkError <==>
      errorType !in SeleniumErrors
      && ((exists i :: OccursAt(errorType, "Connection", i)) || (exists i :: OccursAt(errorType, "Network", i)))
    ensures CategorizeError(errorType) == PermissionError <==>
      errorType !in SeleniumErrors
      && !(exists i :: OccursAt(errorType, "Connection", i)) && !(exists i :: OccursAt(errorType, "Network", i))
      && ((exists i :: OccursAt(errorType, "Permission", i)) || (exists i :: OccursAt(errorType, "Access", i)))
    ensures CategorizeError(errorType) == GeneralError <==>
      errorType !in SeleniumErrors
      && !(exists i :: OccursAt(errorType, "Connection", i)) && !(exists i :: OccursAt(errorType, "Network", i))
      && !(exists i :: OccursAt(errorType, "Permission", i)) && !(exists i :: OccursAt(errorType, "Access", i))
  {
    ContainsIsOccurrence(errorType, "Connection");
    ContainsIsOccurrence(errorType, "Network");
    ContainsIsOccurrence(errorType, "Permission");
    ContainsIsOccurrence(errorType, "Access");
  }

  /** A network marker outranks a permission marker in the same name. */
  lemma NetworkBeforePermission(errorType: string)
    requires errorType == "NetworkAccessError"
    ensures CategorizeError(errorType) == NetworkError
  {
    assert StartsWith(errorType, "Network");
  }

  /** The markers are case-sensitive: a lower-case marker is not a marker. */
  lemma LowerCaseMarkerIsGeneral(errorType: string)
    requires errorType == "connectionerror"
    ensures CategorizeError(errorType) == GeneralError
  {
    assert errorType !in SeleniumErrors;
    assert 'C' !in errorType && 'N' !in errorType && 'P' !in errorType && 'A' !in errorType;
    NoMarkers(errorType);
  }

  /** Membership in the Selenium list is exact: a longer name around a listed one
      is not listed. */
  lemma ExtendedSeleniumNameIsGeneral(errorType: string)
    requires errorType == "MyTimeoutException"
    ensures CategorizeError(errorType) == GeneralError
  {
    assert errorType !in SeleniumErrors;
    assert 'C' !in errorType && 'N' !in errorType && 'P' !in errorType && 'A' !in errorType;
    NoMarkers(errorType);
  }

  /** A name without the capitals 'C', 'N', 'P' and 'A' holds none of the markers. */
  lemma NoMarkers(errorType: string)
    requires 'C' !in errorType && 'N' !in errorType && 'P' !in errorType && 'A' !in errorType
    ensures !Contains(errorType, "Connection") && !Contains(errorType, "Network")
    ensures !Contains(errorType, "Permission") && !Contains(errorType, "Access")
  {
    NotContainsWithoutHead(errorType, "Connection");
    NotContainsWithoutHead(errorType, "Network");
    NotContainsWithoutHead(errorType, "Permission");
    NotContainsWithoutHead(errorType, "Access");
  }

  lemma SeleniumExample(errorType: string)
    requires errorType == "TimeoutException"
    ensures CategorizeError(errorType) == SeleniumError
  {
  }

  lemma NetworkExample(errorType: string)
    requires errorType == "ConnectionError"
    ensures CategorizeError(errorType) == NetworkError
  {
    assert StartsWith(errorType, "Connection");
  }

  lemma PermissionExample(errorType: string)
    requires errorType == "PermissionError"
    ensures CategorizeError(errorType) == PermissionError
  {
    assert StartsWith(errorType, "Permission");
    NotContainsWithoutHead(errorType, "Connection");
    NotContainsWithoutHead(errorType, "Network");
  }

  lemma GeneralExample(errorType: string)
    requires errorType == "ValueError"
    ensures CategorizeError(errorType) == GeneralError
  {
    assert errorType !in SeleniumErrors;
    assert 'C' !in errorType && 'N' !in errorType && 'P' !in errorType && 'A' !in errorType;
    NoMarkers(errorType);
  }
}
