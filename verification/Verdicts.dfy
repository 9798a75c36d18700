/**
 Validation results and the four readings of them that have to agree: error code, recoverable flag,
 failure classification and retry decision (nodes/validation.py and nodes/classify_failure.py).
 */
module Verdicts {
  import opened Collections

  // The code looks for substrings in check names and details. A check carries the outcome of each such
  // search as a flag, so a result read from a fixture may combine them in any way.

  datatype CheckStatus = CheckPending | CheckPassed | CheckFailed | CheckSkipped

  // Which of the words searched for occur in the check's name.
  datatype NameWords = NameWords(compile: bool, test: bool, security: bool, license: bool)

  // Which of the phrases searched for occur in the check's details.
  datatype DetailPhrases = DetailPhrases(uninspectable: bool, fetchTransient: bool, stillResolves: bool, expectedOnly: bool)

  datatype Check = Check(name: NameWords, status: CheckStatus, details: DetailPhrases)

  datatype ValidationResult = ValidationResult(
    repository: string, status: CheckStatus, checks: seq<Check>, unresolvedSummary: bool)

  datatype ErrorCode =
    | PolicyBlocked
    | ApprovalRejected
    | ValidationTransientFailed
    | ValidationCompileFailed
    | ValidationTestFailed
    | ValidationSecurityFailed
    | ValidationLicenseFailed
    | ValidationFailed
    | DeliveryBranchPublicationFailed
    | DeliveryPullRequestFailed
    | DeliveryJiraFailed
    | DeliveryFailed

  datatype WorkflowError = WorkflowError(code: ErrorCode, recoverable: bool, repository: Option<string>)

  datatype Classification =
    NetworkTransient | CompileError | TestFailure | PolicyBlock | RecipeNoop | LicenseViolation | UnknownFailure

  predicate IsDeliveryCode(code: ErrorCode) {
    code.DeliveryBranchPublicationFailed? || code.DeliveryPullRequestFailed? || code.DeliveryJiraFailed? || code.DeliveryFailed?
  }

  predicate IsValidationCode(code: ErrorCode) {
    !IsDeliveryCode(code) && !code.PolicyBlocked? && !code.ApprovalRejected?
  }

  /* ---------- One check ---------- */

  predicate IsTransient(c: Check) {
    (c.name.security || c.name.license) && (c.details.uninspectable || c.details.fetchTransient)
  }

  predicate IsRetryableCheck(c: Check) {
    c.name.test || IsTransient(c)
  }

  function CodeOfCheck(c: Check): Option<ErrorCode> {
    if IsTransient(c) then Some(ValidationTransientFailed)
    else if c.name.compile then Some(ValidationCompileFailed)
    else if c.name.test then Some(ValidationTestFailed)
    else if c.name.security then Some(ValidationSecurityFailed)
    else if c.name.license then Some(ValidationLicenseFailed)
    else None
  }

  function ClassOfCheck(c: Check, unresolvedSummary: bool): Option<Classification> {
    if c.name.compile then Some(CompileError)
    else if c.name.test then Some(TestFailure)
    else if c.name.security && (c.details.stillResolves || c.details.expectedOnly || unresolvedSummary) then Some(RecipeNoop)
    else if c.name.license then Some(LicenseViolation)
    else None
  }

  /* ---------- The list of checks ---------- */

  predicate SomeFailed(checks: seq<Check>) {
    exists i :: 0 <= i < |checks| && checks[i].status == CheckFailed
  }

  predicate OnlyRetryableFailed(checks: seq<Check>) {
    forall i :: 0 <= i < |checks| && checks[i].status == CheckFailed ==> IsRetryableCheck(checks[i])
  }

  predicate RecoverableChecks(checks: seq<Check>) {
    SomeFailed(checks) && OnlyRetryableFailed(checks)
  }

  function CodeOfChecks(checks: seq<Check>): ErrorCode {
    if checks == [] then ValidationFailed
    else if checks[0].status == CheckFailed && CodeOfCheck(checks[0]).Some? then CodeOfCheck(checks[0]).value
    else CodeOfChecks(checks[1..])
  }

  function ClassOfChecks(checks: seq<Check>, unresolvedSummary: bool): Classification {
    if checks == [] then
      if unresolvedSummary then RecipeNoop else UnknownFailure
    else if checks[0].status == CheckFailed && ClassOfCheck(checks[0], unresolvedSummary).Some? then
      ClassOfCheck(checks[0], unresolvedSummary).value
    else ClassOfChecks(checks[1..], unresolvedSummary)
  }

  function Classify(errors: seq<WorkflowError>, results: seq<ValidationResult>): Classification {
    if errors != [] && (Last(errors).code.PolicyBlocked? || Last(errors).code.ApprovalRejected?) then PolicyBlock
    else if errors != [] && IsDeliveryCode(Last(errors).code) then
      if Last(errors).recoverable then NetworkTransient else UnknownFailure
    else if errors != [] && Last(errors).code.ValidationTransientFailed? then NetworkTransient
    else if results == [] then UnknownFailure
    else ClassOfChecks(Last(results).checks, Last(results).unresolvedSummary)
  }

  predicate IsRetryableClass(c: Classification) {
    c.TestFailure? || c.NetworkTransient?
  }

  // The error handle_validation_failure appends for a failed result.
  function ErrorOfResult(result: ValidationResult): WorkflowError {
    WorkflowError(CodeOfChecks(result.checks), RecoverableChecks(result.checks), Some(result.repository))
  }

  // Whether classify_failure, entered with that error on top, may retry as far as the failure
  // itself is concerned (the attempt budgets come on top of this).
  predicate RetryableResult(errors: seq<WorkflowError>, results: seq<ValidationResult>)
    requires results != []
  {
    var all := errors + [ErrorOfResult(Last(results))];
    Last(all).recoverable && IsRetryableClass(Classify(all, results))
  }

  /* ---------- The readings in words ---------- */

  predicate SaysTransient(check: Check) {
    (check.name.security || check.name.license) && (check.details.uninspectable || check.details.fetchTransient)
  }

  predicate HasWord(check: Check) {
    check.name.compile || check.name.test || check.name.security || check.name.license
  }

  predicate FirstWithWord(checks: seq<Check>, i: int) {
    && 0 <= i < |checks| && checks[i].status == CheckFailed && HasWord(checks[i])
    && forall j :: 0 <= j < i && checks[j].status == CheckFailed ==> !HasWord(checks[j])
  }

  // The code of a failed check with one of the words: a transient failure before its kind, and of the
  // kinds the first in the order compile, test, security, license.
  predicate CodeFits(check: Check, code: ErrorCode) {
    && (code.ValidationTransientFailed? <==> SaysTransient(check))
    && (code.ValidationCompileFailed? <==> !SaysTransient(check) && check.name.compile)
    && (code.ValidationTestFailed? <==> !SaysTransient(check) && !check.name.compile && check.name.test)
    && (code.ValidationSecurityFailed? <==>
          !SaysTransient(check) && !check.name.compile && !check.name.test && check.name.security)
  }

  lemma CodesInWords(checks: seq<Check>)
    ensures CodeOfChecks(checks).ValidationFailed? <==>
      forall check :: check in checks && check.status == CheckFailed ==> !HasWord(check)
    ensures forall i :: FirstWithWord(checks, i) ==> CodeFits(checks[i], CodeOfChecks(checks))
    decreases |checks|
  {
    if checks != [] {
      CodesInWords(checks[1..]);
      assert forall check :: check in checks <==> check == checks[0] || check in checks[1..];
      forall i | FirstWithWord(checks, i)
        ensures CodeFits(checks[i], CodeOfChecks(checks))
      {
        if i > 0 {
          assert checks[1..][i - 1] == checks[i];
          assert FirstWithWord(checks[1..], i - 1);
        }
      }
    }
  }

  // The check says what kind of failure it is.
  predicate Tells(check: Check, unresolvedSummary: bool) {
    || check.name.compile || check.name.test || check.name.license
    || (check.name.security && (check.details.stillResolves || check.details.expectedOnly || unresolvedSummary))
  }

  predicate FirstTelling(checks: seq<Check>, unresolvedSummary: bool, i: int) {
    && 0 <= i < |checks| && checks[i].status == CheckFailed && Tells(checks[i], unresolvedSummary)
    && forall j :: 0 <= j < i && checks[j].status == CheckFailed ==> !Tells(checks[j], unresolvedSummary)
  }

  predicate ClassFits(check: Check, unresolvedSummary: bool, reading: Classification) {
    && (reading.CompileError? <==> check.name.compile)
    && (reading.TestFailure? <==> !check.name.compile && check.name.test)
    && (reading.RecipeNoop? <==>
          && !check.name.compile && !check.name.test && check.name.security
          && (check.details.stillResolves || check.details.expectedOnly || unresolvedSummary))
    && (reading.CompileError? || reading.TestFailure? || reading.RecipeNoop? || reading.LicenseViolation?)
  }

  /** The first failed check that tells its kind decides the classification; when none does, the summary. */
  lemma ClassesInWords(checks: seq<Check>, unresolvedSummary: bool)
    ensures var reading := ClassOfChecks(checks, unresolvedSummary);
      && !reading.PolicyBlock? && !reading.NetworkTransient?
      && (forall i :: FirstTelling(checks, unresolvedSummary, i) ==> ClassFits(checks[i], unresolvedSummary, reading))
      && ((forall check :: check in checks && check.status == CheckFailed ==> !Tells(check, unresolvedSummary)) ==>
            reading == if unresolvedSummary then RecipeNoop else UnknownFailure)
    decreases |checks|
  {
    if checks != [] {
      ClassesInWords(checks[1..], unresolvedSummary);
      assert forall check :: check in checks <==> check == checks[0] || check in checks[1..];
      forall i | FirstTelling(checks, unresolvedSummary, i)
        ensures ClassFits(checks[i], unresolvedSummary, ClassOfChecks(checks, unresolvedSummary))
      {
        if i > 0 {
          assert checks[1..][i - 1] == checks[i];
          assert FirstTelling(checks[1..], unresolvedSummary, i - 1);
        }
      }
    }
  }

  /* ---------- The loops of the source ---------- */

  method IsRecoverableValidationFailure(result: ValidationResult) returns (recoverable: bool)
    ensures recoverable == RecoverableChecks(result.checks)
    ensures recoverable <==>
      && (exists check :: check in result.checks && check.status == CheckFailed)
      && forall check :: check in result.checks && check.status == CheckFailed ==> check.name.test || SaysTransient(check)
  {
    var hasRetryableFailure := false;
    for i := 0 to |result.checks|
      invariant hasRetryableFailure == SomeFailed(result.checks[..i])
      invariant OnlyRetryableFailed(result.checks[..i])
    {
      var check := result.checks[i];
      assert result.checks[..i + 1] == result.checks[..i] + [check];
      if check.status != CheckFailed {
        continue;
      }
      if check.name.test || IsTransient(check) {
        hasRetryableFailure := true;
        assert result.checks[..i + 1][i].status == CheckFailed;
        continue;
      }
      return false;
    }
    assert result.checks[..|result.checks|] == result.checks;
    return hasRetryableFailure;
  }

  /** The first failed check whose name has one of the words gives the code. */
  method BuildValidationErrorCode(result: ValidationResult) returns (code: ErrorCode)
    ensures code == CodeOfChecks(result.checks)
    ensures code.ValidationFailed? <==> forall check :: check in result.checks && check.status == CheckFailed ==> !HasWord(check)
    ensures forall i :: FirstWithWord(result.checks, i) ==> CodeFits(result.checks[i], code)
  {
    CodesInWords(result.checks);
    for i := 0 to |result.checks|
      invariant CodeOfChecks(result.checks[i..]) == CodeOfChecks(result.checks)
    {
      var check := result.checks[i];
      assert result.checks[i..][1..] == result.checks[i + 1..];
      if check.status != CheckFailed {
        continue;
      }
      if IsTransient(check) {
        return ValidationTransientFailed;
      }
      if check.name.compile {
        return ValidationCompileFailed;
      }
      if check.name.test {
        return ValidationTestFailed;
      }
      if check.name.security {
        return ValidationSecurityFailed;
      }
      if check.name.license {
        return ValidationLicenseFailed;
      }
    }
    return ValidationFailed;
  }

  method ClassifyLatestFailure(errors: seq<WorkflowError>, results: seq<ValidationResult>)
    returns (classification: Classification)
    ensures classification == Classify(errors, results)
  {
    if errors != [] {
      var latest := Last(errors);
      if latest.code.PolicyBlocked? || latest.code.ApprovalRejected? {
        return PolicyBlock;
      }
      if IsDeliveryCode(latest.code) {
        return if latest.recoverable then NetworkTransient else UnknownFailure;
      }
      if latest.code.ValidationTransientFailed? {
        return NetworkTransient;
      }
    }
    if results == [] {
      return UnknownFailure;
    }
    var result := Last(results);
    for i := 0 to |result.checks|
      invariant ClassOfChecks(result.checks[i..], result.unresolvedSummary)
             == ClassOfChecks(result.checks, result.unresolvedSummary)
    {
      var check := result.checks[i];
      assert result.checks[i..][1..] == result.checks[i + 1..];
      if check.status != CheckFailed {
        continue;
      }
      if check.name.compile {
        return CompileError;
      }
      if check.name.test {
        return TestFailure;
      }
      if check.name.security && (check.details.stillResolves || check.details.expectedOnly || result.unresolvedSummary) {
        return RecipeNoop;
      }
      if check.name.license {
        return LicenseViolation;
      }
    }
    if result.unresolvedSummary {
      return RecipeNoop;
    }
    return UnknownFailure;
  }

  /** A policy block and a rejected approval are classified as such, a delivery failure by whether it can
      be repeated, a transient scan failure as one of the network; only then do the checks count. */
  lemma ClassifyExactly(errors: seq<WorkflowError>, results: seq<ValidationResult>)
    ensures var reading := Classify(errors, results);
      && (reading.PolicyBlock? <==> errors != [] && (Last(errors).code.PolicyBlocked? || Last(errors).code.ApprovalRejected?))
      && (reading.NetworkTransient? <==>
            && errors != []
            && (Last(errors).code.ValidationTransientFailed? || (IsDeliveryCode(Last(errors).code) && Last(errors).recoverable)))
      && (errors != [] && IsDeliveryCode(Last(errors).code) ==> reading.NetworkTransient? || reading.UnknownFailure?)
      && (errors == [] || (IsValidationCode(Last(errors).code) && !Last(errors).code.ValidationTransientFailed?) ==>
            reading == if results == [] then UnknownFailure else ClassOfChecks(Last(results).checks, Last(results).unresolvedSummary))
  {
    if results != [] {
      ClassesInWords(Last(results).checks, Last(results).unresolvedSummary);
    }
    hide ClassOfChecks, FirstTelling, ClassFits, Tells;
  }

  /* ---------- How the four readings agree ---------- */

  function FirstFailed(checks: seq<Check>): (i: nat)
    requires SomeFailed(checks)
    ensures i < |checks| && checks[i].status == CheckFailed
    ensures forall j :: 0 <= j < i ==> checks[j].status != CheckFailed
  {
    if checks[0].status == CheckFailed then 0
    else
      assert SomeFailed(checks[1..]) by {
        var j :| 0 <= j < |checks| && checks[j].status == CheckFailed;
        assert checks[1..][j - 1].status == CheckFailed;
      }
      1 + FirstFailed(checks[1..])
  }

  // When the first failed check matches one of the words, it alone decides both readings.
  lemma {:induction false} FirstFailedDecides(checks: seq<Check>, unresolvedSummary: bool)
    requires SomeFailed(checks)
    ensures var first := checks[FirstFailed(checks)];
      && (CodeOfCheck(first).Some? ==> CodeOfChecks(checks) == CodeOfCheck(first).value)
      && (ClassOfCheck(first, unresolvedSummary).Some? ==>
            ClassOfChecks(checks, unresolvedSummary) == ClassOfCheck(first, unresolvedSummary).value)
  {
    if checks[0].status != CheckFailed {
      assert SomeFailed(checks[1..]) by {
        var j := FirstFailed(checks);
        assert checks[1..][j - 1].status == CheckFailed;
      }
      assert checks[1..][FirstFailed(checks[1..])] == checks[FirstFailed(checks)];
      FirstFailedDecides(checks[1..], unresolvedSummary);
    }
  }

  /** For every result, whatever words its checks combine: the failure is retryable iff all failed
      checks are test or transient-scan failures and the first of them is not also a compile check
      (unless it is transient). */
  lemma RetryableResultExactly(errors: seq<WorkflowError>, results: seq<ValidationResult>)
    requires results != []
    ensures var checks := Last(results).checks;
      RetryableResult(errors, results) <==>
        && RecoverableChecks(checks)
        && (var first := checks[FirstFailed(checks)]; IsTransient(first) || !first.name.compile)
  {
    var result := Last(results);
    var all := errors + [ErrorOfResult(result)];
    assert Last(all) == ErrorOfResult(result);
    if RecoverableChecks(result.checks) {
      FirstFailedDecides(result.checks, result.unresolvedSummary);
      assert IsRetryableCheck(result.checks[FirstFailed(result.checks)]);
    }
  }

  /** A test check whose name also mentions compilation is recoverable, yet never retried. */
  lemma RecoverableButNotRetried()
    ensures exists result: ValidationResult ::
      ErrorOfResult(result).recoverable && !RetryableResult([], [result])
  {
    var check := Check(NameWords(true, true, false, false), CheckFailed, DetailPhrases(false, false, false, false));
    var result := ValidationResult("repo", CheckFailed, [check], false);
    assert result.checks[0].status == CheckFailed;
    assert RecoverableChecks(result.checks);
    RetryableResultExactly([], [result]);
    assert FirstFailed(result.checks) == 0;
    assert Last([result]) == result;
  }
}
