/**
 The built-in field validators (not-null, not-empty, regular expression,
 numeric) and custom validators, each as the imperative `validate` of its Java
 class, plus the pure decision (`Decide`) every `validate` is proved against.

 A validator fills in the message of the error record it is handed and appends
 that same record to the context's result when it rejects; when it accepts it
 touches neither. The regular-expression engine is a parameter (`Matcher`),
 constrained only where the model depends on it (`Conforms`).
 */
module Validators {
  import opened Values
  import opened Format
  import opened Core
  import opened NumericGrammar

  /** `Pattern.compile(pattern).matcher(s).matches()`: a full match of `s` against `pattern`. */
  type Matcher = (string, string) -> bool

  /** The pattern of the no-argument regex validator and the default custom message. */
  const DefaultPattern: string := ""
  const DefaultMessage: string := ""

  /** The numeric validator's fixed pattern and message. */
  const NumericPattern: string := "[+-]?\\d+(\\.\\d+)?([eE][+-]?\\d+)?"
  const NumericMessage: string := "Expected numeric value."

  /** A regular-expression engine that full-matches the two patterns fixed in the validators as written. */
  ghost predicate Conforms(fm: Matcher)
  {
    && (forall s :: fm(NumericPattern, s) == InNumericLanguage(s))
    && (forall s :: fm(DefaultPattern, s) == (s == ""))
  }

  /** What one `validate` call does: accept; reject and record the filled-in error;
      reject without recording (a custom validator breaking the recording rule); or throw. */
  datatype Decision = Pass | Fail(errorMsg: string) | FailUnrecorded | Throw

  /** The validators of the library; a custom validator is given by what it decides. */
  datatype Validator =
    | NotNull(message: string)
    | NotEmpty(message: string)
    | Regex(pattern: string, message: string)
    | Numeric
    | Custom(decision: Decision)

  /** What `validate` hands back to the engine: a boolean, or an exception. */
  datatype Outcome = Returned(valid: bool) | Threw

  function OutcomeOf(d: Decision): (o: Outcome)
    ensures o == Threw <==> d == Throw
    ensures o == Returned(true) <==> d == Pass
  {
    match d
    case Pass => Returned(true)
    case Fail(_) => Returned(false)
    case FailUnrecorded => Returned(false)
    case Throw => Threw
  }

  function LinePrefix(lineNumber: int, fieldName: Option<string>): string
  {
    "Line: " + Decimal(lineNumber) + ", " + Show(fieldName)
  }

  /** "Line: %d, %s could not be null. %s" */
  function NotNullMessage(lineNumber: int, fieldName: Option<string>, message: string): string
  {
    LinePrefix(lineNumber, fieldName) + " could not be null. " + message
  }

  /** "Line: %d, %s could not be empty. %s" */
  function NotEmptyMessage(lineNumber: int, fieldName: Option<string>, message: string): string
  {
    LinePrefix(lineNumber, fieldName) + " could not be empty. " + message
  }

  /** "Line: %d, %s could not match, actual value: %s. %s" */
  function RegexMessage(lineNumber: int, fieldName: Option<string>, value: string, message: string): string
  {
    LinePrefix(lineNumber, fieldName) + " could not match, actual value: " + value + ". " + message
  }

  /** The regex rule: a non-empty string that does not match in full; null and "" always pass. */
  predicate RegexRejects(fm: Matcher, pattern: string, s: Option<string>)
  {
    !IsEmptyString(s) && !fm(pattern, s.value)
  }

  function RegexDecision(fm: Matcher, pattern: string, message: string, s: Option<string>,
                         fieldName: Option<string>, lineNumber: int): Decision
  {
    if RegexRejects(fm, pattern, s) then Fail(RegexMessage(lineNumber, fieldName, s.value, message)) else Pass
  }

  /** What `validate` of `v` decides for `target`, given the field name and line number
      carried by the error record it is handed. The three `Validator<String>` classes
      are reached through a cast to `String`, which throws for any other object. */
  function Decide(v: Validator, target: Value, fieldName: Option<string>, lineNumber: int, fm: Matcher): (d: Decision)
    ensures v.NotNull? ==> !d.Throw? && (d.Fail? <==> IsEmpty(target))
    ensures v.NotEmpty? || v.Regex? || v.Numeric? ==> (d.Throw? <==> !IsStringTarget(target))
    ensures !v.Custom? ==> !d.FailUnrecorded?
  {
    match v
    case NotNull(m) =>
      if IsEmpty(target) then Fail(NotNullMessage(lineNumber, fieldName, m)) else Pass
    case NotEmpty(m) =>
      if !IsStringTarget(target) then Throw
      else if IsEmptyString(AsString(target)) then Fail(NotEmptyMessage(lineNumber, fieldName, m))
      else Pass
    case Regex(p, m) =>
      if !IsStringTarget(target) then Throw
      else RegexDecision(fm, p, m, AsString(target), fieldName, lineNumber)
    case Numeric =>
      if !IsStringTarget(target) then Throw
      else RegexDecision(fm, NumericPattern, NumericMessage, AsString(target), fieldName, lineNumber)
    case Custom(d) => d
  }

  /** The shared tail of every rejecting `validate`: fill in the message, then record the same error. */
  method Reject(ctx: ValidatorContext, errorInfo: ValidationError, msg: string)
    requires ctx.result != null
    modifies errorInfo`errorMsg, ctx.result`errors
    ensures errorInfo.Record() == old(errorInfo.Record()).(errorMsg := Some(msg))
    ensures ctx.result.errors == old(ctx.result.errors) + [errorInfo]
  {
    errorInfo.SetErrorMsg(Some(msg));
    ctx.AddError(errorInfo);
  }

  /** `NotNullFieldValidator.validate` */
  method ValidateNotNull(message: string, ctx: ValidatorContext, target: Value, errorInfo: ValidationError)
    returns (valid: bool)
    requires ctx.result != null
    modifies errorInfo`errorMsg, ctx.result`errors
    ensures valid <==> !IsEmpty(target)
    ensures !valid ==> errorInfo.Record() == old(errorInfo.Record()).(errorMsg := Some(NotNullMessage(errorInfo.lineNumber, errorInfo.fieldName, message)))
    ensures !valid ==> ctx.result.errors == old(ctx.result.errors) + [errorInfo]
    ensures valid ==> errorInfo.Record() == old(errorInfo.Record()) && ctx.result.errors == old(ctx.result.errors)
  {
    if IsEmpty(target) {
      Reject(ctx, errorInfo, NotNullMessage(errorInfo.lineNumber, errorInfo.fieldName, message));
      return false;
    }
    return true;
  }

  /** `NotEmptyFieldValidator.validate` */
  method ValidateNotEmpty(message: string, ctx: ValidatorContext, s: Option<string>, errorInfo: ValidationError)
    returns (valid: bool)
    requires ctx.result != null
    modifies errorInfo`errorMsg, ctx.result`errors
    ensures valid <==> !IsEmptyString(s)
    ensures !valid ==> errorInfo.Record() == old(errorInfo.Record()).(errorMsg := Some(NotEmptyMessage(errorInfo.lineNumber, errorInfo.fieldName, message)))
    ensures !valid ==> ctx.result.errors == old(ctx.result.errors) + [errorInfo]
    ensures valid ==> errorInfo.Record() == old(errorInfo.Record()) && ctx.result.errors == old(ctx.result.errors)
  {
    if IsEmptyString(s) {
      Reject(ctx, errorInfo, NotEmptyMessage(errorInfo.lineNumber, errorInfo.fieldName, message));
      return false;
    }
    return true;
  }

  /** `RegexValidator.validate` */
  method ValidateRegex(pattern: string, message: string, ctx: ValidatorContext, s: Option<string>,
                       errorInfo: ValidationError, fm: Matcher)
    returns (valid: bool)
    requires ctx.result != null
    modifies errorInfo`errorMsg, ctx.result`errors
    ensures valid <==> !RegexRejects(fm, pattern, s)
    ensures !valid ==> errorInfo.Record() == old(errorInfo.Record()).(errorMsg := Some(RegexMessage(errorInfo.lineNumber, errorInfo.fieldName, s.value, message)))
    ensures !valid ==> ctx.result.errors == old(ctx.result.errors) + [errorInfo]
    ensures valid ==> errorInfo.Record() == old(errorInfo.Record()) && ctx.result.errors == old(ctx.result.errors)
  {
    if !IsEmptyString(s) && !fm(pattern, s.value) {
      Reject(ctx, errorInfo, RegexMessage(errorInfo.lineNumber, errorInfo.fieldName, s.value, message));
      return false;
    }
    return true;
  }

  /** `NumericFieldValidator.validate`: the regex validator built with the numeric pattern and message. */
  method ValidateNumeric(ctx: ValidatorContext, s: Option<string>, errorInfo: ValidationError, fm: Matcher)
    returns (valid: bool)
    requires ctx.result != null
    modifies errorInfo`errorMsg, ctx.result`errors
    ensures valid <==> !RegexRejects(fm, NumericPattern, s)
    ensures !valid ==> errorInfo.Record() == old(errorInfo.Record()).(errorMsg := Some(RegexMessage(errorInfo.lineNumber, errorInfo.fieldName, s.value, NumericMessage)))
    ensures !valid ==> ctx.result.errors == old(ctx.result.errors) + [errorInfo]
    ensures valid ==> errorInfo.Record() == old(errorInfo.Record()) && ctx.result.errors == old(ctx.result.errors)
  {
    valid := ValidateRegex(NumericPattern, NumericMessage, ctx, s, errorInfo, fm);
  }

  /** The engine's call `validator.validate(context, target, errorInfo)`, dispatched on the validator. */
  method Validate(v: Validator, ctx: ValidatorContext, target: Value, errorInfo: ValidationError, fm: Matcher)
    returns (outcome: Outcome)
    requires ctx.result != null
    modifies errorInfo`errorMsg, ctx.result`errors
    ensures var d := Decide(v, target, old(errorInfo.fieldName), old(errorInfo.lineNumber), fm);
            && outcome == OutcomeOf(d)
            && (d.Fail? ==> errorInfo.Record() == old(errorInfo.Record()).(errorMsg := Some(d.errorMsg))
                            && ctx.result.errors == old(ctx.result.errors) + [errorInfo])
            && (!d.Fail? ==> errorInfo.Record() == old(errorInfo.Record()) && ctx.result.errors == old(ctx.result.errors))
  {
    match v {
      case NotNull(m) =>
        var ok := ValidateNotNull(m, ctx, target, errorInfo);
        outcome := Returned(ok);
      case NotEmpty(m) =>
        if !IsStringTarget(target) {
          outcome := Threw;
        } else {
          var ok := ValidateNotEmpty(m, ctx, AsString(target), errorInfo);
          outcome := Returned(ok);
        }
      case Regex(p, m) =>
        if !IsStringTarget(target) {
          outcome := Threw;
        } else {
          var ok := ValidateRegex(p, m, ctx, AsString(target), errorInfo, fm);
          outcome := Returned(ok);
        }
      case Numeric =>
        if !IsStringTarget(target) {
          outcome := Threw;
        } else {
          var ok := ValidateNumeric(ctx, AsString(target), errorInfo, fm);
          outcome := Returned(ok);
        }
      case Custom(d) =>
        match d {
          case Pass => outcome := Returned(true);
          case Fail(msg) =>
            Reject(ctx, errorInfo, msg);
            outcome := Returned(false);
          case FailUnrecorded => outcome := Returned(false);
          case Throw => outcome := Threw;
        }
    }
  }

  // ---------------------------------------------------------------------------
  // Properties of the decisions

  /** Not-null rejects exactly the empty objects, never throws, and names line and field in its message. */
  lemma NotNullRule(m: string, target: Value, fieldName: Option<string>, lineNumber: int, fm: Matcher)
    ensures var d := Decide(NotNull(m), target, fieldName, lineNumber, fm);
            && d != Throw && d != FailUnrecorded
            && (d.Fail? <==> IsEmpty(target))
            && (d.Fail? ==> d.errorMsg == "Line: " + Decimal(lineNumber) + ", " + Show(fieldName) + " could not be null. " + m)
  {
  }

  /** With the default message, the not-null text ends in ". ". */
  lemma NotNullDefaultMessage(lineNumber: int, fieldName: Option<string>)
    ensures var t := NotNullMessage(lineNumber, fieldName, DefaultMessage);
            |t| >= 2 && t[|t| - 2..] == ". "
  {
    var t := NotNullMessage(lineNumber, fieldName, DefaultMessage);
    assert t == LinePrefix(lineNumber, fieldName) + " could not be null. ";
  }

  /** Not-empty rejects only null and "", lets whitespace through, and throws for anything that is
      not a `String`, even an empty `StringBuilder`. */
  lemma NotEmptyRule(m: string, target: Value, fieldName: Option<string>, lineNumber: int, fm: Matcher)
    ensures var d := Decide(NotEmpty(m), target, fieldName, lineNumber, fm);
            && (d == Throw <==> !IsStringTarget(target))
            && (d.Fail? <==> target == Null || target == Str(""))
            && (target == Str(" ") ==> d == Pass)
            && (target.CharSeq? ==> d == Throw)
            && (d.Fail? ==> d.errorMsg == NotEmptyMessage(lineNumber, fieldName, m))
  {
  }

  /** On strings, not-empty and not-null agree; they differ only in the text and in what other objects do. */
  lemma NotEmptyAgreesWithNotNullOnStrings(m: string, target: Value, fieldName: Option<string>, lineNumber: int, fm: Matcher)
    requires IsStringTarget(target)
    ensures Decide(NotEmpty(m), target, fieldName, lineNumber, fm).Fail?
        <==> Decide(NotNull(m), target, fieldName, lineNumber, fm).Fail?
  {
    StringEmptinessAgrees(target);
  }

  /** Regex: null and "" always pass, whatever the pattern and whatever the engine. */
  lemma RegexEmptyBypass(p: string, m: string, fieldName: Option<string>, lineNumber: int, fm: Matcher)
    ensures Decide(Regex(p, m), Null, fieldName, lineNumber, fm) == Pass
    ensures Decide(Regex(p, m), Str(""), fieldName, lineNumber, fm) == Pass
  {
  }

  /** Regex rejects a non-empty string exactly when it does not match in full, and the text quotes the value. */
  lemma RegexRule(p: string, m: string, s: string, fieldName: Option<string>, lineNumber: int, fm: Matcher)
    requires s != ""
    ensures var d := Decide(Regex(p, m), Str(s), fieldName, lineNumber, fm);
            && (d.Fail? <==> !fm(p, s))
            && (!d.Fail? ==> d == Pass)
            && (d.Fail? ==> d.errorMsg == LinePrefix(lineNumber, fieldName) + " could not match, actual value: " + s + ". " + m)
  {
  }

  /** The no-argument regex validator rejects every non-empty string. */
  lemma DefaultRegexRejectsNonEmpty(s: string, fieldName: Option<string>, lineNumber: int, fm: Matcher)
    requires Conforms(fm)
    requires s != ""
    ensures Decide(Regex(DefaultPattern, DefaultMessage), Str(s), fieldName, lineNumber, fm).Fail?
  {
    assert !fm(DefaultPattern, s);
  }

  /** Numeric behaves exactly as the regex validator configured with its pattern and message. */
  lemma NumericIsRegex(target: Value, fieldName: Option<string>, lineNumber: int, fm: Matcher)
    ensures Decide(Numeric, target, fieldName, lineNumber, fm)
         == Decide(Regex(NumericPattern, NumericMessage), target, fieldName, lineNumber, fm)
  {
  }

  /** Numeric rejects exactly the non-empty strings outside the numeric grammar. */
  lemma NumericRule(s: string, fieldName: Option<string>, lineNumber: int, fm: Matcher)
    requires Conforms(fm)
    ensures var d := Decide(Numeric, Str(s), fieldName, lineNumber, fm);
            && (d.Fail? <==> s != "" && !IsNumeric(s))
            && (!d.Fail? ==> d == Pass)
  {
    NumericIffInLanguage(s);
    assert fm(NumericPattern, s) == InNumericLanguage(s);
  }

  /** The numeric failure text ends with the fixed message. */
  lemma NumericMessageSuffix(s: string, fieldName: Option<string>, lineNumber: int, fm: Matcher)
    requires Decide(Numeric, Str(s), fieldName, lineNumber, fm).Fail?
    ensures var t := Decide(Numeric, Str(s), fieldName, lineNumber, fm).errorMsg;
            |t| >= |NumericMessage| && t[|t| - |NumericMessage|..] == NumericMessage
  {
    var t := Decide(Numeric, Str(s), fieldName, lineNumber, fm).errorMsg;
    var head := LinePrefix(lineNumber, fieldName) + " could not match, actual value: " + s + ". ";
    assert t == head + NumericMessage;
    assert t[|head|..] == NumericMessage;
  }

  /** Numeric lets null and "" through by the inherited regex bypass. */
  lemma NumericBypass(fieldName: Option<string>, lineNumber: int, fm: Matcher)
    ensures Decide(Numeric, Null, fieldName, lineNumber, fm) == Pass
    ensures Decide(Numeric, Str(""), fieldName, lineNumber, fm) == Pass
  {
  }

  /** Numeric accepts well-formed numbers. */
  lemma NumericAcceptsSamples(fieldName: Option<string>, lineNumber: int, fm: Matcher)
    requires Conforms(fm)
    ensures Decide(Numeric, Str("-12.5"), fieldName, lineNumber, fm) == Pass
    ensures Decide(Numeric, Str("+3.14e-2"), fieldName, lineNumber, fm) == Pass
  {
    AcceptsIntegerAndDecimal();
    AcceptsSignedExponent();
    NumericAccepts("-12.5", fieldName, lineNumber, fm);
    NumericAccepts("+3.14e-2", fieldName, lineNumber, fm);
  }

  lemma NumericAccepts(s: string, fieldName: Option<string>, lineNumber: int, fm: Matcher)
    requires Conforms(fm) && IsNumeric(s)
    ensures Decide(Numeric, Str(s), fieldName, lineNumber, fm) == Pass
  {
    NumericRule(s, fieldName, lineNumber, fm);
  }

  /** Numeric rejects malformed numbers. */
  lemma NumericRejectsSamples(fieldName: Option<string>, lineNumber: int, fm: Matcher)
    requires Conforms(fm)
    ensures Decide(Numeric, Str("12.3.4"), fieldName, lineNumber, fm).Fail?
    ensures Decide(Numeric, Str("abc"), fieldName, lineNumber, fm).Fail?
  {
    RejectsSecondDot();
    RejectsBareMarkerAndLetters();
    NumericRule("12.3.4", fieldName, lineNumber, fm);
    NumericRule("abc", fieldName, lineNumber, fm);
  }
}
