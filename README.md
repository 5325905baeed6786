# Fluent validation engine, modelled in Dafny

A model of the fluent validation engine of `microservice-common-utils` and of its
response envelope. A `FluentValidator` collects validator elements (field name,
target, line number, validator), runs them in registration order into a shared
`ValidationResult`, reports to a `ValidateCallBack`, and hands the result to a
`ResultCollector`. Beside it, `ApiStatus` is the table of status codes with its code
index, and `ApiResult` is the response record with its defaults and factories.

Modules, one per part of the library:

- `Values` — the Java objects the engine sees as `Object` (null, `String`s, other
  `CharSequence`s, arrays, collections, maps, `Optional`, anything else), with `ObjectUtils.isEmpty` and
  `StringUtils.isEmpty`.
- `Format` — the `%d`/`%s` pieces of `String.format` used in the messages, and the
  `(int)` cast of the elapsed time.
- `Core` — `ValidationError`, `ValidationResult` and `ValidatorContext` as classes whose
  fields the methods update in place; the result holds references to errors, so a
  validator fills in the very error object that the engine built.
- `NumericGrammar` — the numeric validator's pattern `[+-]?\d+(\.\d+)?([eE][+-]?\d+)?`
  as a language (rendered numerals) and as a recogniser, proved to agree.
- `Validators` — each built-in validator's `validate` as a method, proved against a
  pure decision `Decide`; a custom validator is described by what it decides.
- `Semantics` — one `doValidate(callback)` run as a function (`Execute`) of the
  elements, the fail-fast policy, the callback's behaviour and the starting result,
  with the lemmas about what a run does.
- `Engine` — `FluentValidator` as a class with its builder methods and its
  `doValidate` loop, proved to compute exactly `Execute`; the callback as a class
  that keeps the calls it receives.
- `Collectors` — the collector that `ResultCollectors.SimpleResultCollectorImpl.toSimple()`
  returns (the datatype value `SimpleResultCollector`), its `toResult`, and `GenericResult`.
- `Dto` — `ApiStatus` and `ApiResult`.

Behaviour the model keeps as the code has it:

- The terminal callback is chosen inversely to its names: `onSuccess` is called when
  the result holds errors and `onFail` (with an always empty list) when it holds none
  (`Semantics.TerminalCallInverted`).
- The engine lowers the success flag only when a validator returns false, and it never
  records an error itself: a validator that returns false without recording leaves the
  error list alone (`Semantics.SuccessFlag`, `Semantics.OnlyValidatorsRecord`).
  `ValidationResult.addError` only appends to the list and leaves the flag alone
  (`ValidationResult.java:21-23`); the engine calls `setSuccess(false)` only on a false
  return (`FluentValidator.java:196-197`).
- An empty element list returns at once: no callback, and no time written.
- An exception the callback absorbs never stops the run, even under fail-fast.
- `NotEmptyFieldValidator`, `RegexValidator` and `NumericFieldValidator` are
  `Validator<String>`: the engine's raw call casts the target to `String`, so any
  other object, another `CharSequence` such as a `StringBuilder` included, makes them
  throw (`ClassCastException`), which the engine handles like any other exception from
  `validate`.
- Null strings print as `null` in messages; a `null` field name gives "Line: n, null ...".

Collaborators given as parameters:

- the regular-expression engine (`Validators.Matcher`), constrained only where it
  matters (`Conforms`: the numeric pattern matches its language, the empty pattern
  matches only "");
- whether the callback's `onUncaughtException` throws, per element and position in the
  run (`CallbackRecorder.rethrows`; the default callback never throws);
- the clock: the elapsed milliseconds of a run and the `now` of `ApiResult`.

## Model

| member | source | states |
|---|---|---|
| Values.AsString | src/main/java/io/github/chikitlo/common/validation/validator/NotEmptyFieldValidator.java:25 | the cast to `String` before a `Validator<String>` is called: `null` stays null, a string keeps its characters |
| Values.IsEmpty | src/main/java/io/github/chikitlo/common/validation/validator/NotNullFieldValidator.java:26 | `ObjectUtils.isEmpty`: true for null; for a `String` exactly when it is ""; false for an object that is no string, sequence, array, collection, map or `Optional` |
| Values.StringEmptinessAgrees | src/main/java/io/github/chikitlo/common/validation/validator/NotEmptyFieldValidator.java:26 | for null and strings, `StringUtils.isEmpty` and `ObjectUtils.isEmpty` agree |
| Format.NatDigitsRoundTrip | src/main/java/io/github/chikitlo/common/validation/validator/NotNullFieldValidator.java:27 | the digits `%d` prints for a natural number are non-empty, read back as that number and have no leading zero |
| Format.DecimalRoundTrip | src/main/java/io/github/chikitlo/common/validation/validator/NotNullFieldValidator.java:27 | the `%d` rendering of a line number loses nothing: it reads back as the same number |
| Format.NarrowToInt | src/main/java/io/github/chikitlo/common/validation/core/FluentValidator.java:220 | the `(int)` cast of the elapsed `long`: in 32-bit range, congruent modulo 2^32, the identity on values that fit |
| Core.CreatedRecord | src/main/java/io/github/chikitlo/common/validation/core/ValidationError.java:21-23 | `create(msg)` sets only the message; name, target and line keep their defaults |
| Core.PlaceholderRecord | src/main/java/io/github/chikitlo/common/validation/core/FluentValidator.java:188-192 | the engine's placeholder carries field name, target and line number and no message |
| Core.ValidationError.Build | src/main/java/io/github/chikitlo/common/validation/core/FluentValidator.java:188-192 | a built error holds exactly the placeholder record |
| Core.ValidationError.Create | src/main/java/io/github/chikitlo/common/validation/core/ValidationError.java:21-23 | a created error holds exactly the created record |
| Core.ValidationError.SetErrorMsg | src/main/java/io/github/chikitlo/common/validation/core/ValidationError.java:19 | the setter changes the message and nothing else |
| Core.RecordsOf | src/main/java/io/github/chikitlo/common/validation/core/ValidationResult.java:18 | the error list seen as records: one per reference, in list order |
| Core.ValidationResult.constructor | src/main/java/io/github/chikitlo/common/validation/core/ValidationResult.java:17-19 | a new result is successful, holds no errors and no time |
| Core.ValidationResult.AddError | src/main/java/io/github/chikitlo/common/validation/core/ValidationResult.java:21-23 | appends the given reference at the end; flag and time untouched |
| Core.ValidationResult.HasErrors | src/main/java/io/github/chikitlo/common/validation/core/ValidationResult.java:25-27 | true exactly when the error list is non-empty |
| Core.ValidationResult.SetSuccess | src/main/java/io/github/chikitlo/common/validation/core/ValidationResult.java:17 | the generated setter: the flag takes the given value |
| Core.ValidationResult.SetTimeElapsed | src/main/java/io/github/chikitlo/common/validation/core/ValidationResult.java:19 | the generated setter: the time takes the given value |
| Core.Put | src/main/java/io/github/chikitlo/common/validation/core/ValidatorContext.java:46-52 | a write always leaves an allocated attribute map |
| Core.LookupUnallocated | src/main/java/io/github/chikitlo/common/validation/core/ValidatorContext.java:34-40 | an unallocated or empty attribute map answers null to every key |
| Core.Lookup | src/main/java/io/github/chikitlo/common/validation/core/ValidatorContext.java:34-40 | the attribute lookup answers the stored value for a present key and null when the map is unallocated or lacks the key |
| Core.LookupAfterPut | src/main/java/io/github/chikitlo/common/validation/core/ValidatorContext.java:46-52 | after a write the key (the `null` key included) holds the written value and every other key keeps its value |
| Core.ValidatorContext.GetAttribute | src/main/java/io/github/chikitlo/common/validation/core/ValidatorContext.java:34-40 | `getAttribute(key)`, for any key including `null`: null while the map is unallocated, null for an absent key, the stored value otherwise |
| Core.ValidatorContext.constructor | src/main/java/io/github/chikitlo/common/validation/core/ValidatorContext.java:17-19 | no attribute map and no result |
| Core.ValidatorContext.WithParts | src/main/java/io/github/chikitlo/common/validation/core/ValidatorContext.java:21-24 | holds exactly the given map and result |
| Core.ValidatorContext.AddErrorMsg | src/main/java/io/github/chikitlo/common/validation/core/ValidatorContext.java:26-28 | appends one new error carrying only the message; earlier errors stay in place |
| Core.ValidatorContext.AddError | src/main/java/io/github/chikitlo/common/validation/core/ValidatorContext.java:30-32 | appends exactly the given error to the current result |
| Core.ValidatorContext.SetAttribute | src/main/java/io/github/chikitlo/common/validation/core/ValidatorContext.java:46-52 | allocates the map on first use, then the key (`null` included) reads back the value |
| Core.ValidatorContext.GetResult | src/main/java/io/github/chikitlo/common/validation/core/ValidatorContext.java:54-56 | returns the current result reference |
| Core.ValidatorContext.SetResult | src/main/java/io/github/chikitlo/common/validation/core/ValidatorContext.java:58-60 | replaces the result reference |
| Validators.OutcomeOf | src/main/java/io/github/chikitlo/common/validation/core/FluentValidator.java:196 | what the engine sees of a decision: an exception exactly for `Throw`, `true` exactly for `Pass` |
| Validators.Reject | src/main/java/io/github/chikitlo/common/validation/validator/NotNullFieldValidator.java:27-28 | a rejecting validator fills in the message of the error it was handed and appends that same error |
| Validators.ValidateNotNull | src/main/java/io/github/chikitlo/common/validation/validator/NotNullFieldValidator.java:25-34 | false exactly for `ObjectUtils`-empty targets, then with the line/field message recorded; true leaves error and result untouched |
| Validators.ValidateNotEmpty | src/main/java/io/github/chikitlo/common/validation/validator/NotEmptyFieldValidator.java:25-33 | false exactly for null or "", then with its message recorded; otherwise nothing changes |
| Validators.ValidateRegex | src/main/java/io/github/chikitlo/common/validation/validator/RegexValidator.java:33-42 | false exactly for a non-empty string that does not match in full, then with a message quoting the value; otherwise nothing changes |
| Validators.ValidateNumeric | src/main/java/io/github/chikitlo/common/validation/validator/NumericFieldValidator.java:17-24 | the regex validator with the numeric pattern and the fixed message |
| Validators.Validate | src/main/java/io/github/chikitlo/common/validation/core/FluentValidator.java:196 | the call `validator.validate(context, target, errorInfo)` returns or throws as `Decide` says; the error is filled in and recorded exactly on a recording rejection |
| Validators.Decide | src/main/java/io/github/chikitlo/common/validation/core/FluentValidator.java:196 | not-null never throws and rejects exactly the empty values; the three `String` validators throw exactly for targets that are not null or a `String`; a built-in validator never rejects without recording |
| Validators.NotNullRule | src/main/java/io/github/chikitlo/common/validation/validator/NotNullFieldValidator.java:26-30 | not-null never throws, rejects exactly the empty objects, and says "Line: n, field could not be null. message" |
| Validators.NotNullDefaultMessage | src/main/java/io/github/chikitlo/common/validation/validator/NotNullFieldValidator.java:15 | with the default message the text ends in ". " |
| Validators.NotEmptyRule | src/main/java/io/github/chikitlo/common/validation/validator/NotEmptyFieldValidator.java:26-32 | not-empty throws exactly for non-strings (an empty `StringBuilder` included), rejects exactly null and "", and lets " " through |
| Validators.NotEmptyAgreesWithNotNullOnStrings | src/main/java/io/github/chikitlo/common/validation/validator/NotEmptyFieldValidator.java:26 | on strings, not-empty rejects exactly what not-null rejects |
| Validators.RegexEmptyBypass | src/main/java/io/github/chikitlo/common/validation/validator/RegexValidator.java:34 | null and "" pass every pattern under every engine |
| Validators.RegexRule | src/main/java/io/github/chikitlo/common/validation/validator/RegexValidator.java:34-38 | a non-empty string is rejected exactly when it does not match in full, with a message that quotes it |
| Validators.DefaultRegexRejectsNonEmpty | src/main/java/io/github/chikitlo/common/validation/validator/RegexValidator.java:18-21 | the no-argument regex validator (pattern "") rejects every non-empty string |
| Validators.NumericIsRegex | src/main/java/io/github/chikitlo/common/validation/validator/NumericFieldValidator.java:17-24 | numeric decides exactly as the regex validator built with its pattern and message |
| Validators.NumericRule | src/main/java/io/github/chikitlo/common/validation/validator/NumericFieldValidator.java:14 | numeric rejects exactly the non-empty strings outside the pattern's language |
| Validators.NumericMessageSuffix | src/main/java/io/github/chikitlo/common/validation/validator/NumericFieldValidator.java:18 | a numeric rejection text ends with "Expected numeric value." |
| Validators.NumericBypass | src/main/java/io/github/chikitlo/common/validation/validator/NumericFieldValidator.java:22-24 | numeric lets null and "" through |
| Validators.NumericAcceptsSamples | src/main/java/io/github/chikitlo/common/validation/validator/NumericFieldValidator.java:14 | "-12.5" and "+3.14e-2" pass |
| Validators.NumericAccepts | src/main/java/io/github/chikitlo/common/validation/validator/NumericFieldValidator.java:14 | every string of the numeric language passes |
| Validators.NumericRejectsSamples | src/main/java/io/github/chikitlo/common/validation/validator/NumericFieldValidator.java:14 | "12.3.4" and "abc" are rejected |
| NumericGrammar.DigitRun | src/main/java/io/github/chikitlo/common/validation/validator/NumericFieldValidator.java:14 | `\d+` scanning: the longest digit run, stopped by a non-digit |
| NumericGrammar.SignLength | src/main/java/io/github/chikitlo/common/validation/validator/NumericFieldValidator.java:14 | `[+-]?`: one character exactly when a sign is there |
| NumericGrammar.ParseFraction | src/main/java/io/github/chikitlo/common/validation/validator/NumericFieldValidator.java:14 | `(\.\d+)?`: what it consumes is the text of the fraction it returns, a digit run |
| NumericGrammar.ParseExponent | src/main/java/io/github/chikitlo/common/validation/validator/NumericFieldValidator.java:14 | `([eE][+-]?\d+)?`: what it consumes is the text of a well-formed exponent |
| NumericGrammar.Parse | src/main/java/io/github/chikitlo/common/validation/validator/NumericFieldValidator.java:14 | a recognised string is the text of a well-formed numeral (soundness) |
| NumericGrammar.DigitRunAt | src/main/java/io/github/chikitlo/common/validation/validator/NumericFieldValidator.java:14 | a digit run followed by a non-digit is scanned to its end |
| NumericGrammar.FractionAt | src/main/java/io/github/chikitlo/common/validation/validator/NumericFieldValidator.java:14 | a written fraction is read back |
| NumericGrammar.ExponentAt | src/main/java/io/github/chikitlo/common/validation/validator/NumericFieldValidator.java:14 | a written exponent is read back |
| NumericGrammar.ParseComplete | src/main/java/io/github/chikitlo/common/validation/validator/NumericFieldValidator.java:14 | every well-formed numeral is recognised as itself (completeness) |
| NumericGrammar.NumericIffInLanguage | src/main/java/io/github/chikitlo/common/validation/validator/NumericFieldValidator.java:14 | the recogniser accepts exactly the strings the pattern matches in full |
| NumericGrammar.AcceptsIntegerAndDecimal | src/main/java/io/github/chikitlo/common/validation/validator/NumericFieldValidator.java:14 | "123" and "-12.5" are in the language |
| NumericGrammar.AcceptsSignedExponent | src/main/java/io/github/chikitlo/common/validation/validator/NumericFieldValidator.java:14 | "+3.14e-2" is in the language |
| NumericGrammar.AcceptsBareExponent | src/main/java/io/github/chikitlo/common/validation/validator/NumericFieldValidator.java:14 | "1e10" is in the language |
| NumericGrammar.Accepts | src/main/java/io/github/chikitlo/common/validation/validator/NumericFieldValidator.java:14 | the text of any well-formed numeral is accepted |
| NumericGrammar.RejectsSecondDot | src/main/java/io/github/chikitlo/common/validation/validator/NumericFieldValidator.java:14 | "12.3.4" is not in the language |
| NumericGrammar.RejectsBareDot | src/main/java/io/github/chikitlo/common/validation/validator/NumericFieldValidator.java:14 | "1." and ".5" are not in the language |
| NumericGrammar.RejectsBareMarkerAndLetters | src/main/java/io/github/chikitlo/common/validation/validator/NumericFieldValidator.java:14 | "1e" and "abc" are not in the language |
| Semantics.StopPersists | src/main/java/io/github/chikitlo/common/validation/core/FluentValidator.java:199-201 | after a `break` or an abort, later elements change nothing |
| Semantics.CountShape | src/main/java/io/github/chikitlo/common/validation/core/FluentValidator.java:185-212 | the loop takes elements in order until the first one that stops it, which is the last one taken |
| Semantics.ErrorsShape | src/main/java/io/github/chikitlo/common/validation/core/FluentValidator.java:185-212 | the errors are the starting errors followed by those the taken elements' validators recorded |
| Semantics.SuccessShape | src/main/java/io/github/chikitlo/common/validation/core/FluentValidator.java:194-202 | the flag is lowered exactly when a taken element's validator returned false |
| Semantics.EventsShape | src/main/java/io/github/chikitlo/common/validation/core/FluentValidator.java:203-211 | the calls made by the loop are the hook pairs of the taken elements that threw |
| Semantics.HooksAreNotTerminal | src/main/java/io/github/chikitlo/common/validation/core/FluentValidator.java:203-211 | the loop itself never calls `onSuccess` or `onFail` |
| Semantics.HookPairOrder | src/main/java/io/github/chikitlo/common/validation/core/FluentValidator.java:203-211 | for each throwing element the validator's `onExeception` is called, immediately followed by `onUncaughtException` |
| Semantics.EmptyRunIsNoOp | src/main/java/io/github/chikitlo/common/validation/core/FluentValidator.java:176-179 | an empty element list returns at once: result unchanged, no call, nothing validated |
| Semantics.ValidatedPrefix | src/main/java/io/github/chikitlo/common/validation/core/FluentValidator.java:185-212 | a run validates a non-empty prefix, up to and including the first stopping element, and writes the narrowed time |
| Semantics.Execute | src/main/java/io/github/chikitlo/common/validation/core/FluentValidator.java:175-226 | an empty list leaves the result untouched and calls nothing; otherwise between one and all elements are validated, the narrowed time is written, and a fatal run ends at the last validated element |
| Semantics.FailOverValidatesAll | src/main/java/io/github/chikitlo/common/validation/core/FluentValidator.java:199-201 | under fail-over with no escalated exception every element is validated and the run completes |
| Semantics.FailFastStopsAtFirstRejection | src/main/java/io/github/chikitlo/common/validation/core/FluentValidator.java:196-201 | under fail-fast the first rejecting element is the last one validated, and the result is failed |
| Semantics.ContainedExceptionContinues | src/main/java/io/github/chikitlo/common/validation/core/FluentValidator.java:203-211 | an exception the callback absorbs does not stop the run, even under fail-fast |
| Semantics.OnlyValidatorsRecord | src/main/java/io/github/chikitlo/common/validation/core/FluentValidator.java:194-202 | the engine records nothing itself: the new errors are exactly the validators' recorded placeholders, in order |
| Semantics.SuccessFlag | src/main/java/io/github/chikitlo/common/validation/core/FluentValidator.java:194-202 | the flag ends true exactly when it started true and no validated element returned false |
| Semantics.CallSequence | src/main/java/io/github/chikitlo/common/validation/core/FluentValidator.java:185-223 | the calls are the hook pairs then one terminal call; a fatal run ends at the element whose exception was rethrown, without a terminal call but with the time written |
| Semantics.TerminalCallInverted | src/main/java/io/github/chikitlo/common/validation/core/FluentValidator.java:214-218 | exactly one terminal call, last: `onSuccess` when errors exist, `onFail` with an empty list when none do |
| Semantics.RunOnlyAppends | src/main/java/io/github/chikitlo/common/validation/core/FluentValidator.java:175-226 | a run keeps earlier errors in place and never raises a lowered flag |
| Semantics.SharedResultAccumulates | src/main/java/io/github/chikitlo/common/validation/core/FluentValidator.java:72-76 | two runs into one shared result: the second run's errors follow the first run's, and a failure stays |
| Collectors.GenericResult.ErrorNumber | src/main/java/io/github/chikitlo/common/validation/result/GenericResult.java:20-22 | the number of messages, zero exactly for the empty list |
| Collectors.NewResult | src/main/java/io/github/chikitlo/common/validation/result/GenericResult.java:17-18 | a new result is not successful and has no messages |
| Collectors.Messages | src/main/java/io/github/chikitlo/common/validation/result/ResultCollectors.java:22 | the messages of the errors, one per error, in order |
| Collectors.ToResult | src/main/java/io/github/chikitlo/common/validation/result/ResultCollectors.java:16-26 | success copies the flag with no messages; failure reports every error's message in order |
| Collectors.BuiltInRejectionRecords | src/main/java/io/github/chikitlo/common/validation/validator/RegexValidator.java:34-38 | a built-in validator that rejects always records an error |
| Collectors.NothingRecorded | src/main/java/io/github/chikitlo/common/validation/core/FluentValidator.java:194-202 | a run records no error exactly when no validator made a recording rejection |
| Collectors.CollectFreshRun | src/main/java/io/github/chikitlo/common/validation/result/ResultCollectors.java:16-26 | collecting a fresh run: failed exactly when a validated element was rejected, with the recorded messages in order |
| Collectors.BuiltInFailureIsReported | src/main/java/io/github/chikitlo/common/validation/result/ResultCollectors.java:20-22 | with built-in validators only, a failed fresh run reports at least one message |
| Engine.CallbackRecorder.constructor | src/main/java/io/github/chikitlo/common/validation/callback/ValidateCallBack.java:17-23 | a callback that has received no call yet |
| Engine.CallbackRecorder.OnSuccess | src/main/java/io/github/chikitlo/common/validation/callback/ValidateCallBack.java:18 | one `onSuccess` call with the element list is appended |
| Engine.CallbackRecorder.OnFail | src/main/java/io/github/chikitlo/common/validation/callback/ValidateCallBack.java:20 | one `onFail` call with the element list and the errors is appended |
| Engine.CallbackRecorder.OnUncaughtException | src/main/java/io/github/chikitlo/common/validation/callback/ValidateCallBack.java:22 | one `onUncaughtException` call is appended; it throws as the callback decides for that element at that position |
| Engine.CallbackRecorder.NoteValidatorHook | src/main/java/io/github/chikitlo/common/validation/validator/Validator.java:17-19 | the validator's `onExeception` hook call is appended |
| Engine.FluentValidator.NewInstance | src/main/java/io/github/chikitlo/common/validation/core/FluentValidator.java:37-46 | no elements, fail-over, a fresh context pointing at a fresh successful result, a default callback that never throws |
| Engine.FluentValidator.PutAttributeToContext | src/main/java/io/github/chikitlo/common/validation/core/FluentValidator.java:58-61 | writes the attribute, under any key including `null`, into the current context |
| Engine.FluentValidator.WithContext | src/main/java/io/github/chikitlo/common/validation/core/FluentValidator.java:72-76 | adopts the context and the result it points at |
| Engine.FluentValidator.FailFast | src/main/java/io/github/chikitlo/common/validation/core/FluentValidator.java:87-90 | sets fail-fast |
| Engine.FluentValidator.FailOver | src/main/java/io/github/chikitlo/common/validation/core/FluentValidator.java:101-104 | clears fail-fast |
| Engine.FluentValidator.SetIsFailFast | src/main/java/io/github/chikitlo/common/validation/core/FluentValidator.java:250-253 | sets the policy to the given value |
| Engine.FluentValidator.On | src/main/java/io/github/chikitlo/common/validation/core/FluentValidator.java:115-118 | appends one element |
| Engine.FluentValidator.OnAll | src/main/java/io/github/chikitlo/common/validation/core/FluentValidator.java:129-134 | appends the list in order; a null list adds nothing |
| Engine.FluentValidator.OnField | src/main/java/io/github/chikitlo/common/validation/core/FluentValidator.java:148-151 | appends the element built from its four parts |
| Engine.FluentValidator.ValidateElement | src/main/java/io/github/chikitlo/common/validation/core/FluentValidator.java:186-211 | one loop pass: placeholder built, flag lowered on rejection, recorded error appended, hook pair on an exception, abort exactly when the callback rethrows |
| Engine.FluentValidator.TakeElement | src/main/java/io/github/chikitlo/common/validation/core/FluentValidator.java:185-212 | one loop pass is one `Step` of the run semantics |
| Engine.FluentValidator.RunElements | src/main/java/io/github/chikitlo/common/validation/core/FluentValidator.java:185-212 | the loop leaves result and callback in the semantics' final state and reports the aborting element |
| Engine.FluentValidator.Conclude | src/main/java/io/github/chikitlo/common/validation/core/FluentValidator.java:214-218 | the terminal call the semantics prescribes is made |
| Engine.FluentValidator.Stamp | src/main/java/io/github/chikitlo/common/validation/core/FluentValidator.java:219-223 | the narrowed elapsed time is written; errors and flag stay |
| Engine.FluentValidator.DoValidate | src/main/java/io/github/chikitlo/common/validation/core/FluentValidator.java:175-226 | result, calls, validated count and outcome are exactly those of `Execute`, so every `Semantics` lemma holds of the engine |
| Engine.FluentValidator.DoValidateDefault | src/main/java/io/github/chikitlo/common/validation/core/FluentValidator.java:162-164 | the run reported to the default callback, which never rethrows |
| Engine.FluentValidator.Result | src/main/java/io/github/chikitlo/common/validation/core/FluentValidator.java:237-239 | the collector applied to the current result |
| Dto.AllStatuses | src/main/java/io/github/chikitlo/common/dto/ApiStatus.java:18-32 | the fifteen statuses, each at its ordinal |
| Dto.CodesDistinct | src/main/java/io/github/chikitlo/common/dto/ApiStatus.java:18-32 | no two statuses share a code |
| Dto.ApiStatus.Code | src/main/java/io/github/chikitlo/common/dto/ApiStatus.java:18-32 | every code is five characters: `0`, `A`, `B` or `C`, then four digits |
| Dto.ApiStatus.Series | src/main/java/io/github/chikitlo/common/dto/ApiStatus.java:18-32 | the series follows the code's first letter: `A` client error, `B` server error, `0` and `C` successful, each in both directions |
| Dto.ApiStatus.Reason | src/main/java/io/github/chikitlo/common/dto/ApiStatus.java:18-32 | every status has a non-empty reason phrase |
| Dto.IndexOf | src/main/java/io/github/chikitlo/common/dto/ApiStatus.java:40-47 | the static block's loop: every status is kept under its own code, and every key maps to a status with that code |
| Dto.CodeIndex | src/main/java/io/github/chikitlo/common/dto/ApiStatus.java:38-47 | every status is indexed under its code and nothing else is |
| Dto.FromCode | src/main/java/io/github/chikitlo/common/dto/ApiStatus.java:55-61 | null for a null code; a found status has the asked code; null only for codes no status has |
| Dto.FromCodeRoundTrip | src/main/java/io/github/chikitlo/common/dto/ApiStatus.java:40-47 | every status is found again from its code |
| Dto.UnknownCode | src/main/java/io/github/chikitlo/common/dto/ApiStatus.java:60 | a code yields null exactly when no status has it |
| Dto.ApiResult.Size | src/main/java/io/github/chikitlo/common/dto/ApiResult.java:30-36 | a collection's size, 1 for any other non-null value (maps and arrays included), 0 for null |
| Dto.NewApiResult | src/main/java/io/github/chikitlo/common/dto/ApiResult.java:20-28 | null data becomes the empty list, other data is kept, a null time becomes the clock reading |
| Dto.SizeAfterConstruction | src/main/java/io/github/chikitlo/common/dto/ApiResult.java:20-36 | once built, the size never takes the null branch: null data counts as 0 |
| Dto.Of | src/main/java/io/github/chikitlo/common/dto/ApiResult.java:38-40 | code, message and data as given, stamped with the clock reading |
| Dto.OfStatus | src/main/java/io/github/chikitlo/common/dto/ApiResult.java:42-44 | the status's code (which looks up to that status) and reason, stamped with the clock reading; null data becomes the empty list, other data is kept |
| Dto.Ok | src/main/java/io/github/chikitlo/common/dto/ApiResult.java:46-48 | code "00000", message "Success", empty data, size 0 |
| Dto.OkData | src/main/java/io/github/chikitlo/common/dto/ApiResult.java:50-52 | code "00000", message "Success", the given data |
| Dto.OkMessage | src/main/java/io/github/chikitlo/common/dto/ApiResult.java:54-56 | code "00000" with the caller's message, stamped with the clock reading; null data becomes the empty list, other data is kept |
| Dto.Fail | src/main/java/io/github/chikitlo/common/dto/ApiResult.java:58-60 | code "B0001", message "System Error", empty data, size 0 |
| Dto.FailMessage | src/main/java/io/github/chikitlo/common/dto/ApiResult.java:62-64 | code "B0001" with the caller's message and empty data |
| Dto.FailMessageData | src/main/java/io/github/chikitlo/common/dto/ApiResult.java:66-68 | code "B0001" with the caller's message, stamped with the clock reading; null data becomes the empty list, other data is kept |
| Dto.FactoriesCarryTheirSeries | src/main/java/io/github/chikitlo/common/dto/ApiResult.java:46-68 | every `ok` factory answers with the successful status and every `fail` factory with the server-error status |
## Left out

- Logging (`log.info`/`log.error` in the engine and the default callback): it has no effect on state.
- `ValidationException` is modelled as the `Fatal` outcome, not as a Java exception object; its constructors are not modelled.
- Exceptions other than `Exception` (a validator throwing an `Error`) escape the engine's `catch`; not modelled.
- Validator objects are not modelled as objects: a custom validator is described by one `Decision` (pass, record-and-reject, reject without recording, throw). A custom validator that records an error and still returns true, or reads and writes context attributes, is not modelled.
- The regular-expression engine is a parameter; `Pattern` syntax, compilation errors of a malformed pattern (`PatternSyntaxException`) and patterns other than the two fixed ones are not interpreted.
- `String.format` locale effects on `%d` are not modelled (ASCII digits are assumed).
- `getAttribute(key, clazz)` is an unchecked cast that returns the same object as `getAttribute(key)`; it adds nothing to the model.
- `ResultCollector` is a datatype with its one implementation; other implementations are not modelled.
- Engine.FluentValidator.DoValidate: requires a non-null result reference; with a null result Java fails with `NullPointerException` (on a non-empty list), which is not modelled.
- Engine.FluentValidator.DoValidate: requires that the context still points at the engine's result (`Valid`); a context re-pointed after `withContext` makes validators and engine write to two different results, which is not modelled.
- Engine.FluentValidator.DoValidate: the callback is never null; `doValidate(null)` on a non-empty list throws `NullPointerException` at the terminal call (`FluentValidator.java:215` or `217`) after the `finally` block wrote the time, or wraps it in `ValidationException` (`FluentValidator.java:207-209`) when a validator throws, and neither is modelled.
- Engine.FluentValidator.WithContext: the context is never null; `withContext(null)` stores the null context and then throws `NullPointerException` (`FluentValidator.java:73-74`), leaving the engine with no context and its old result, which is not modelled.
- Engine.FluentValidator.OnAll: a null list is `None`; the list object itself (its later mutation, aliasing with the caller) is not modelled, only its elements.
- The callback objects are modelled through the calls they receive; the `ValidatorContext` and the validator passed along with each call are not recorded.
- Engine.CallbackRecorder.OnUncaughtException: whether the callback throws is a fixed function of the element and its position in the run; a callback whose answer depends on the exception object, on the context's contents or on state kept from earlier runs is not modelled.
- A validator whose `onExeception` override throws (`Validator.java:17-19`; the call at `FluentValidator.java:204` is outside the inner `try`): the exception leaves `doValidate` unwrapped, `onUncaughtException` is skipped and the `finally` block still writes the time; not modelled, every validator's hook returns normally.
- A callback whose `onSuccess` or `onFail` throws (`FluentValidator.java:214-218`): the exception leaves `doValidate` unwrapped after the time is written; not modelled, the terminal calls return normally.
- A `null` element in the list (`NullPointerException` at `FluentValidator.java:186`) or an element with a `null` validator (the exception from `validate` is caught, then `onExeception` at `FluentValidator.java:204` throws again and escapes): not modelled, elements and their validators are never null.
- A `null` custom message (`new NotNullFieldValidator(null)`, which prints "null" in the message): not modelled, a message is a `string` and cannot be null.
- Core.ValidatorContext.WithParts: the attribute map is taken as a value; Java keeps the caller's `Map` by reference (`ValidatorContext.java:21-24`), so the caller's later writes showing through `getAttribute`, and an unmodifiable map making `setAttribute` throw `UnsupportedOperationException` (`ValidatorContext.java:51`), and a map that refuses the `null` key (such as `Map.of`) throwing `NullPointerException` on it, are not modelled.
- Core.ValidatorContext.SetAttribute: always succeeds; the `UnsupportedOperationException` of an unmodifiable map passed to the two-argument constructor is not modelled.
- Core.ValidatorContext.AddErrorMsg: requires a non-null result; on a context built with `new ValidatorContext()` Java fails with `NullPointerException` (`ValidatorContext.java:17-19, 27`), which is not modelled.
- Core.ValidatorContext.AddError: requires a non-null result; the `NullPointerException` of `ValidatorContext.java:31` on a context without a result is not modelled.
- Validators.Reject: requires the context's result to be non-null; the `NullPointerException` from `context.addError` on a context without a result is not modelled.
- Validators.ValidateNotNull: requires the context's result to be non-null; a rejection on a context without a result throws `NullPointerException` in Java, which is not modelled (a pass would not touch the context).
- Validators.ValidateNotEmpty: requires the context's result to be non-null, for the same reason as `ValidateNotNull`.
- Validators.ValidateRegex: requires the context's result to be non-null, for the same reason as `ValidateNotNull`; and the pattern is a `string`, so a `null` pattern (`new RegexValidator(null)`, whose `Pattern.compile(null)` at `RegexValidator.java:34` throws `NullPointerException` for every non-empty string) is not modelled.
- Validators.ValidateNumeric: requires the context's result to be non-null, for the same reason as `ValidateNotNull`.
- Validators.Validate: requires the context's result to be non-null, for the same reason as `ValidateNotNull`.
- Engine.FluentValidator.Result: requires a non-null result; `result(collector)` after `withContext` with a context that has no result fails with `NullPointerException` in `toResult` (`FluentValidator.java:237-238`), which is not modelled.
- Concurrency: the engine and the shared result are single-threaded; no thread-safety is modelled.
- `ApiResult`'s `@JsonFormat` annotation on `time` is not modelled; its record accessors are the datatype's fields, and the generic type parameter `T` is `Values.Value`.
- Date, JSON, S3 and Jasypt utilities and the constants classes are not part of this model.
