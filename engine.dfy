/**
 The `FluentValidator` builder and its `doValidate` loop, with the callback it
 reports to. The loop is proved to compute `Semantics.Execute`, so every lemma
 proved there holds of the engine.
 */
module Engine {
  import opened Values
  import opened Format
  import opened Core
  import opened Validators
  import opened Semantics
  import opened Collectors

  /** A `ValidateCallBack`, seen through the calls it receives. Whether its
      `onUncaughtException` throws for the element at a position of the run is given by `rethrows`. The library's
      validators inherit the interface's empty `onExeception` hook; each call of that
      hook is noted here too, so that its order relative to the callback is kept. */
  class CallbackRecorder {
    var events: seq<Event>
    const rethrows: (nat, Element) -> bool

    constructor (rethrows: (nat, Element) -> bool)
      ensures events == [] && this.rethrows == rethrows
    {
      events := [];
      this.rethrows := rethrows;
    }

    method OnSuccess(elements: seq<Element>)
      modifies this`events
      ensures events == old(events) + [CallbackOnSuccess(elements)]
    {
      events := events + [CallbackOnSuccess(elements)];
    }

    method OnFail(elements: seq<Element>, errors: seq<ErrorRecord>)
      modifies this`events
      ensures events == old(events) + [CallbackOnFail(elements, errors)]
    {
      events := events + [CallbackOnFail(elements, errors)];
    }

    /** Returns whether the callback threw. */
    method OnUncaughtException(index: nat, element: Element) returns (threw: bool)
      modifies this`events
      ensures events == old(events) + [CallbackOnUncaughtException(index, element.target)]
      ensures threw == rethrows(index, element)
    {
      events := events + [CallbackOnUncaughtException(index, element.target)];
      threw := rethrows(index, element);
    }

    /** The validator's `onExeception` hook was called for the element at `index`. */
    method NoteValidatorHook(index: nat)
      modifies this`events
      ensures events == old(events) + [ValidatorOnException(index)]
    {
      events := events + [ValidatorOnException(index)];
    }
  }

  class FluentValidator {
    var elements: seq<Element>
    var context: ValidatorContext
    var result: ValidationResult?
    var isFailFast: bool
    /** `DefaultValidateCallback`: it only logs, so it never throws. */
    const defaultCallBack: CallbackRecorder

    /** The context records into the engine's own result. */
    ghost predicate Valid()
      reads this, context
    {
      context.result == result
    }

    /** `newInstance()`: no elements, fail-over, a fresh context pointing at a fresh result. */
    constructor NewInstance()
      ensures Valid() && result != null
      ensures elements == [] && !isFailFast
      ensures fresh(context) && fresh(result) && fresh(defaultCallBack)
      ensures context.attributes == None
      ensures result.isSuccess && result.errors == [] && result.timeElapsed == 0
      ensures defaultCallBack.events == [] && forall i, e :: !defaultCallBack.rethrows(i, e)
    {
      var c := new ValidatorContext();
      var r := new ValidationResult();
      c.SetResult(r);
      elements := [];
      context := c;
      result := r;
      isFailFast := false;
      defaultCallBack := new CallbackRecorder((i, e) => false);
    }

    /** `putAttributeToContext`: writes into the current context's attribute bag. */
    method PutAttributeToContext(key: Key, value: Value)
      modifies context`attributes
      ensures context.attributes == Put(old(context.attributes), key, value)
      ensures context.GetAttribute(key) == value
    {
      context.SetAttribute(key, value);
    }

    /** `withContext`: adopt the given context and the result it points at. */
    method WithContext(ctx: ValidatorContext)
      modifies this`context, this`result
      ensures context == ctx && result == ctx.result && Valid()
    {
      context := ctx;
      result := ctx.GetResult();
    }

    method FailFast()
      modifies this`isFailFast
      ensures isFailFast
    {
      isFailFast := true;
    }

    method FailOver()
      modifies this`isFailFast
      ensures !isFailFast
    {
      isFailFast := false;
    }

    method SetIsFailFast(isFailFast: bool)
      modifies this`isFailFast
      ensures this.isFailFast == isFailFast
    {
      this.isFailFast := isFailFast;
    }

    /** `on(element)`: appends one element. */
    method On(element: Element)
      modifies this`elements
      ensures elements == old(elements) + [element]
    {
      elements := elements + [element];
    }

    /** `on(list)`: appends the list's elements in order; a null or empty list adds nothing. */
    method OnAll(list: Option<seq<Element>>)
      modifies this`elements
      ensures list.None? ==> elements == old(elements)
      ensures list.Some? ==> elements == old(elements) + list.value
    {
      if list.Some? && |list.value| > 0 {
        elements := elements + list.value;
      }
    }

    /** `on(fieldName, target, lineNumber, validator)`: appends a new element built from its parts. */
    method OnField(fieldName: Option<string>, target: Value, lineNumber: int, validator: Validator)
      modifies this`elements
      ensures elements == old(elements) + [Element(fieldName, target, lineNumber, validator)]
    {
      On(Element(fieldName, target, lineNumber, validator));
    }

    /** One pass of the loop body for the element at `index`: build the error placeholder, call the
        validator, lower the flag on `false`, and on an exception call the validator's hook and then
        the callback. Reports whether the validator returned false and whether the callback threw,
        and hands back the placeholder. */
    method ValidateElement(element: Element, index: nat, callback: CallbackRecorder, fm: Matcher)
      returns (rejected: bool, aborted: bool, errorInfo: ValidationError)
      requires Valid() && result != null
      modifies result`isSuccess, result`errors, callback`events
      ensures fresh(errorInfo)
      ensures var d := DecisionOf(element, fm);
              && rejected == (d.Fail? || d.FailUnrecorded?)
              && aborted == (d.Throw? && callback.rethrows(index, element))
              && result.isSuccess == (old(result.isSuccess) && !rejected)
              && result.errors == old(result.errors) + (if d.Fail? then [errorInfo] else [])
              && (d.Fail? ==> errorInfo.Record() == Placeholder(element).(errorMsg := Some(d.errorMsg)))
              && callback.events == old(callback.events)
                   + (if d.Throw? then [ValidatorOnException(index), CallbackOnUncaughtException(index, element.target)] else [])
    {
      errorInfo := new ValidationError.Build(element.fieldName, element.target, element.lineNumber);
      var o := Validate(element.validator, context, element.target, errorInfo, fm);
      rejected, aborted := false, false;
      match o {
        case Returned(valid) =>
          if !valid {
            result.SetSuccess(false);
            rejected := true;
          }
        case Threw =>
          callback.NoteValidatorHook(index);
          aborted := callback.OnUncaughtException(index, element);
      }
    }

    /** The result and the callback hold what the run state `s` says, after the calls in `base`. */
    ghost predicate Mirrors(s: RunState, callback: CallbackRecorder, base: seq<Event>)
      requires result != null
      reads this, result, result.errors, callback
    {
      && result.isSuccess == s.success
      && |result.errors| == |s.errors|
      && (forall k :: 0 <= k < |s.errors| ==> result.errors[k].Record() == s.errors[k])
      && callback.events == base + s.events
    }

    /** The loop of a run with configuration `cfg` has taken the first `i` elements and
        the result and the callback agree with the run semantics. */
    ghost predicate Progress(i: nat, stopped: bool, callback: CallbackRecorder, cfg: Setting,
                             before: ResultView, base: seq<Event>)
      requires result != null
      reads this, result, result.errors, callback
    {
      && i <= |elements|
      && Mirrors(After(elements, i, before, cfg), callback, base)
      && After(elements, i, before, cfg).count == i
      && After(elements, i, before, cfg).stop == (if stopped then Broke else Running)
    }

    /** The loop body for the element at `i`, as one step of the run semantics. */
    method TakeElement(i: nat, callback: CallbackRecorder, fm: Matcher, ghost before: ResultView, ghost base: seq<Event>)
      returns (rejected: bool, aborted: bool)
      requires Valid() && result != null && i < |elements|
      requires Progress(i, false, callback, Setting(isFailFast, callback.rethrows, Library(fm)), before, base)
      modifies result`isSuccess, result`errors, callback`events
      ensures !aborted ==> Progress(i + 1, rejected && isFailFast, callback, Setting(isFailFast, callback.rethrows, Library(fm)), before, base)
      ensures aborted ==> var t := After(elements, i + 1, before, Setting(isFailFast, callback.rethrows, Library(fm)));
                          Mirrors(t, callback, base) && t.count == i + 1 && t.stop == Aborted(i)
    {
      ghost var cfg := Setting(isFailFast, callback.rethrows, Library(fm));
      AfterStep(elements, i, before, cfg);
      var errorInfo;
      rejected, aborted, errorInfo := ValidateElement(elements[i], i, callback, fm);
      assert callback.events == base + After(elements, i + 1, before, cfg).events;
    }

    /** The `for` loop of `doValidate`: elements in order until the list ends, a fail-fast `break`,
        or an exception the callback rethrows (`abortedAt` names that element). */
    method RunElements(callback: CallbackRecorder, fm: Matcher, ghost before: ResultView, ghost base: seq<Event>)
      returns (validatedCount: nat, abortedAt: Option<nat>)
      requires Valid() && result != null
      requires Mirrors(Start(before), callback, base)
      modifies result`isSuccess, result`errors, callback`events
      ensures var s := After(elements, |elements|, before, Setting(isFailFast, callback.rethrows, Library(fm)));
              && Mirrors(s, callback, base)
              && s.count == validatedCount
              && (if s.stop.Aborted? then abortedAt == Some(s.stop.at) else abortedAt == None)
    {
      ghost var cfg := Setting(isFailFast, callback.rethrows, Library(fm));
      validatedCount := 0;
      abortedAt := None;
      var i := 0;
      var stopped := false;
      while i < |elements| && !stopped
        invariant validatedCount == i
        invariant Progress(i, stopped, callback, cfg, before, base)
      {
        validatedCount := validatedCount + 1;
        var rejected, aborted := TakeElement(i, callback, fm, before, base);
        if aborted {
          StopPersists(elements, i + 1, |elements|, before, cfg);
          abortedAt := Some(i);
          return;
        }
        stopped := rejected && isFailFast;
        i := i + 1;
      }
      if stopped {
        StopPersists(elements, i, |elements|, before, cfg);
      }
    }

    /** The `if` after the loop: `onSuccess` when the result holds errors, `onFail` with the
        result's (empty) error list otherwise. */
    method Conclude(callback: CallbackRecorder, ghost s: RunState, ghost base: seq<Event>)
      requires result != null && Mirrors(s, callback, base)
      modifies callback`events
      ensures Mirrors(s.(events := s.events + [Terminal(elements, s.errors)]), callback, base)
    {
      var hasErrors := result.HasErrors();
      if hasErrors {
        callback.OnSuccess(elements);
      } else {
        callback.OnFail(elements, RecordsOf(result.errors));
      }
      assert callback.events == base + (s.events + [Terminal(elements, s.errors)]);
    }

    /** The `finally` block: the narrowed elapsed time is written into the result. */
    method Stamp(callback: CallbackRecorder, elapsed: int, ghost s: RunState, ghost base: seq<Event>)
      requires result != null && Mirrors(s, callback, base)
      modifies result`timeElapsed
      ensures result.View() == ResultView(s.success, s.errors, NarrowToInt(elapsed))
      ensures callback.events == base + s.events
    {
      result.SetTimeElapsed(NarrowToInt(elapsed));
      assert RecordsOf(result.errors) == s.errors;
    }

    /** `doValidate(callback)`. `elapsed` is the clock difference the `finally` block measures;
        a `Fatal` outcome stands for the `ValidationException` the method throws. */
    method DoValidate(callback: CallbackRecorder, fm: Matcher, elapsed: int) returns (validatedCount: nat, outcome: RunOutcome)
      requires Valid() && result != null
      modifies result, callback
      ensures var r := Execute(elements, Setting(isFailFast, callback.rethrows, Library(fm)), old(result.View()), elapsed);
              && result.View() == r.result
              && callback.events == old(callback.events) + r.events
              && validatedCount == r.validatedCount
              && outcome == r.outcome
    {
      ghost var cfg := Setting(isFailFast, callback.rethrows, Library(fm));
      ghost var before := result.View();
      ghost var base := callback.events;
      validatedCount := 0;
      outcome := Completed;
      if elements == [] {
        return;
      }
      ExecuteByFinalState(elements, cfg, before, elapsed);
      ghost var last := After(elements, |elements|, before, cfg);
      var abortedAt;
      validatedCount, abortedAt := RunElements(callback, fm, before, base);
      if abortedAt.Some? {
        outcome := Fatal(abortedAt.value);
        Stamp(callback, elapsed, last, base);
      } else {
        Conclude(callback, last, base);
        Stamp(callback, elapsed, last.(events := last.events + [Terminal(elements, last.errors)]), base);
      }
    }

    /** `doValidate()`: the run reported to the default callback, which absorbs every exception. */
    method DoValidateDefault(fm: Matcher, elapsed: int) returns (validatedCount: nat, outcome: RunOutcome)
      requires Valid() && result != null
      modifies result, defaultCallBack
      ensures var r := Execute(elements, Setting(isFailFast, defaultCallBack.rethrows, Library(fm)), old(result.View()), elapsed);
              && result.View() == r.result
              && defaultCallBack.events == old(defaultCallBack.events) + r.events
              && validatedCount == r.validatedCount
              && outcome == r.outcome
    {
      validatedCount, outcome := DoValidate(defaultCallBack, fm, elapsed);
    }

    /** `result(collector)`: the collector applied to the current result. */
    method Result(collector: ResultCollector) returns (r: GenericResult)
      requires result != null
      ensures r == ToResult(collector, result.View())
    {
      r := ToResult(collector, result.View());
    }
  }
}
