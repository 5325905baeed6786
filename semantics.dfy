/**
 What one `FluentValidator.doValidate(callback)` run does, as a function of the
 registered elements, the policy, the callback and the result it starts from.
 The engine's loop (module Engine) is proved to compute exactly `Execute`; the
 lemmas below state what the engine promises about it.
 */
module Semantics {
  import opened Values
  import opened Format
  import opened Core
  import opened Validators

  /** A `ValidatorElement`: one unit of work. */
  datatype Element = Element(fieldName: Option<string>, target: Value, lineNumber: int, validator: Validator)

  /** The calls a run makes on the outside world, in order. */
  datatype Event =
    | ValidatorOnException(index: nat)                            // validator.onExeception(e, context, target)
    | CallbackOnUncaughtException(index: nat, target: Value)      // callback.onUncaughtException(...)
    | CallbackOnSuccess(elements: seq<Element>)                   // callback.onSuccess(context, elements)
    | CallbackOnFail(elements: seq<Element>, errors: seq<ErrorRecord>)  // callback.onFail(context, elements, errors)

  /** What the validator of each element does when the engine calls it. */
  type Decider = Element -> Decision

  /** The run's policy and collaborators: fail-fast flag, whether the callback's
      `onUncaughtException` throws for the element at a given position, and what each
      element's validator decides. */
  datatype Setting = Setting(failFast: bool, rethrows: (nat, Element) -> bool, decide: Decider)

  /** Why the loop is no longer running: a fail-fast `break`, or a `ValidationException` at an element. */
  datatype Stop = Running | Broke | Aborted(at: nat)

  /** The loop's variables: the result's flag and errors, the calls made, `validatedCount`, and the exit reason. */
  datatype RunState = RunState(success: bool, errors: seq<ErrorRecord>, events: seq<Event>, count: nat, stop: Stop)

  /** How `doValidate` ends: normally, or by raising `ValidationException` for the element at `at`. */
  datatype RunOutcome = Completed | Fatal(at: nat)

  /** The result, the calls made, `validatedCount`, and how the run ended. */
  datatype Report = Report(result: ResultView, events: seq<Event>, validatedCount: nat, outcome: RunOutcome)

  /** The error record the engine builds for an element before calling its validator. */
  function Placeholder(e: Element): ErrorRecord
  {
    PlaceholderRecord(e.fieldName, e.target, e.lineNumber)
  }

  /** What the element's validator decides, handed the placeholder for the element. */
  function DecisionOf(e: Element, fm: Matcher): Decision
  {
    Decide(e.validator, e.target, e.fieldName, e.lineNumber, fm)
  }

  /** The decisions of the library's validators, with `fm` as the regular-expression engine. */
  function Library(fm: Matcher): Decider
  {
    e => DecisionOf(e, fm)
  }

  /** The validator returns false. */
  predicate Rejects(e: Element, decide: Decider)
  {
    decide(e).Fail? || decide(e).FailUnrecorded?
  }

  /** The validator throws. */
  predicate Throws(e: Element, decide: Decider)
  {
    decide(e).Throw?
  }

  /** The element `e`, at position `k`, ends the loop: a rejection under fail-fast, or an exception the callback rethrows. */
  predicate Stops(k: nat, e: Element, cfg: Setting)
  {
    (cfg.failFast && Rejects(e, cfg.decide)) || (Throws(e, cfg.decide) && cfg.rethrows(k, e))
  }

  /** The errors the validators of `es` record, in order: the filled-in placeholder of each rejecting one. */
  function Recorded(es: seq<Element>, decide: Decider): seq<ErrorRecord>
    decreases |es|
  {
    if es == [] then []
    else
      var e := es[|es| - 1];
      var d := decide(e);
      Recorded(es[..|es| - 1], decide) + (if d.Fail? then [Placeholder(e).(errorMsg := Some(d.errorMsg))] else [])
  }

  /** The hook calls made for the first `k` elements: for each one that throws, its validator's hook, then the callback. */
  function Hooks(es: seq<Element>, k: nat, decide: Decider): seq<Event>
    requires k <= |es|
    decreases k
  {
    if k == 0 then []
    else
      var e := es[k - 1];
      Hooks(es, k - 1, decide) + (if Throws(e, decide) then [ValidatorOnException(k - 1), CallbackOnUncaughtException(k - 1, e.target)] else [])
  }

  function Start(before: ResultView): RunState
  {
    RunState(before.isSuccess, before.errors, [], 0, Running)
  }

  /** One iteration of the loop body, for element `k`. */
  function Step(es: seq<Element>, k: nat, s: RunState, cfg: Setting): RunState
    requires k < |es|
  {
    var e := es[k];
    var s1 := s.(count := s.count + 1);
    match cfg.decide(e)
    case Pass => s1
    case Fail(m) =>
      s1.(success := false, errors := s.errors + [Placeholder(e).(errorMsg := Some(m))],
          stop := if cfg.failFast then Broke else Running)
    case FailUnrecorded =>
      s1.(success := false, stop := if cfg.failFast then Broke else Running)
    case Throw =>
      s1.(events := s.events + [ValidatorOnException(k), CallbackOnUncaughtException(k, e.target)],
          stop := if cfg.rethrows(k, e) then Aborted(k) else Running)
  }

  /** The loop's state once the first `k` elements have been offered to it. */
  function After(es: seq<Element>, k: nat, before: ResultView, cfg: Setting): RunState
    requires k <= |es|
    decreases k
  {
    if k == 0 then Start(before)
    else
      var s := After(es, k - 1, before, cfg);
      if s.stop == Running then Step(es, k - 1, s, cfg) else s
  }

  /** The terminal call: `onSuccess` when the result holds errors, `onFail` when it holds none. */
  function Terminal(es: seq<Element>, errors: seq<ErrorRecord>): Event
  {
    if |errors| > 0 then CallbackOnSuccess(es) else CallbackOnFail(es, errors)
  }

  /** `doValidate(callback)`; `elapsed` is the clock difference in milliseconds, which the
      `finally` block narrows to `int` and writes into the result. */
  function Execute(es: seq<Element>, cfg: Setting, before: ResultView, elapsed: int): (r: Report)
    ensures es == [] ==> r == Report(before, [], 0, Completed)
    ensures es != [] ==> 1 <= r.validatedCount <= |es| && r.result.timeElapsed == NarrowToInt(elapsed)
    ensures r.outcome.Fatal? ==> r.outcome.at == r.validatedCount - 1
  {
    if es == [] then Report(before, [], 0, Completed)
    else
      var s := After(es, |es|, before, cfg);
      CountShape(es, |es|, before, cfg);
      var view := ResultView(s.success, s.errors, NarrowToInt(elapsed));
      if s.stop.Aborted? then Report(view, s.events, s.count, Fatal(s.stop.at))
      else Report(view, s.events + [Terminal(es, s.errors)], s.count, Completed)
  }

  /** `Execute` in terms of the loop's final state; an unfolding helper for the engine proof and `CallSequence`. */
  lemma ExecuteByFinalState(es: seq<Element>, cfg: Setting, before: ResultView, elapsed: int)
    requires es != []
    ensures var s := After(es, |es|, before, cfg);
            var view := ResultView(s.success, s.errors, NarrowToInt(elapsed));
            Execute(es, cfg, before, elapsed)
              == if s.stop.Aborted? then Report(view, s.events, s.count, Fatal(s.stop.at))
                 else Report(view, s.events + [Terminal(es, s.errors)], s.count, Completed)
  {
  }

  // ---------------------------------------------------------------------------
  // Invariants of the loop

  /** Once the loop has stopped, later elements change nothing. */
  lemma {:induction false} StopPersists(es: seq<Element>, k: nat, m: nat, before: ResultView, cfg: Setting)
    requires k <= m <= |es|
    requires After(es, k, before, cfg).stop != Running
    ensures After(es, m, before, cfg) == After(es, k, before, cfg)
    decreases m
  {
    if m > k {
      StopPersists(es, k, m - 1, before, cfg);
    }
  }

  /** One more element taken by a running loop, with its validator's decision named; an unfolding helper
      for the engine proof. */
  lemma AfterStep(es: seq<Element>, i: nat, before: ResultView, cfg: Setting)
    requires i < |es| && After(es, i, before, cfg).stop == Running
    ensures var s := After(es, i, before, cfg);
            var t := After(es, i + 1, before, cfg);
            var d := cfg.decide(es[i]);
            var rejected := d.Fail? || d.FailUnrecorded?;
            && t.success == (s.success && !rejected)
            && t.errors == s.errors + (if d.Fail? then [Placeholder(es[i]).(errorMsg := Some(d.errorMsg))] else [])
            && t.events == s.events + (if d.Throw? then [ValidatorOnException(i), CallbackOnUncaughtException(i, es[i].target)] else [])
            && t.count == s.count + 1
            && t.stop == (if d.Throw? && cfg.rethrows(i, es[i]) then Aborted(i)
                          else if rejected && cfg.failFast then Broke else Running)
  {
  }

  /** Elements are taken in order; the loop runs on until the first element that stops it, which is the last one taken. */
  lemma {:induction false} CountShape(es: seq<Element>, k: nat, before: ResultView, cfg: Setting)
    requires k <= |es|
    ensures var s := After(es, k, before, cfg);
            && s.count <= k
            && (s.stop == Running ==> s.count == k)
            && (forall j :: 0 <= j < s.count - 1 ==> !Stops(j, es[j], cfg))
            && (s.stop == Running ==> forall j :: 0 <= j < s.count ==> !Stops(j, es[j], cfg))
            && (s.stop != Running ==> 0 < s.count && Stops(s.count - 1, es[s.count - 1], cfg))
            && (s.stop == Broke ==> cfg.failFast && Rejects(es[s.count - 1], cfg.decide))
            && (s.stop.Aborted? ==> s.stop.at == s.count - 1 && Throws(es[s.count - 1], cfg.decide)
                                    && cfg.rethrows(s.count - 1, es[s.count - 1]))
    decreases k
  {
    if k > 0 {
      CountShape(es, k - 1, before, cfg);
    }
  }

  /** The loop never takes more elements than it was offered, and while running it has taken them all. */
  lemma {:induction false} CountBound(es: seq<Element>, k: nat, before: ResultView, cfg: Setting)
    requires k <= |es|
    ensures var s := After(es, k, before, cfg);
            s.count <= k && (s.stop == Running ==> s.count == k)
    decreases k
  {
    if k > 0 {
      CountBound(es, k - 1, before, cfg);
    }
  }

  /** The errors are the starting errors followed by those the taken elements' validators recorded. */
  lemma {:induction false} ErrorsShape(es: seq<Element>, k: nat, before: ResultView, cfg: Setting)
    requires k <= |es|
    ensures var s := After(es, k, before, cfg);
            s.count <= |es| && s.errors == before.errors + Recorded(es[..s.count], cfg.decide)
    decreases k
  {
    CountBound(es, k, before, cfg);
    if k > 0 {
      ErrorsShape(es, k - 1, before, cfg);
      var p := After(es, k - 1, before, cfg);
      CountBound(es, k - 1, before, cfg);
      if p.stop == Running {
        AfterStep(es, k - 1, before, cfg);
        assert es[..k][..k - 1] == es[..k - 1];
      }
    }
  }

  /** The success flag is the starting flag, lowered exactly when some taken element's validator returned false. */
  lemma {:induction false} SuccessShape(es: seq<Element>, k: nat, before: ResultView, cfg: Setting)
    requires k <= |es|
    ensures var s := After(es, k, before, cfg);
            s.count <= |es|
            && (s.success <==> before.isSuccess && forall j :: 0 <= j < s.count ==> !Rejects(es[j], cfg.decide))
    decreases k
  {
    CountShape(es, k, before, cfg);
    if k > 0 {
      SuccessShape(es, k - 1, before, cfg);
      CountShape(es, k - 1, before, cfg);
    }
  }

  /** The calls made are the hook pairs of the taken elements that threw. */
  lemma {:induction false} EventsShape(es: seq<Element>, k: nat, before: ResultView, cfg: Setting)
    requires k <= |es|
    ensures var s := After(es, k, before, cfg);
            s.count <= |es| && s.events == Hooks(es, s.count, cfg.decide)
    decreases k
  {
    CountShape(es, k, before, cfg);
    if k > 0 {
      EventsShape(es, k - 1, before, cfg);
      CountShape(es, k - 1, before, cfg);
    }
  }

  /** Hook calls are never terminal calls. */
  lemma {:induction false} HooksAreNotTerminal(es: seq<Element>, k: nat, decide: Decider)
    requires k <= |es|
    ensures forall ev :: ev in Hooks(es, k, decide) ==> ev.ValidatorOnException? || ev.CallbackOnUncaughtException?
    decreases k
  {
    if k > 0 {
      HooksAreNotTerminal(es, k - 1, decide);
    }
  }

  /** Each throwing element produces its validator's hook call immediately followed by the callback's. */
  lemma {:induction false} HookPairOrder(es: seq<Element>, k: nat, decide: Decider, j: nat)
    requires j < k <= |es| && Throws(es[j], decide)
    ensures exists p :: 0 <= p < |Hooks(es, k, decide)| - 1
                        && Hooks(es, k, decide)[p] == ValidatorOnException(j)
                        && Hooks(es, k, decide)[p + 1] == CallbackOnUncaughtException(j, es[j].target)
    decreases k
  {
    var h := Hooks(es, k - 1, decide);
    if j == k - 1 {
      var p := |h|;
      assert Hooks(es, k, decide) == h + [ValidatorOnException(j), CallbackOnUncaughtException(j, es[j].target)];
      assert Hooks(es, k, decide)[p] == ValidatorOnException(j);
      assert Hooks(es, k, decide)[p + 1] == CallbackOnUncaughtException(j, es[j].target);
    } else {
      HookPairOrder(es, k - 1, decide, j);
      var p :| 0 <= p < |h| - 1 && h[p] == ValidatorOnException(j) && h[p + 1] == CallbackOnUncaughtException(j, es[j].target);
      assert Hooks(es, k, decide)[p] == h[p] && Hooks(es, k, decide)[p + 1] == h[p + 1];
    }
  }

  // ---------------------------------------------------------------------------
  // What a run promises

  /** With no elements the run returns at once: no validator, no callback, no time written. */
  lemma EmptyRunIsNoOp(cfg: Setting, before: ResultView, elapsed: int)
    ensures Execute([], cfg, before, elapsed) == Report(before, [], 0, Completed)
  {
  }

  /** Elements are validated in registration order; the run takes them up to and including the first
      one that stops it (a rejection under fail-fast, an exception the callback rethrows), and no further. */
  lemma ValidatedPrefix(es: seq<Element>, cfg: Setting, before: ResultView, elapsed: int)
    requires es != []
    ensures var r := Execute(es, cfg, before, elapsed);
            && 1 <= r.validatedCount <= |es|
            && (forall j :: 0 <= j < r.validatedCount - 1 ==> !Stops(j, es[j], cfg))
            && (r.validatedCount < |es| ==> Stops(r.validatedCount - 1, es[r.validatedCount - 1], cfg))
            && r.result.timeElapsed == NarrowToInt(elapsed)
  {
    CountShape(es, |es|, before, cfg);
  }

  /** Under fail-over, and with no exception escalated, every element is validated and the run completes. */
  lemma FailOverValidatesAll(es: seq<Element>, cfg: Setting, before: ResultView, elapsed: int)
    requires !cfg.failFast
    requires forall j :: 0 <= j < |es| ==> !(Throws(es[j], cfg.decide) && cfg.rethrows(j, es[j]))
    ensures var r := Execute(es, cfg, before, elapsed);
            r.validatedCount == |es| && r.outcome == Completed
  {
    if es != [] {
      CountShape(es, |es|, before, cfg);
    }
  }

  /** Under fail-fast, the first rejecting element is the last one validated, the run completes
      and the result is marked failed. */
  lemma FailFastStopsAtFirstRejection(es: seq<Element>, cfg: Setting, before: ResultView, elapsed: int, j: nat)
    requires cfg.failFast
    requires j < |es| && Rejects(es[j], cfg.decide)
    requires forall i :: 0 <= i < j ==> !Stops(i, es[i], cfg)
    ensures var r := Execute(es, cfg, before, elapsed);
            r.validatedCount == j + 1 && r.outcome == Completed && !r.result.isSuccess
  {
    var s := After(es, |es|, before, cfg);
    CountShape(es, |es|, before, cfg);
    SuccessShape(es, |es|, before, cfg);
    assert Stops(j, es[j], cfg);
    assert !(s.count > j + 1);
  }

  /** An exception the callback absorbs does not stop the run, even under fail-fast:
      the next element is validated too. */
  lemma ContainedExceptionContinues(es: seq<Element>, cfg: Setting, before: ResultView, elapsed: int, j: nat)
    requires j + 1 < |es| && Throws(es[j], cfg.decide) && !cfg.rethrows(j, es[j])
    requires j < Execute(es, cfg, before, elapsed).validatedCount
    ensures j + 1 < Execute(es, cfg, before, elapsed).validatedCount
  {
    ValidatedPrefix(es, cfg, before, elapsed);
    assert !Stops(j, es[j], cfg);
  }

  /** The engine records no error itself: the result gains exactly the errors the validated
      elements' validators recorded, in order, each carrying its element's field name, target and line. */
  lemma OnlyValidatorsRecord(es: seq<Element>, cfg: Setting, before: ResultView, elapsed: int)
    ensures var r := Execute(es, cfg, before, elapsed);
            r.validatedCount <= |es| && r.result.errors == before.errors + Recorded(es[..r.validatedCount], cfg.decide)
  {
    if es != [] {
      ErrorsShape(es, |es|, before, cfg);
    }
  }

  /** The success flag is lowered exactly when a validated element's validator returned false;
      exceptions leave it alone, and nothing sets it back to true. */
  lemma SuccessFlag(es: seq<Element>, cfg: Setting, before: ResultView, elapsed: int)
    ensures var r := Execute(es, cfg, before, elapsed);
            r.validatedCount <= |es|
            && (r.result.isSuccess <==> before.isSuccess && forall j :: 0 <= j < r.validatedCount ==> !Rejects(es[j], cfg.decide))
  {
    if es != [] {
      SuccessShape(es, |es|, before, cfg);
    }
  }

  /** The calls a run makes: the hook pairs of the validated elements that threw, then, on normal
      completion, one terminal call; a fatal run ends at the element whose exception the callback
      rethrew, with no terminal call, yet with the time written. */
  lemma CallSequence(es: seq<Element>, cfg: Setting, before: ResultView, elapsed: int)
    requires es != []
    ensures var r := Execute(es, cfg, before, elapsed);
            && r.validatedCount <= |es|
            && (r.outcome == Completed ==> r.events == Hooks(es, r.validatedCount, cfg.decide) + [Terminal(es, r.result.errors)])
            && (r.outcome.Fatal? ==>
                  && r.events == Hooks(es, r.validatedCount, cfg.decide)
                  && r.outcome.at == r.validatedCount - 1
                  && Throws(es[r.outcome.at], cfg.decide) && cfg.rethrows(r.outcome.at, es[r.outcome.at])
                  && r.result.timeElapsed == NarrowToInt(elapsed))
  {
    var s := After(es, |es|, before, cfg);
    var r := Execute(es, cfg, before, elapsed);
    ExecuteByFinalState(es, cfg, before, elapsed);
    CountShape(es, |es|, before, cfg);
    EventsShape(es, |es|, before, cfg);
    assert r.validatedCount == s.count && r.result.errors == s.errors;
    if s.stop.Aborted? {
      assert r.events == s.events && r.outcome == Fatal(s.stop.at);
    } else {
      assert r.events == s.events + [Terminal(es, s.errors)] && r.outcome == Completed;
    }
  }

  /** On normal completion exactly one terminal call is made, and it is the last call:
      `onSuccess` when the result holds errors, `onFail` (always with an empty list) when it holds none. */
  lemma TerminalCallInverted(es: seq<Element>, cfg: Setting, before: ResultView, elapsed: int)
    requires es != []
    requires Execute(es, cfg, before, elapsed).outcome == Completed
    ensures var r := Execute(es, cfg, before, elapsed);
            && |r.events| > 0
            && (forall p :: 0 <= p < |r.events| - 1 ==> !r.events[p].CallbackOnSuccess? && !r.events[p].CallbackOnFail?)
            && (|r.result.errors| > 0 ==> r.events[|r.events| - 1] == CallbackOnSuccess(es))
            && (|r.result.errors| == 0 ==> r.events[|r.events| - 1] == CallbackOnFail(es, []))
  {
    var r := Execute(es, cfg, before, elapsed);
    CallSequence(es, cfg, before, elapsed);
    var h := Hooks(es, r.validatedCount, cfg.decide);
    HooksAreNotTerminal(es, r.validatedCount, cfg.decide);
    assert r.events == h + [Terminal(es, r.result.errors)];
    forall p | 0 <= p < |r.events| - 1
      ensures !r.events[p].CallbackOnSuccess? && !r.events[p].CallbackOnFail?
    {
      assert r.events[p] == h[p] && h[p] in h;
    }
    assert r.events[|r.events| - 1] == Terminal(es, r.result.errors);
    if |r.result.errors| == 0 {
      assert r.result.errors == [];
    }
  }

  /** A run only adds to its result: earlier errors stay, in place, and a lowered flag stays lowered. */
  lemma RunOnlyAppends(es: seq<Element>, cfg: Setting, before: ResultView, elapsed: int)
    ensures var r := Execute(es, cfg, before, elapsed);
            && |before.errors| <= |r.result.errors|
            && r.result.errors[..|before.errors|] == before.errors
            && (r.result.isSuccess ==> before.isSuccess)
  {
    var r := Execute(es, cfg, before, elapsed);
    OnlyValidatorsRecord(es, cfg, before, elapsed);
    SuccessFlag(es, cfg, before, elapsed);
    assert r.result.errors[..|before.errors|] == before.errors;
  }

  /** Two runs into one shared result: the second run's errors follow the first run's. */
  lemma SharedResultAccumulates(es1: seq<Element>, es2: seq<Element>, cfg1: Setting, cfg2: Setting,
                                before: ResultView, t1: int, t2: int)
    ensures var r1 := Execute(es1, cfg1, before, t1);
            var r2 := Execute(es2, cfg2, r1.result, t2);
            && |r1.result.errors| <= |r2.result.errors|
            && r2.validatedCount <= |es2|
            && r2.result.errors == r1.result.errors + Recorded(es2[..r2.validatedCount], cfg2.decide)
            && (!r1.result.isSuccess ==> !r2.result.isSuccess)
  {
    var r1 := Execute(es1, cfg1, before, t1);
    OnlyValidatorsRecord(es2, cfg2, r1.result, t2);
    RunOnlyAppends(es2, cfg2, r1.result, t2);
  }
}
