/**
 Turning an accumulated `ValidationResult` into the caller-facing `Result`:
 a success flag and the list of error messages.
 */
module Collectors {
  import opened Values
  import opened Core
  import opened Validators
  import opened Semantics

  /** `Result extends GenericResult<String>`: the flag and the messages, `null` ones included. */
  datatype GenericResult = GenericResult(isSuccess: bool, errors: seq<Option<string>>)
  {
    /** `getErrorNumber`: zero for the empty list, its size otherwise. */
    function ErrorNumber(): (n: nat)
      ensures n == |errors|
      ensures n == 0 <==> errors == []
    {
      if errors == [] then 0 else |errors|
    }
  }

  /** A new `Result`: not successful, with the shared empty list. */
  function NewResult(): (r: GenericResult)
    ensures !r.isSuccess && r.ErrorNumber() == 0
  {
    GenericResult(false, [])
  }

  /** The messages of a list of error records, in order. */
  function Messages(errors: seq<ErrorRecord>): (ms: seq<Option<string>>)
    ensures |ms| == |errors|
    ensures forall k :: 0 <= k < |errors| ==> ms[k] == errors[k].errorMsg
    decreases |errors|
  {
    if errors == [] then [] else Messages(errors[..|errors| - 1]) + [errors[|errors| - 1].errorMsg]
  }

  /** The collectors of the library; `toSimple()` yields the only one. */
  datatype ResultCollector = SimpleResultCollector

  /** `toResult`: a successful result reports no messages, whatever it holds; a failed one
      reports the message of every recorded error, in recording order. */
  function ToResult(c: ResultCollector, view: ResultView): (r: GenericResult)
    ensures r.isSuccess == view.isSuccess
    ensures view.isSuccess ==> r.ErrorNumber() == 0
    ensures !view.isSuccess ==> r.ErrorNumber() == |view.errors|
                                && forall k :: 0 <= k < |view.errors| ==> r.errors[k] == view.errors[k].errorMsg
  {
    match c
    case SimpleResultCollector =>
      if view.isSuccess then NewResult().(isSuccess := true)
      else NewResult().(errors := Messages(view.errors))
  }

  /** A built-in validator never rejects without recording an error. */
  predicate BuiltIn(e: Element)
  {
    !e.validator.Custom?
  }

  lemma BuiltInRejectionRecords(e: Element, fm: Matcher)
    requires BuiltIn(e) && Rejects(e, Library(fm))
    ensures Library(fm)(e).Fail?
  {
  }

  /** Only a recording rejection adds an error: none is recorded exactly when no validator recorded one. */
  lemma {:induction false} NothingRecorded(es: seq<Element>, decide: Decider)
    ensures |Recorded(es, decide)| == 0 <==> forall j :: 0 <= j < |es| ==> !decide(es[j]).Fail?
    decreases |es|
  {
    if es != [] {
      var init := es[..|es| - 1];
      var d := decide(es[|es| - 1]);
      NothingRecorded(init, decide);
      assert |Recorded(es, decide)| == |Recorded(init, decide)| + (if d.Fail? then 1 else 0);
      assert forall j :: 0 <= j < |init| ==> init[j] == es[j];
    }
  }

  /** Collecting a run that starts from a fresh result: the result is failed exactly when a
      validated element was rejected, and the messages are those the validators recorded, in order. */
  lemma CollectFreshRun(es: seq<Element>, cfg: Setting, elapsed: int)
    ensures var r := Execute(es, cfg, ResultView(true, [], 0), elapsed);
            var g := ToResult(SimpleResultCollector, r.result);
            && r.validatedCount <= |es|
            && (g.isSuccess <==> forall j :: 0 <= j < r.validatedCount ==> !Rejects(es[j], cfg.decide))
            && (!g.isSuccess ==> g.errors == Messages(Recorded(es[..r.validatedCount], cfg.decide)))
  {
    OnlyValidatorsRecord(es, cfg, ResultView(true, [], 0), elapsed);
    SuccessFlag(es, cfg, ResultView(true, [], 0), elapsed);
  }

  /** With built-in validators only, a failed fresh run always reports at least one message. */
  lemma BuiltInFailureIsReported(es: seq<Element>, cfg: Setting, fm: Matcher, elapsed: int)
    requires cfg.decide == Library(fm)
    requires forall j :: 0 <= j < |es| ==> BuiltIn(es[j])
    ensures var r := Execute(es, cfg, ResultView(true, [], 0), elapsed);
            var g := ToResult(SimpleResultCollector, r.result);
            !g.isSuccess ==> g.ErrorNumber() > 0
  {
    var r := Execute(es, cfg, ResultView(true, [], 0), elapsed);
    CollectFreshRun(es, cfg, elapsed);
    var taken := es[..r.validatedCount];
    assert forall j :: 0 <= j < |taken| ==> taken[j] == es[j];
    NothingRecorded(taken, cfg.decide);
    if !ToResult(SimpleResultCollector, r.result).isSuccess {
      var j :| 0 <= j < r.validatedCount && Rejects(es[j], cfg.decide);
      BuiltInRejectionRecords(es[j], fm);
      assert cfg.decide(taken[j]).Fail?;
    }
  }
}
