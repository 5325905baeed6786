/**
 The records a validation run writes into: the mutable error record
 (`ValidationError`), the accumulator of one or more runs (`ValidationResult`)
 and the state shared with every validator during a run (`ValidatorContext`).
 */
module Core {
  import opened Values

  /** The value held by a `ValidationError` at one moment. */
  datatype ErrorRecord = ErrorRecord(fieldName: Option<string>, target: Value, lineNumber: int, errorMsg: Option<string>)

  /** What `ValidationError.create(msg)` builds: only the message is set. */
  function CreatedRecord(msg: Option<string>): (r: ErrorRecord)
    ensures r.errorMsg == msg
    ensures r.fieldName == None && r.target == Null && r.lineNumber == 0
  {
    ErrorRecord(None, Null, 0, msg)
  }

  /** What the engine's builder call builds: field name, target and line number, no message yet. */
  function PlaceholderRecord(fieldName: Option<string>, target: Value, lineNumber: int): (r: ErrorRecord)
    ensures r.errorMsg == None
    ensures r.fieldName == fieldName && r.target == target && r.lineNumber == lineNumber
  {
    ErrorRecord(fieldName, target, lineNumber, None)
  }

  /** A mutable error record; validators fill in `errorMsg` before recording it. */
  class ValidationError {
    var fieldName: Option<string>
    var target: Value
    var lineNumber: int
    var errorMsg: Option<string>

    /** The builder with fieldName, target and lineNumber set; the message stays null. */
    constructor Build(fieldName: Option<string>, target: Value, lineNumber: int)
      ensures Record() == PlaceholderRecord(fieldName, target, lineNumber)
    {
      this.fieldName := fieldName;
      this.target := target;
      this.lineNumber := lineNumber;
      this.errorMsg := None;
    }

    /** `ValidationError.create(msg)`: the builder with only the message set. */
    constructor Create(msg: Option<string>)
      ensures Record() == CreatedRecord(msg)
    {
      fieldName := None;
      target := Null;
      lineNumber := 0;
      errorMsg := msg;
    }

    function Record(): ErrorRecord
      reads this
    {
      ErrorRecord(fieldName, target, lineNumber, errorMsg)
    }

    /** The generated setter: only the message changes. */
    method SetErrorMsg(msg: Option<string>)
      modifies this`errorMsg
      ensures Record() == old(Record()).(errorMsg := msg)
    {
      errorMsg := msg;
    }
  }

  /** The value held by a `ValidationResult` at one moment. */
  datatype ResultView = ResultView(isSuccess: bool, errors: seq<ErrorRecord>, timeElapsed: int)

  /** The records behind a list of error references, in list order. */
  function RecordsOf(es: seq<ValidationError>): (rs: seq<ErrorRecord>)
    reads es
    ensures |rs| == |es|
    ensures forall k :: 0 <= k < |es| ==> rs[k] == es[k].Record()
    decreases |es|
  {
    if es == [] then [] else RecordsOf(es[..|es| - 1]) + [es[|es| - 1].Record()]
  }

  /** The accumulator of a run: success flag, errors in recording order and elapsed time. */
  class ValidationResult {
    var isSuccess: bool
    var errors: seq<ValidationError>
    var timeElapsed: int

    /** A fresh result: successful, no errors, no time measured. */
    constructor ()
      ensures isSuccess && errors == [] && timeElapsed == 0
    {
      isSuccess := true;
      errors := [];
      timeElapsed := 0;
    }

    function View(): ResultView
      reads this, errors
    {
      ResultView(isSuccess, RecordsOf(errors), timeElapsed)
    }

    /** Appends the given reference; the flag and the time are left alone. */
    method AddError(e: ValidationError)
      modifies this`errors
      ensures errors == old(errors) + [e]
    {
      errors := errors + [e];
    }

    method HasErrors() returns (b: bool)
      ensures b <==> |errors| > 0
    {
      b := errors != [];
    }

    method SetSuccess(b: bool)
      modifies this`isSuccess
      ensures isSuccess == b
    {
      isSuccess := b;
    }

    method SetTimeElapsed(t: int)
      modifies this`timeElapsed
      ensures timeElapsed == t
    {
      timeElapsed := t;
    }
  }

  /** The attribute bag: `None` until the first write allocates the map. */
  type Attributes = Option<map<Key, Value>>

  /** An attribute key; `None` is the `null` key, which a `HashMap` stores like any other. */
  type Key = Option<string>

  /** `getAttribute`: null while the bag is unallocated or empty, and for an absent key. */
  function Lookup(attrs: Attributes, key: Key): (r: Value)
    ensures attrs.Some? && key in attrs.value ==> r == attrs.value[key]
    ensures attrs.None? || key !in attrs.value ==> r == Null
  {
    if attrs.Some? && |attrs.value| > 0 && key in attrs.value then attrs.value[key] else Null
  }

  /** `setAttribute`: allocate the map on the first write, then put. */
  function Put(attrs: Attributes, key: Key, value: Value): (r: Attributes)
    ensures r.Some?
  {
    var m := if attrs.None? then map[] else attrs.value;
    Some(m[key := value])
  }

  /** An unallocated or empty bag answers null to every key. */
  lemma LookupUnallocated(attrs: Attributes, key: Key)
    requires attrs.None? || attrs.value == map[]
    ensures Lookup(attrs, key) == Null
  {
  }

  /** After a write, the key holds the written value and every other key keeps its value. */
  lemma LookupAfterPut(attrs: Attributes, key: Key, value: Value, other: Key)
    ensures Lookup(Put(attrs, key, value), key) == value
    ensures other != key ==> Lookup(Put(attrs, key, value), other) == Lookup(attrs, other)
  {
    var m := Put(attrs, key, value).value;
    assert key in m;
    if other != key && attrs.Some? && other in attrs.value {
      assert other in m;
    }
  }

  /** The per-run shared state: attributes and a reference to the result being accumulated. */
  class ValidatorContext {
    var attributes: Attributes
    var result: ValidationResult?

    /** The no-argument constructor: no attribute map, no result yet. */
    constructor ()
      ensures attributes == None && result == null
    {
      attributes := None;
      result := null;
    }

    constructor WithParts(attributes: Attributes, result: ValidationResult?)
      ensures this.attributes == attributes && this.result == result
    {
      this.attributes := attributes;
      this.result := result;
    }

    /** Records a new error that carries only the message. */
    method AddErrorMsg(msg: Option<string>)
      requires result != null
      modifies result`errors
      ensures |result.errors| == |old(result.errors)| + 1
      ensures result.errors[..|result.errors| - 1] == old(result.errors)
      ensures fresh(result.errors[|result.errors| - 1])
      ensures result.errors[|result.errors| - 1].Record() == CreatedRecord(msg)
    {
      var e := new ValidationError.Create(msg);
      result.AddError(e);
    }

    /** Appends exactly the given error to the current result. */
    method AddError(e: ValidationError)
      requires result != null
      modifies result`errors
      ensures result.errors == old(result.errors) + [e]
    {
      result.AddError(e);
    }

    /** `getAttribute(key)`: the stored value, or null when the map is not allocated yet or lacks the key. */
    function GetAttribute(key: Key): (r: Value)
      reads this
      ensures attributes.None? ==> r == Null
      ensures attributes.Some? && key in attributes.value ==> r == attributes.value[key]
      ensures attributes.Some? && key !in attributes.value ==> r == Null
    {
      Lookup(attributes, key)
    }

    method SetAttribute(key: Key, value: Value)
      modifies this`attributes
      ensures attributes == Put(old(attributes), key, value)
      ensures GetAttribute(key) == value
    {
      attributes := Put(attributes, key, value);
      LookupAfterPut(old(attributes), key, value, key);
    }

    method GetResult() returns (r: ValidationResult?)
      ensures r == result
    {
      r := result;
    }

    method SetResult(r: ValidationResult?)
      modifies this`result
      ensures result == r
    {
      result := r;
    }
  }
}
