/**
 The Java values the validation engine handles as `Object`: validation targets,
 attribute values and response payloads. Only the shape that the engine's
 emptiness tests and size computations look at is kept.
 */
module Values {

  /** Java's nullable reference: `None` stands for `null`. */
  datatype Option<+T> = None | Some(value: T)

  /** A Java object as far as `ObjectUtils.isEmpty` and `ApiResult.getSize` can tell. */
  datatype Value =
    | Null
    | Str(chars: string)          // a java.lang.String
    | CharSeq(length: nat)        // any other CharSequence (a StringBuilder, say)
    | Array(length: nat)          // any Java array
    | Collection(size: nat)       // a java.util.Collection
    | Dict(size: nat)             // a java.util.Map
    | Optional(present: bool)     // a java.util.Optional
    | Other                       // any other object

  /** `ObjectUtils.isEmpty`: null, or a zero-length character sequence, array, collection or map,
      or an absent Optional. */
  predicate IsEmpty(v: Value): (b: bool)
    ensures v.Null? ==> b
    ensures v.Other? ==> !b
    ensures v.Str? ==> (b <==> v.chars == "")
  {
    match v
    case Null => true
    case Str(s) => |s| == 0
    case CharSeq(n) => n == 0
    case Array(n) => n == 0
    case Collection(n) => n == 0
    case Dict(n) => n == 0
    case Optional(p) => !p
    case Other => false
  }

  /** `StringUtils.isEmpty`: a null or zero-length string. */
  predicate IsEmptyString(s: Option<string>)
  {
    s == None || s.value == ""
  }

  /** The objects that a cast to `String` lets through: null and `String`s; any other object,
      another `CharSequence` included, makes it throw `ClassCastException`. */
  predicate IsStringTarget(v: Value)
  {
    v.Null? || v.Str?
  }

  /** The result of the cast to `String` that precedes every call of a `Validator<String>`. */
  function AsString(v: Value): (s: Option<string>)
    requires IsStringTarget(v)
    ensures s == None <==> v == Null
    ensures v.Str? ==> s == Some(v.chars)
  {
    if v.Null? then None else Some(v.chars)
  }

  /** A string target is empty in `StringUtils`' sense exactly when it is empty in `ObjectUtils`' sense. */
  lemma StringEmptinessAgrees(v: Value)
    requires IsStringTarget(v)
    ensures IsEmptyString(AsString(v)) <==> IsEmpty(v)
  {
  }
}
