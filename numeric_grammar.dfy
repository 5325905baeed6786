/**
 The fixed pattern of the numeric validator, `[+-]?\d+(\.\d+)?([eE][+-]?\d+)?`,
 written out twice: as the set of strings the pattern describes (`Render` of a
 well-formed `Numeral`) and as a left-to-right recogniser (`Parse`). The two are
 proved to agree, so the recogniser decides a full match of the pattern.
 */
module NumericGrammar {
  import opened Values
  import opened Format

  /** `[eE][+-]?\d+` */
  datatype Exponent = Exponent(marker: char, sign: string, digits: string)

  /** `[+-]?\d+`, an optional `\.\d+` and an optional exponent. */
  datatype Numeral = Numeral(sign: string, whole: string, fraction: Option<string>, exponent: Option<Exponent>)

  predicate IsSign(s: string)
  {
    s == "" || s == "+" || s == "-"
  }

  predicate IsDigitRun(s: string)
  {
    |s| > 0 && AllDigits(s)
  }

  ghost predicate WellFormed(n: Numeral)
  {
    && IsSign(n.sign)
    && IsDigitRun(n.whole)
    && (n.fraction.Some? ==> IsDigitRun(n.fraction.value))
    && (n.exponent.Some? ==>
          (n.exponent.value.marker == 'e' || n.exponent.value.marker == 'E')
          && IsSign(n.exponent.value.sign)
          && IsDigitRun(n.exponent.value.digits))
  }

  function FractionText(f: Option<string>): string
  {
    if f.Some? then "." + f.value else ""
  }

  function ExponentText(e: Option<Exponent>): string
  {
    if e.Some? then [e.value.marker] + e.value.sign + e.value.digits else ""
  }

  /** The text of a numeral. */
  function Render(n: Numeral): string
  {
    n.sign + n.whole + FractionText(n.fraction) + ExponentText(n.exponent)
  }

  /** The strings the numeric pattern matches in full. */
  ghost predicate InNumericLanguage(s: string)
  {
    exists n :: WellFormed(n) && Render(n) == s
  }

  /** End of the longest run of digits starting at `i`. */
  function DigitRun(s: string, i: nat): (j: nat)
    requires i <= |s|
    ensures i <= j <= |s|
    ensures AllDigits(s[i..j])
    ensures j < |s| ==> !IsDigit(s[j])
    decreases |s| - i
  {
    if i < |s| && IsDigit(s[i]) then
      var j := DigitRun(s, i + 1);
      assert s[i..j] == [s[i]] + s[i + 1..j];
      j
    else i
  }

  /** Length of an optional sign at `i`. */
  function SignLength(s: string, i: nat): (k: nat)
    ensures k <= 1
    ensures k == 1 <==> i < |s| && (s[i] == '+' || s[i] == '-')
  {
    if i < |s| && (s[i] == '+' || s[i] == '-') then 1 else 0
  }

  /** The optional `\.\d+` at `i`: `None` when a dot is not followed by a digit. */
  function ParseFraction(s: string, i: nat): (r: Option<(Option<string>, nat)>)
    requires i <= |s|
    ensures r.Some? ==> i <= r.value.1 <= |s| && FractionText(r.value.0) == s[i..r.value.1]
    ensures r.Some? && r.value.0.Some? ==> IsDigitRun(r.value.0.value)
    ensures r.Some? && r.value.0.None? ==> r.value.1 == i
  {
    if i < |s| && s[i] == '.' then
      var j := DigitRun(s, i + 1);
      if j == i + 1 then None
      else
        assert s[i..j] == [s[i]] + s[i + 1..j];
        Some((Some(s[i + 1..j]), j))
    else Some((None, i))
  }

  /** The optional exponent at `i`: `None` when a marker is not followed by a signed digit run. */
  function ParseExponent(s: string, i: nat): (r: Option<(Option<Exponent>, nat)>)
    requires i <= |s|
    ensures r.Some? ==> i <= r.value.1 <= |s| && ExponentText(r.value.0) == s[i..r.value.1]
    ensures r.Some? && r.value.0.Some? ==>
              var e := r.value.0.value;
              (e.marker == 'e' || e.marker == 'E') && IsSign(e.sign) && IsDigitRun(e.digits)
    ensures r.Some? && r.value.0.None? ==> r.value.1 == i
  {
    if i < |s| && (s[i] == 'e' || s[i] == 'E') then
      var a := SignLength(s, i + 1);
      var j := DigitRun(s, i + 1 + a);
      if j == i + 1 + a then None
      else
        MarkerSignDigits(s, i, i + 1 + a, j);
        assert a == 1 ==> s[i + 1..i + 1 + a] == [s[i + 1]];
        Some((Some(Exponent(s[i], s[i + 1..i + 1 + a], s[i + 1 + a..j])), j))
    else Some((None, i))
  }

  lemma MarkerSignDigits(s: string, i: nat, m: nat, j: nat)
    requires i + 1 <= m <= j <= |s|
    ensures [s[i]] + s[i + 1..m] + s[m..j] == s[i..j]
  {
    assert s[i..j] == [s[i]] + s[i + 1..j];
    assert s[i + 1..j] == s[i + 1..m] + s[m..j];
  }

  /** The pieces the recogniser finds make up a well-formed numeral whose text is the whole string. */
  lemma Assemble(s: string, a: nat, b: nat, c: nat, frac: Option<string>, exp: Option<Exponent>)
    requires a < b <= c <= |s|
    requires SignLength(s, 0) == a && AllDigits(s[a..b])
    requires FractionText(frac) == s[b..c] && (frac.Some? ==> IsDigitRun(frac.value))
    requires ExponentText(exp) == s[c..|s|]
    requires exp.Some? ==> (exp.value.marker == 'e' || exp.value.marker == 'E')
                           && IsSign(exp.value.sign) && IsDigitRun(exp.value.digits)
    ensures var n := Numeral(s[..a], s[a..b], frac, exp);
            WellFormed(n) && Render(n) == s
  {
    assert a == 1 ==> s[..a] == [s[0]];
    assert s == s[..a] + s[a..b] + s[b..c] + s[c..|s|];
  }

  /** The recogniser: a numeral that spans the whole string, or `None`. */
  function Parse(s: string): (r: Option<Numeral>)
    ensures r.Some? ==> WellFormed(r.value) && Render(r.value) == s
  {
    var a := SignLength(s, 0);
    var b := DigitRun(s, a);
    if b == a then None
    else match ParseFraction(s, b)
      case None => None
      case Some((frac, c)) =>
        match ParseExponent(s, c)
        case None => None
        case Some((exp, d)) =>
          if d == |s| then
            Assemble(s, a, b, c, frac, exp);
            Some(Numeral(s[..a], s[a..b], frac, exp))
          else None
  }

  predicate IsNumeric(s: string)
  {
    Parse(s).Some?
  }

  /** The end of a digit run is fixed by the first non-digit after it. */
  lemma DigitRunAt(s: string, i: nat, w: string)
    requires i + |w| <= |s| && s[i..i + |w|] == w && AllDigits(w)
    requires i + |w| < |s| ==> !IsDigit(s[i + |w|])
    ensures DigitRun(s, i) == i + |w|
  {
    var j := DigitRun(s, i);
    forall k | i <= k < i + |w| ensures IsDigit(s[k]) {
      assert s[k] == w[k - i];
    }
    forall k | i <= k < j ensures IsDigit(s[k]) {
      assert s[k] == s[i..j][k - i];
    }
  }

  /** A fraction written at `b`, and followed by a non-digit, is read back. */
  lemma FractionAt(s: string, b: nat, f: Option<string>)
    requires b + |FractionText(f)| <= |s| && s[b..b + |FractionText(f)|] == FractionText(f)
    requires f.Some? ==> IsDigitRun(f.value)
    requires f.None? && b < |s| ==> s[b] != '.'
    requires f.Some? && b + |FractionText(f)| < |s| ==> !IsDigit(s[b + |FractionText(f)|])
    ensures ParseFraction(s, b) == Some((f, b + |FractionText(f)|))
  {
    if f.Some? {
      var t := FractionText(f);
      assert s[b] == t[0];
      assert t[1..] == f.value;
      assert s[b + 1..b + |t|] == s[b..b + |t|][1..];
      DigitRunAt(s, b + 1, f.value);
    }
  }

  /** An exponent written at `c` up to the end of the string is read back. */
  lemma ExponentAt(s: string, c: nat, e: Option<Exponent>)
    requires c <= |s| && s[c..] == ExponentText(e)
    requires e.Some? ==> (e.value.marker == 'e' || e.value.marker == 'E') && IsSign(e.value.sign) && IsDigitRun(e.value.digits)
    requires e.None? ==> c == |s|
    ensures ParseExponent(s, c) == Some((e, |s|))
  {
    if e.Some? {
      var x := e.value;
      var k := |x.sign|;
      var t := ExponentText(e);
      assert t == [x.marker] + x.sign + x.digits;
      assert s[c] == t[0];
      assert s[c + 1..c + 1 + k] == s[c..][1..1 + k] == t[1..1 + k] == x.sign;
      assert s[c + 1 + k..] == s[c..][1 + k..] == t[1 + k..] == x.digits;
      assert SignLength(s, c + 1) == k by {
        if k == 0 { assert s[c + 1] == x.digits[0]; }
      }
      DigitRunAt(s, c + 1 + k, x.digits);
    }
  }

  /** The four parts of a concatenation are read back by slicing at their lengths. */
  lemma Parts(w: string, x: string, y: string, z: string)
    ensures var s := w + x + y + z;
            var a := |w|;
            var b := a + |x|;
            var c := b + |y|;
            && c + |z| == |s|
            && s[..a] == w && s[a..b] == x && s[b..c] == y && s[c..] == z
  {
    var s := w + x + y + z;
    assert s == w + (x + (y + z));
    assert s[|w|..] == x + (y + z);
    assert s[|w|..][|x|..] == y + z;
  }

  /** `Parse` once the sign, the whole part, the fraction and the exponent are each found. */
  lemma ParseBy(s: string, a: nat, b: nat, c: nat, frac: Option<string>, exp: Option<Exponent>)
    requires a < b <= |s|
    requires SignLength(s, 0) == a && DigitRun(s, a) == b
    requires ParseFraction(s, b) == Some((frac, c))
    requires ParseExponent(s, c) == Some((exp, |s|))
    ensures Parse(s) == Some(Numeral(s[..a], s[a..b], frac, exp))
  {
  }

  /** Where the parts of a rendered numeral sit, and what follows each part. */
  lemma Layout(n: Numeral, s: string, a: nat, b: nat, c: nat)
    requires WellFormed(n) && s == Render(n)
    requires a == |n.sign| && b == a + |n.whole| && c == b + |FractionText(n.fraction)|
    ensures c <= |s|
    ensures s[..a] == n.sign && s[a..b] == n.whole
    ensures s[b..c] == FractionText(n.fraction) && s[c..] == ExponentText(n.exponent)
    ensures SignLength(s, 0) == a
    ensures b < |s| ==> !IsDigit(s[b]) && (n.fraction.None? ==> s[b] != '.')
    ensures c < |s| ==> !IsDigit(s[c])
  {
    var ft := FractionText(n.fraction);
    var et := ExponentText(n.exponent);
    Parts(n.sign, n.whole, ft, et);
    if a == 0 {
      assert s[0] == s[a..b][0];
    }
    if b < |s| {
      if n.fraction.Some? { assert s[b] == s[b..c][0]; }
      else { assert s[b] == s[c..][0]; }
    }
    if c < |s| {
      assert s[c] == s[c..][0];
    }
  }

  /** Every well-formed numeral is recognised as itself. */
  lemma ParseComplete(n: Numeral)
    requires WellFormed(n)
    ensures Parse(Render(n)) == Some(n)
  {
    var s := Render(n);
    var a := |n.sign|;
    var b := a + |n.whole|;
    var c := b + |FractionText(n.fraction)|;
    Layout(n, s, a, b, c);
    DigitRunAt(s, a, n.whole);
    FractionAt(s, b, n.fraction);
    ExponentAt(s, c, n.exponent);
    ParseBy(s, a, b, c, n.fraction, n.exponent);
  }

  /** The recogniser decides membership in the pattern's language. */
  lemma NumericIffInLanguage(s: string)
    ensures IsNumeric(s) <==> InNumericLanguage(s)
  {
    if InNumericLanguage(s) {
      var n :| WellFormed(n) && Render(n) == s;
      ParseComplete(n);
    }
  }

  /** The pattern accepts an integer and a signed decimal. */
  lemma AcceptsIntegerAndDecimal()
    ensures IsNumeric("123") && IsNumeric("-12.5")
  {
    var i := Numeral("", "123", None, None);
    var d := Numeral("-", "12", Some("5"), None);
    assert Render(i) == "123";
    assert Render(d) == "-12.5";
    Accepts(i, "123");
    Accepts(d, "-12.5");
  }

  /** The pattern accepts a signed decimal with a signed exponent. */
  lemma AcceptsSignedExponent()
    ensures IsNumeric("+3.14e-2")
  {
    var n := Numeral("+", "3", Some("14"), Some(Exponent('e', "-", "2")));
    assert Render(n) == "+3.14e-2";
    Accepts(n, "+3.14e-2");
  }

  /** The pattern accepts an exponent without a fraction. */
  lemma AcceptsBareExponent()
    ensures IsNumeric("1e10")
  {
    var n := Numeral("", "1", None, Some(Exponent('e', "", "10")));
    assert Render(n) == "1e10";
    Accepts(n, "1e10");
  }

  lemma Accepts(n: Numeral, s: string)
    requires WellFormed(n) && Render(n) == s
    ensures IsNumeric(s)
  {
    ParseComplete(n);
  }

  /** A second dot is rejected. */
  lemma RejectsSecondDot()
    ensures !IsNumeric("12.3.4")
  {
    assert DigitRun("12.3.4", 0) == 2;
    assert DigitRun("12.3.4", 3) == 4;
  }

  /** A dot must have digits on both sides. */
  lemma RejectsBareDot()
    ensures !IsNumeric("1.") && !IsNumeric(".5")
  {
    assert DigitRun("1.", 2) == 2;
    assert DigitRun(".5", 0) == 0;
  }

  /** A marker must be followed by digits, and letters are no numeral. */
  lemma RejectsBareMarkerAndLetters()
    ensures !IsNumeric("1e") && !IsNumeric("abc")
  {
    assert DigitRun("1e", 0) == 1;
    assert DigitRun("1e", 2) == 2;
    assert DigitRun("abc", 0) == 0;
  }
}
