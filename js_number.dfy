/** JavaScript's unary `+` on a string (the abstract operation StringToNumber),
    with numbers kept as exact reals. The one point where the double format
    shows through the location hook's `isFinite` test is overflow: a literal
    whose magnitude rounds past the largest double becomes an infinity. */
module JsNumber {
  import opened JsString
  import opened Js

  /** What `isFinite` sees: a finite value, or NaN / an infinity. */
  datatype NumResult = Finite(value: real) | NonFinite

  /** 2^1024 - 2^970, the midpoint between the largest finite double and 2^1024:
      round-to-nearest-even sends every magnitude at or above it to infinity. */
  const OverflowThreshold: int := 179769313486231580793728971405303415079934132710037826936173778980444968292764750946649017977587207096330286416692887910946555547851940402630657488671505820681908902000708383676273854845817711531764475730270069855571366959622842914819860834936475292719074168444365510704342711559699508093042880177904174497792

  /** The value of a digit character in bases up to 36, or -1 for any other character. */
  function DigitValue(c: char): int {
    if '0' <= c <= '9' then c as int - '0' as int
    else if 'a' <= c <= 'z' then c as int - 'a' as int + 10
    else if 'A' <= c <= 'Z' then c as int - 'A' as int + 10
    else -1
  }

  predicate IsDigit(c: char, radix: nat) {
    0 <= DigitValue(c) < radix
  }

  predicate AllDigits(ds: string, radix: nat) {
    forall i :: 0 <= i < |ds| ==> IsDigit(ds[i], radix)
  }

  /** The value of a digit string, most significant digit first. */
  function DigitsValue(ds: string, radix: nat): nat
    requires AllDigits(ds, radix)
  {
    if ds == [] then 0
    else DigitsValue(ds[..|ds| - 1], radix) * radix + DigitValue(ds[|ds| - 1]) as nat
  }

  /** The length of the run of decimal digits at the start of `s`. */
  function DigitRun(s: string): (n: nat)
    ensures n <= |s| && AllDigits(s[..n], 10)
    ensures n < |s| ==> !IsDigit(s[n], 10)
    decreases |s|
  {
    if |s| > 0 && IsDigit(s[0], 10) then
      var n := 1 + DigitRun(s[1..]);
      assert forall i :: 1 <= i < n ==> s[..n][i] == s[1..][..n - 1][i - 1];
      n
    else 0
  }

  function Pow10(n: nat): (p: nat)
    ensures p >= 1
  {
    if n == 0 then 1 else 10 * Pow10(n - 1)
  }

  /** 10 to an integer power, as a real. */
  function Scale(e: int): real {
    if e >= 0 then Pow10(e) as real else 1.0 / Pow10(-e) as real
  }

  /** Rounding of an exact value to a double, as far as finiteness goes. */
  function Rounded(v: real): (r: NumResult)
    ensures r.Finite? <==> -(OverflowThreshold as real) < v < OverflowThreshold as real
    ensures r.Finite? ==> r.value == v
  {
    if -(OverflowThreshold as real) < v < OverflowThreshold as real then Finite(v) else NonFinite
  }

  function Negate(r: NumResult): NumResult {
    match r
    case Finite(v) => Finite(-v)
    case NonFinite => NonFinite
  }

  /** An optionally signed, non-empty run of decimal digits: the exponent of a decimal literal. */
  function SignedInteger(s: string): (r: Option<int>)
  {
    var sign := if |s| > 0 && s[0] == '-' then -1 else 1;
    var ds := if |s| > 0 && (s[0] == '-' || s[0] == '+') then s[1..] else s;
    if ds != [] && AllDigits(ds, 10) then Some(sign * DigitsValue(ds, 10)) else None
  }

  /** The exponent part of a decimal literal: empty, or `e`/`E` and a signed integer. */
  function ExponentPart(s: string): Option<int> {
    if s == [] then Some(0)
    else if s[0] == 'e' || s[0] == 'E' then SignedInteger(s[1..])
    else None
  }

  /** The exact value of an unsigned decimal literal (`12`, `12.`, `.5`, `1.5e-3`),
      or None when `s` is not one: at least one digit before or after the point. */
  function DecimalLiteral(s: string): Option<real> {
    var i := DigitRun(s);
    AfterWholeDigits(s[..i], s[i..])
  }

  /** The rest of a decimal literal once its whole digits are read. */
  function AfterWholeDigits(whole: string, rest: string): Option<real>
    requires AllDigits(whole, 10)
  {
    if rest != [] && rest[0] == '.' then
      var j := DigitRun(rest[1..]);
      DecimalValue(whole, rest[1..][..j], rest[1..][j..])
    else DecimalValue(whole, [], rest)
  }

  /** The value of whole digits, fraction digits and an exponent part. */
  function DecimalValue(whole: string, fraction: string, exponent: string): Option<real>
    requires AllDigits(whole, 10) && AllDigits(fraction, 10)
  {
    if |whole| + |fraction| == 0 then None
    else
      match ExponentPart(exponent)
      case None => None
      case Some(e) =>
        Some((DigitsValue(whole, 10) as real + DigitsValue(fraction, 10) as real / Pow10(|fraction|) as real) * Scale(e))
  }

  /** An unsigned decimal literal, or `Infinity`. `Infinity` is no decimal
      literal, so it falls to the non-finite case with NaN: the two differ only
      in what `isFinite` does not look at. */
  function UnsignedDecimal(s: string): NumResult {
    match DecimalLiteral(s)
    case None => NonFinite
    case Some(v) => Rounded(v)
  }

  /** A `0x`, `0o` or `0b` literal after its prefix: a non-empty digit run in that radix. */
  function RadixLiteral(ds: string, radix: nat): NumResult {
    if ds != [] && AllDigits(ds, radix) then Rounded(DigitsValue(ds, radix) as real) else NonFinite
  }

  /** `+s`: surrounding whitespace is ignored, the empty string is 0, then a
      binary, octal or hexadecimal integer, or a signed decimal literal or
      `Infinity`; anything else is NaN. */
  function ToNumber(s: string): (r: NumResult)
    ensures Trim(s) == [] ==> r == Finite(0.0)
    ensures r.Finite? ==> -(OverflowThreshold as real) < r.value < OverflowThreshold as real
  {
    var t := Trim(s);
    if t == [] then Finite(0.0)
    else if |t| >= 2 && t[0] == '0' && (t[1] == 'x' || t[1] == 'X') then RadixLiteral(t[2..], 16)
    else if |t| >= 2 && t[0] == '0' && (t[1] == 'o' || t[1] == 'O') then RadixLiteral(t[2..], 8)
    else if |t| >= 2 && t[0] == '0' && (t[1] == 'b' || t[1] == 'B') then RadixLiteral(t[2..], 2)
    else if t[0] == '-' then Negate(UnsignedDecimal(t[1..]))
    else if t[0] == '+' then UnsignedDecimal(t[1..])
    else UnsignedDecimal(t)
  }

  /** The shortest decimal text of a natural number, as `String(n)` prints it. */
  function DecimalText(n: nat): (s: string)
    ensures s != [] && AllDigits(s, 10)
    ensures s[0] == '0' ==> n == 0
  {
    var d := ['0' + (n % 10) as char];
    if n < 10 then d else DecimalText(n / 10) + d
  }

  /** Reading back the digits of `DecimalText(n)` gives `n`. */
  lemma {:induction false} DecimalTextValue(n: nat)
    ensures DigitsValue(DecimalText(n), 10) == n
  {
    var s := DecimalText(n);
    if n >= 10 {
      DecimalTextValue(n / 10);
      assert s[..|s| - 1] == DecimalText(n / 10);
    }
  }

  lemma DigitRunOfDigits(s: string)
    requires AllDigits(s, 10)
    ensures DigitRun(s) == |s|
  {
  }

  /** Digits with nothing after them: no fraction and no exponent. */
  lemma DigitsAlone(w: string)
    requires w != [] && AllDigits(w, 10)
    ensures AfterWholeDigits(w, []) == Some(DigitsValue(w, 10) as real)
  {
    NoExponent(w, []);
    assert DigitsValue([], 10) == 0;
    assert Pow10(0) == 1;
  }

  /** A non-empty string of decimal digits is a decimal literal of its digits' value. */
  lemma DecimalLiteralOfDigits(s: string)
    requires s != [] && AllDigits(s, 10)
    ensures DecimalLiteral(s) == Some(DigitsValue(s, 10) as real)
  {
    DigitRunOfDigits(s);
    assert s[..|s|] == s;
    assert s[|s|..] == [];
    DigitsAlone(s);
  }

  lemma TrimOfDigits(s: string)
    requires s != [] && AllDigits(s, 10)
    ensures Trim(s) == s
  {
    assert !IsWhitespace(s[0]) && !IsWhitespace(s[|s| - 1]) by {
      assert IsDigit(s[0], 10) && IsDigit(s[|s| - 1], 10);
    }
    assert s == [] + s + [];
    TrimUnique(s, [], s, []);
  }

  /** `-` and a non-empty digit run has no whitespace to trim. */
  lemma NegatedDigitsTrimmed(s: string)
    requires s != [] && AllDigits(s, 10)
    ensures Trim("-" + s) == "-" + s
  {
    var m := "-" + s;
    assert m[|m| - 1] == s[|s| - 1] && IsDigit(s[|s| - 1], 10);
    assert IsTrimmed(m);
    assert m == [] + m + [];
    TrimUnique(m, [], m, []);
  }

  /** The unsigned value of a non-empty digit run. */
  lemma UnsignedDigits(s: string)
    requires s != [] && AllDigits(s, 10)
    ensures UnsignedDecimal(s) == Rounded(DigitsValue(s, 10) as real)
  {
    DecimalLiteralOfDigits(s);
  }

  /** Unary `+` reads back the decimal text of any natural number below the
      overflow threshold. */
  lemma ToNumberDecimalText(n: nat)
    requires n < OverflowThreshold
    ensures ToNumber(DecimalText(n)) == Finite(n as real)
  {
    var s := DecimalText(n);
    TrimOfDigits(s);
    assert IsDigit(s[0], 10) && (|s| >= 2 ==> IsDigit(s[1], 10));
    ToNumberUnsigned(s);
    UnsignedDigits(s);
    DecimalTextValue(n);
  }

  /** ... and of its negation. */
  lemma ToNumberNegativeDecimalText(n: nat)
    requires n < OverflowThreshold
    ensures ToNumber("-" + DecimalText(n)) == Finite(-(n as real))
  {
    var s := DecimalText(n);
    NegatedDigitsTrimmed(s);
    ToNumberNegative(s);
    UnsignedDigits(s);
    DecimalTextValue(n);
  }

  /** Unary `+` ignores whitespace around its operand. */
  lemma ToNumberPadded(w1: string, s: string, w2: string)
    requires AllWhitespace(w1) && AllWhitespace(w2)
    ensures ToNumber(w1 + s + w2) == ToNumber(s)
  {
    TrimPadded(w1, s, w2);
  }

  /** Text whose first non-blank character cannot begin a numeric literal is NaN. */
  lemma ToNumberNonNumeric(s: string)
    requires Trim(s) != []
    requires var c := Trim(s)[0]; !IsDigit(c, 10) && c !in ".+-"
    ensures ToNumber(s) == NonFinite
  {
    var t := Trim(s);
    assert DigitRun(t) == 0;
  }

  lemma DigitRunUnique(s: string, n: nat)
    requires n <= |s| && AllDigits(s[..n], 10)
    requires n < |s| ==> !IsDigit(s[n], 10)
    ensures DigitRun(s) == n
  {
    var m := DigitRun(s);
    assert forall i :: 0 <= i < n ==> IsDigit(s[i], 10) by {
      assert forall i :: 0 <= i < n ==> s[..n][i] == s[i];
    }
    assert forall i :: 0 <= i < m ==> IsDigit(s[i], 10) by {
      assert forall i :: 0 <= i < m ==> s[..m][i] == s[i];
    }
  }

  lemma WholeThenPoint(w: string, f: string)
    requires AllDigits(w, 10)
    ensures DecimalLiteral(w + "." + f) == AfterWholeDigits(w, "." + f)
  {
    var s := w + "." + f;
    assert s[..|w|] == w;
    assert s[|w|] == '.';
    DigitRunUnique(s, |w|);
    assert s[|w|..] == "." + f;
  }

  lemma PointThenDigits(w: string, f: string)
    requires AllDigits(w, 10) && AllDigits(f, 10)
    ensures AfterWholeDigits(w, "." + f) == DecimalValue(w, f, [])
  {
    var rest := "." + f;
    assert rest[1..] == f;
    DigitRunOfDigits(f);
    assert f[..|f|] == f && f[|f|..] == [];
  }

  lemma NoExponent(w: string, f: string)
    requires AllDigits(w, 10) && AllDigits(f, 10) && |w| + |f| > 0
    ensures DecimalValue(w, f, []) ==
      Some(DigitsValue(w, 10) as real + DigitsValue(f, 10) as real / Pow10(|f|) as real)
  {
    assert ExponentPart([]) == Some(0);
    assert Scale(0) == 1.0;
  }

  /** A literal with a decimal point has the value of its whole and fraction digits. */
  lemma DecimalLiteralWithPoint(w: string, f: string)
    requires AllDigits(w, 10) && AllDigits(f, 10) && |w| + |f| > 0
    ensures DecimalLiteral(w + "." + f) ==
      Some(DigitsValue(w, 10) as real + DigitsValue(f, 10) as real / Pow10(|f|) as real)
  {
    WholeThenPoint(w, f);
    PointThenDigits(w, f);
    NoExponent(w, f);
  }

  /** Unary `+` on trimmed text starting with a digit and no radix prefix is its decimal value. */
  lemma ToNumberUnsigned(t: string)
    requires t != [] && Trim(t) == t && IsDigit(t[0], 10)
    requires |t| >= 2 ==> IsDigit(t[1], 10) || t[1] == '.'
    ensures ToNumber(t) == UnsignedDecimal(t)
  {
    assert '0' <= t[0] <= '9';
    assert |t| >= 2 ==> '0' <= t[1] <= '9' || t[1] == '.';
  }

  /** Unary `+` on `-` and trimmed text negates the decimal value. */
  lemma ToNumberNegative(t: string)
    requires Trim("-" + t) == "-" + t
    ensures ToNumber("-" + t) == Negate(UnsignedDecimal(t))
  {
    assert ("-" + t)[1..] == t;
  }

  /** `w.f` and `-w.f` have no whitespace to trim. */
  lemma PointLiteralTrimmed(w: string, f: string)
    requires w != [] && AllDigits(w, 10) && AllDigits(f, 10)
    ensures Trim(w + "." + f) == w + "." + f
    ensures Trim("-" + (w + "." + f)) == "-" + (w + "." + f)
  {
    var s := w + "." + f;
    assert s[0] == w[0] && IsDigit(s[0], 10);
    assert IsTrimmed(s) by {
      assert s[|s| - 1] == '.' || IsDigit(s[|s| - 1], 10);
    }
    assert s == [] + s + [];
    TrimUnique(s, [], s, []);
    var m := "-" + s;
    assert m[|m| - 1] == s[|s| - 1];
    assert IsTrimmed(m);
    assert m == [] + m + [];
    TrimUnique(m, [], m, []);
  }

  /** `w.f` starts with a digit followed by a digit or the point. */
  lemma PointLiteralStart(w: string, f: string)
    requires w != [] && AllDigits(w, 10)
    ensures var s := w + "." + f;
      IsDigit(s[0], 10) && (IsDigit(s[1], 10) || s[1] == '.')
  {
    var s := w + "." + f;
    assert s[0] == w[0];
    if |w| >= 2 {
      assert s[1] == w[1];
    } else {
      assert s[1] == '.';
    }
  }

  lemma UnsignedDecimalOf(s: string, v: real)
    requires DecimalLiteral(s) == Some(v)
    ensures UnsignedDecimal(s) == Rounded(v)
  {
  }

  /** The unsigned value of `w.f` as a literal of its own. */
  lemma UnsignedPointLiteral(w: string, f: string)
    requires w != [] && AllDigits(w, 10) && AllDigits(f, 10)
    ensures UnsignedDecimal(w + "." + f) ==
      Rounded(DigitsValue(w, 10) as real + DigitsValue(f, 10) as real / Pow10(|f|) as real)
  {
    DecimalLiteralWithPoint(w, f);
    UnsignedDecimalOf(w + "." + f, DigitsValue(w, 10) as real + DigitsValue(f, 10) as real / Pow10(|f|) as real);
  }

  /** Unary `+` on `w.f` for a non-empty digit run `w` and a digit run `f`. */
  lemma ToNumberPointLiteral(w: string, f: string)
    requires w != [] && AllDigits(w, 10) && AllDigits(f, 10)
    ensures ToNumber(w + "." + f) ==
      Rounded(DigitsValue(w, 10) as real + DigitsValue(f, 10) as real / Pow10(|f|) as real)
  {
    PointLiteralTrimmed(w, f);
    PointLiteralStart(w, f);
    ToNumberUnsigned(w + "." + f);
    UnsignedPointLiteral(w, f);
  }

  /** ... and on `-w.f`. */
  lemma ToNumberNegativePointLiteral(w: string, f: string)
    requires w != [] && AllDigits(w, 10) && AllDigits(f, 10)
    ensures ToNumber("-" + (w + "." + f)) ==
      Negate(Rounded(DigitsValue(w, 10) as real + DigitsValue(f, 10) as real / Pow10(|f|) as real))
  {
    PointLiteralTrimmed(w, f);
    UnsignedPointLiteral(w, f);
    ToNumberNegative(w + "." + f);
  }

  /** Unary `+` depends only on the trimmed text. */
  lemma ToNumberOfTrimmed(s: string)
    ensures ToNumber(Trim(s)) == ToNumber(s)
  {
    TrimIdempotent(s);
  }

  lemma TwoDigits(w: string)
    requires |w| == 2 && AllDigits(w, 10)
    ensures DigitsValue(w, 10) == DigitValue(w[0]) * 10 + DigitValue(w[1])
  {
    var h := w[..1];
    assert w[..|w| - 1] == h && h[..|h| - 1] == [] && h[|h| - 1] == w[0];
    assert DigitsValue(h, 10) == DigitValue(w[0]);
  }

  /** Worked example: the latitude part "34.05" of a location string. */
  lemma PositiveLatitude(w: string, f: string)
    requires w == "34" && f == "05"
    ensures ToNumber(w + "." + f) == Finite(34.05)
  {
    TwoDigits(w);
    TwoDigits(f);
    assert Pow10(|f|) == 100;
    ToNumberPointLiteral(w, f);
  }

  /** Worked example: the longitude part "-118.25" of a location string. */
  lemma NegativeLongitude(w: string, f: string)
    requires w == "118" && f == "25"
    ensures ToNumber("-" + (w + "." + f)) == Finite(-118.25)
  {
    TwoDigits(w[..2]);
    assert w[..|w| - 1] == w[..2];
    TwoDigits(f);
    assert Pow10(|f|) == 100;
    ToNumberNegativePointLiteral(w, f);
  }

  /** A literal of the sort a location string holds. */
  lemma ToNumberLatitudeExample()
    ensures ToNumber("34.05") == Finite(34.05)
  {
    PositiveLatitude("34", "05");
    assert "34" + "." + "05" == "34.05";
  }

  /** Worked example: the longitude literal as a whole. */
  lemma ToNumberLongitudeExample()
    ensures ToNumber("-118.25") == Finite(-118.25)
  {
    var t := "-" + ("118" + "." + "25");
    assert t == "-118.25";
    NegativeLongitude("118", "25");
  }
}
