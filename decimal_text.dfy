/**
 * Swift's `Double(_: String)` on decimal text, as the widget applies it to
 * the Binance ticker fields and to kline values. The text is handed to
 * `strtod` as a C string, so it ends at its first NUL, and all of what is
 * left must be an optional sign, digits with an optional fraction, and an
 * optional exponent. Values are exact reals.
 *
 * The parser reads one text by position rather than by slicing it; what a
 * run of digits is worth is stated by `Value` on strings and connected to
 * the positions by `ValueAtSlice`.
 */
module DecimalText {
  import opened Wrappers

  predicate IsDigit(c: char) {
    '0' <= c <= '9'
  }

  predicate AllDigits(s: string) {
    forall i | 0 <= i < |s| :: IsDigit(s[i])
  }

  /** The value of a decimal digit (the parser applies it to digits only). */
  function DigitValue(c: char): nat {
    if IsDigit(c) then c as int - '0' as int else 0
  }

  /** The number a run of decimal digits denotes. */
  function Value(ds: string): nat {
    if ds == [] then 0 else Value(ds[..|ds| - 1]) * 10 + DigitValue(ds[|ds| - 1])
  }

  function Pow10(n: nat): (p: nat)
    ensures p >= 1
  {
    if n == 0 then 1 else 10 * Pow10(n - 1)
  }

  /** The number the digits `s[a..b]` denote, read in place. */
  function ValueAt(s: string, a: nat, b: nat): nat
    requires a <= b <= |s|
    decreases b - a
  {
    if b == a then 0 else ValueAt(s, a, b - 1) * 10 + DigitValue(s[b - 1])
  }

  /** Where the run of digits that starts at position `i` of `s` ends. */
  function DigitEnd(s: string, i: nat): (n: nat)
    requires i <= |s|
    ensures i <= n <= |s|
    ensures n < |s| ==> !IsDigit(s[n])
    decreases |s| - i
  {
    if i == |s| || !IsDigit(s[i]) then i else DigitEnd(s, i + 1)
  }

  /** `x * 10^e` for a decimal exponent of either sign, one power of ten at a time. */
  function Scale(x: real, e: int): real
    decreases if e >= 0 then e else -e
  {
    if e == 0 then x
    else if e > 0 then Scale(x, e - 1) * 10.0
    else Scale(x, e + 1) / 10.0
  }

  /** An exponent from position `p` (just after `e` or `E`): an optional sign and at least one digit, to the end of the text. */
  function ParseExponent(s: string, p: nat): Option<int>
    requires p <= |s|
  {
    var q := if p < |s| && (s[p] == '-' || s[p] == '+') then p + 1 else p;
    if q < |s| && DigitEnd(s, q) == |s| then
      Some(if s[p] == '-' then -(ValueAt(s, q, |s|) as int) else ValueAt(s, q, |s|))
    else None
  }

  /** The number `whole.fraction`, with the whole digits at `s[..w]` and the fraction digits at `s[f..e]`. */
  function Mantissa(s: string, w: nat, f: nat, e: nat): real
    requires w <= f <= e <= |s|
  {
    ValueAt(s, 0, w) as real + ValueAt(s, f, e) as real / Pow10(e - f) as real
  }

  /** Unsigned decimal text: digits, an optional `.` and digits (at least one digit in all), an optional exponent. */
  function ParseUnsigned(s: string): Option<real>
  {
    var w := DigitEnd(s, 0);
    if w < |s| && s[w] == '.' then Finish(s, w, w + 1, DigitEnd(s, w + 1))
    else Finish(s, w, w, w)
  }

  /** What follows the digits, from position `e`: nothing, or an exponent; anything else makes the text no number. */
  function Finish(s: string, w: nat, f: nat, e: nat): Option<real>
    requires w <= f <= e <= |s|
  {
    if w == 0 && f == e then None
    else if e == |s| then Some(Mantissa(s, w, f, e))
    else if s[e] == 'e' || s[e] == 'E' then
      match ParseExponent(s, e + 1)
      case None => None
      case Some(x) => Some(Scale(Mantissa(s, w, f, e), x))
    else None
  }

  /** The decimal grammar over a whole text: `None` unless all of it is a decimal number. */
  function ParseDecimal(s: string): Option<real>
  {
    if |s| > 0 && s[0] == '-' then Negated(ParseUnsigned(s[1..]))
    else if |s| > 0 && s[0] == '+' then ParseUnsigned(s[1..])
    else ParseUnsigned(s)
  }

  function Negated(r: Option<real>): Option<real> {
    match r
    case None => None
    case Some(x) => Some(-x)
  }

  predicate NoNul(s: string) {
    forall k | 0 <= k < |s| :: s[k] != '\0'
  }

  /** The text up to its first NUL: all that a C string made from `s` holds. */
  function UpToNul(s: string): (r: string)
    ensures |r| <= |s| && r == s[..|r|] && NoNul(r)
    ensures |r| < |s| ==> s[|r|] == '\0'
  {
    if s == [] || s[0] == '\0' then []
    else
      var r := [s[0]] + UpToNul(s[1..]);
      assert r[1..] == UpToNul(s[1..]);
      r
  }

  /**
   * `Double(s)`: `nil` (`None`) unless the text up to its first NUL is a
   * decimal number. A text that starts with NUL is empty as a C string and
   * so is no number.
   */
  function ParseDouble(s: string): Option<real>
  {
    ParseDecimal(UpToNul(s))
  }

  /** Text without NUL is read whole. */
  lemma NoNulParse(s: string)
    requires NoNul(s)
    ensures ParseDouble(s) == ParseDecimal(s)
  {
    var r := UpToNul(s);
    assert |r| == |s|;
    assert r == s[..|s|] == s;
  }

  lemma NoNulConcat(a: string, b: string)
    requires NoNul(a) && NoNul(b)
    ensures NoNul(a + b)
  {
    assert forall k | 0 <= k < |a + b| :: (a + b)[k] == if k < |a| then a[k] else b[k - |a|];
  }

  /** A NUL ends the number: `Double("5\0/")` reads the `5` and never sees the `/`. */
  lemma NulEndsText(s: string, t: string)
    requires NoNul(s)
    ensures ParseDouble(s + "\0" + t) == ParseDecimal(s)
  {
    var c := s + "\0" + t;
    var r := UpToNul(c);
    assert c[|s|] == '\0';
    assert forall k | 0 <= k < |s| :: c[k] == s[k];
    assert |r| == |s|;
    assert r == c[..|s|] == s;
  }

  // ---------------------------------------------------------------------------
  // Runs of digits

  /** A run stops at the first position that is not a digit. */
  lemma {:induction false} DigitEndStops(s: string, i: nat, k: nat)
    requires i <= k < |s| && !IsDigit(s[k])
    ensures DigitEnd(s, i) <= k
    decreases k - i
  {
    if i < k && IsDigit(s[i]) {
      DigitEndStops(s, i + 1, k);
    }
  }

  /** Digits from `i` up to `j`, then the end or a non-digit: the run is exactly that. */
  lemma {:induction false} DigitEndIs(s: string, i: nat, j: nat)
    requires i <= j <= |s|
    requires forall k | i <= k < j :: IsDigit(s[k])
    requires j < |s| ==> !IsDigit(s[j])
    ensures DigitEnd(s, i) == j
    decreases j - i
  {
    if i < j {
      DigitEndIs(s, i + 1, j);
    }
  }

  /** Reading digits in place gives what they are worth as a text. */
  lemma {:induction false} ValueAtSlice(s: string, a: nat, b: nat)
    requires a <= b <= |s|
    ensures ValueAt(s, a, b) == Value(s[a..b])
    decreases b - a
  {
    if b > a {
      ValueAtSlice(s, a, b - 1);
      var t := s[a..b];
      assert t[..|t| - 1] == s[a..b - 1];
      assert t[|t| - 1] == s[b - 1];
    }
  }

  // ---------------------------------------------------------------------------
  // The sign

  /** The character in front of a text, and the text after it. */
  lemma AfterSign(c: char, s: string)
    ensures ([c] + s)[0] == c && ([c] + s)[1..] == s
  {
  }

  /** Text that starts with a digit is read unsigned. */
  lemma UnsignedParse(s: string)
    requires s != [] && IsDigit(s[0])
    ensures ParseDecimal(s) == ParseUnsigned(s)
  {
    assert s[0] != '-' && s[0] != '+';
  }

  /** A leading `+` changes nothing. */
  lemma PlusParse(s: string)
    ensures ParseDecimal("+" + s) == ParseUnsigned(s)
  {
    AfterSign('+', s);
  }

  /** A leading `-` negates the unsigned value. */
  lemma MinusParse(s: string)
    ensures ParseDecimal("-" + s) == if ParseUnsigned(s).Some? then Some(-ParseUnsigned(s).value) else None
  {
    AfterSign('-', s);
  }

  /** Text that reads unsigned as `x` reads as `-x` after a `-`. */
  lemma NegatedUnsigned(s: string, x: real)
    requires ParseUnsigned(s) == Some(x)
    ensures ParseDecimal("-" + s) == Some(-x)
  {
    AfterSign('-', s);
  }

  // ---------------------------------------------------------------------------
  // Decimal text of numbers, the partner of the parser

  function DigitChar(d: nat): (c: char)
    requires d < 10
    ensures IsDigit(c) && DigitValue(c) == d
  {
    ('0' as int + d) as char
  }

  /** The decimal digits of a natural number, without leading zeros. */
  function NatText(n: nat): (s: string)
    ensures s != [] && AllDigits(s)
  {
    if n < 10 then [DigitChar(n)] else NatText(n / 10) + [DigitChar(n % 10)]
  }

  lemma {:induction false} NatTextValue(n: nat)
    ensures Value(NatText(n)) == n
  {
    if n >= 10 {
      NatTextValue(n / 10);
      var s := NatText(n);
      assert s[..|s| - 1] == NatText(n / 10);
    }
  }

  /** The digits of a whole number read back, unsigned, as that number. */
  lemma UnsignedNatText(n: nat)
    ensures ParseUnsigned(NatText(n)) == Some(n as real)
  {
    var s := NatText(n);
    DigitEndIs(s, 0, |s|);
    assert ValueAt(s, 0, |s|) == n by {
      NatTextValue(n);
      ValueAtSlice(s, 0, |s|);
      assert s[0..|s|] == s;
    }
    assert ParseUnsigned(s) == Finish(s, |s|, |s|, |s|);
  }

  /** Whole numbers read back as themselves, with or without a sign. */
  lemma WholeNumberRoundTrip(n: nat)
    ensures ParseDouble(NatText(n)) == Some(n as real)
    ensures ParseDouble("-" + NatText(n)) == Some(-(n as real))
    ensures ParseDouble("+" + NatText(n)) == Some(n as real)
  {
    var s := NatText(n);
    assert ParseDecimal(s) == Some(n as real) && ParseDecimal("-" + s) == Some(-(n as real))
           && ParseDecimal("+" + s) == Some(n as real) by {
      UnsignedNatText(n);
      UnsignedParse(s);
      MinusParse(s);
      PlusParse(s);
    }
    assert NoNul(s);
    NoNulParse(s);
    NoNulConcat("-", s);
    NoNulParse("-" + s);
    NoNulConcat("+", s);
    NoNulParse("+" + s);
  }

  /** Where the parts of fixed-point text `a.b` lie: the whole digits end at the point, the fraction digits at the end. */
  lemma FixedPointRuns(a: string, b: string)
    requires AllDigits(a) && AllDigits(b)
    ensures var s := a + "." + b;
      s[|a|] == '.' && DigitEnd(s, 0) == |a| && DigitEnd(s, |a| + 1) == |s|
  {
    var s := a + "." + b;
    assert forall k | 0 <= k < |a| :: s[k] == a[k];
    assert s[|a|] == '.';
    DigitEndIs(s, 0, |a|);
    assert forall k | |a| + 1 <= k < |s| :: s[k] == b[k - |a| - 1];
    DigitEndIs(s, |a| + 1, |s|);
  }

  /** What the parts of fixed-point text `a.b` are worth, read in place. */
  lemma FixedPointDigits(a: string, b: string)
    ensures var s := a + "." + b;
      ValueAt(s, 0, |a|) == Value(a) && ValueAt(s, |a| + 1, |s|) == Value(b)
  {
    var s := a + "." + b;
    ValueAtSlice(s, 0, |a|);
    assert s[0..|a|] == a;
    ValueAtSlice(s, |a| + 1, |s|);
    assert s[|a| + 1..|s|] == b;
  }

  /** Unsigned, fixed-point text `a.b` reads as the whole part plus the fraction digits over 10^|b|. */
  lemma UnsignedFixedPoint(a: string, b: string)
    requires AllDigits(a) && AllDigits(b) && a != []
    ensures ParseUnsigned(a + "." + b) == Some(Value(a) as real + Value(b) as real / Pow10(|b|) as real)
  {
    var s := a + "." + b;
    FixedPointRuns(a, b);
    PointedRuns(s, |a|);
    FixedPointDigits(a, b);
    assert |s| - (|a| + 1) == |b|;
    assert Mantissa(s, |a|, |a| + 1, |s|) == Value(a) as real + Value(b) as real / Pow10(|b|) as real;
  }

  /** Digits, a point at `w` and digits to the end: the text is the number they make. */
  lemma PointedRuns(s: string, w: nat)
    requires 0 < w < |s| && s[w] == '.' && DigitEnd(s, 0) == w && DigitEnd(s, w + 1) == |s|
    ensures ParseUnsigned(s) == Some(Mantissa(s, w, w + 1, |s|))
  {
  }

  /**
   * Fixed-point text `a.b`, as Binance writes prices ("48.23000000"): its
   * value is the whole part plus the fraction digits over 10^|b|.
   */
  lemma FixedPointValue(a: string, b: string)
    requires a != [] && AllDigits(a) && AllDigits(b)
    ensures ParseDouble(a + "." + b) == Some(Value(a) as real + Value(b) as real / Pow10(|b|) as real)
  {
    var s := a + "." + b;
    assert ParseDecimal(s) == ParseUnsigned(s) by {
      assert s[0] == a[0];
      UnsignedParse(s);
    }
    UnsignedFixedPoint(a, b);
    FixedPointNoNul(a, b);
    NoNulParse(s);
  }

  lemma FixedPointNoNul(a: string, b: string)
    requires AllDigits(a) && AllDigits(b)
    ensures NoNul(a + "." + b)
  {
    assert NoNul(a) && NoNul(b);
    NoNulConcat(a, ".");
    NoNulConcat(a + ".", b);
  }

  /** A negative fixed-point text `-a.b`, as Binance writes falling prices, reads as the negated value. */
  lemma SignedFixedPointValue(a: string, b: string)
    requires a != [] && AllDigits(a) && AllDigits(b)
    ensures ParseDouble("-" + (a + "." + b)) == Some(-(Value(a) as real + Value(b) as real / Pow10(|b|) as real))
  {
    UnsignedFixedPoint(a, b);
    FixedPointNoNul(a, b);
    NegatedText(a + "." + b, Value(a) as real + Value(b) as real / Pow10(|b|) as real);
  }

  /** Text without NUL that reads unsigned as `x` reads as `-x` after a `-`. */
  lemma NegatedText(s: string, x: real)
    requires ParseUnsigned(s) == Some(x) && NoNul(s)
    ensures ParseDouble("-" + s) == Some(-x)
  {
    NegatedUnsigned(s, x);
    NoNulConcat("-", s);
    NoNulParse("-" + s);
  }

  /** Text without a single digit, the empty text among them, is not a number. */
  lemma NoDigitNoNumber(s: string)
    requires forall k | 0 <= k < |s| :: !IsDigit(s[k])
    ensures ParseDouble(s) == None
  {
    var r := UpToNul(s);
    assert forall k | 0 <= k < |r| :: r[k] == s[k];
    if |r| > 0 && (r[0] == '-' || r[0] == '+') {
      var t := r[1..];
      assert forall k | 0 <= k < |t| :: t[k] == r[k + 1];
      NoDigitUnsigned(t);
    } else {
      NoDigitUnsigned(r);
    }
  }

  lemma NoDigitUnsigned(s: string)
    requires forall k | 0 <= k < |s| :: !IsDigit(s[k])
    ensures ParseUnsigned(s) == None
  {
    assert DigitEnd(s, 0) == 0;
    if |s| > 0 && s[0] == '.' {
      assert DigitEnd(s, 1) == 1;
    }
  }

  predicate IsLetter(c: char) {
    'a' <= c <= 'z' || 'A' <= c <= 'Z'
  }

  /**
   * A character that no text `Double(_:)` accepts can contain before its
   * first NUL: not a digit, sign or point, and not a letter, `_`, `(` or `)`
   * either, since Swift also reads "inf", "nan(...)" and hexadecimal text.
   * NUL itself is not one: it ends the text instead.
   */
  predicate Foreign(c: char) {
    !IsDigit(c) && !IsLetter(c) && c !in {'+', '-', '.', '_', '(', ')', '\0'}
  }

  /** Text with a character that no decimal number uses, ahead of any NUL, is never a number. */
  lemma ForeignCharacterRejected(s: string, i: nat)
    requires i < |s| && Foreign(s[i]) && NoNul(s[..i])
    ensures ParseDouble(s) == None
  {
    var r := UpToNul(s);
    assert forall k | 0 <= k < i :: s[..i][k] == s[k];
    assert i < |r|;
    assert r[i] == s[i];
    if r[0] == '-' || r[0] == '+' {
      assert r[1..][i - 1] == r[i];
      UnsignedRejects(r[1..], i - 1);
    } else {
      UnsignedRejects(r, i);
    }
  }

  lemma UnsignedRejects(s: string, i: nat)
    requires i < |s| && Foreign(s[i])
    ensures ParseUnsigned(s) == None
  {
    var w := DigitEnd(s, 0);
    DigitEndStops(s, 0, i);
    if w < |s| && s[w] == '.' {
      DigitEndStops(s, w + 1, i);
      FinishRejects(s, w, w + 1, DigitEnd(s, w + 1), i);
    } else {
      FinishRejects(s, w, w, w, i);
    }
  }

  lemma FinishRejects(s: string, w: nat, f: nat, e: nat, i: nat)
    requires w <= f <= e <= i < |s| && Foreign(s[i])
    ensures Finish(s, w, f, e) == None
  {
    if e < i && (s[e] == 'e' || s[e] == 'E') {
      ExponentRejects(s, e + 1, i);
    }
  }

  lemma ExponentRejects(s: string, p: nat, i: nat)
    requires p <= i < |s| && Foreign(s[i])
    ensures ParseExponent(s, p) == None
  {
    var q := if p < |s| && (s[p] == '-' || s[p] == '+') then p + 1 else p;
    DigitEndStops(s, q, i);
  }
}
