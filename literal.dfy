/** The numeric-literal language of the lexer (lexer.py, parse_number) stated
    as a regular language, and the value a literal denotes once its suffix is
    removed (Python's `float()` on the remaining text, here exact). */
module Literal {
  import opened Helper
  import opened Decimal

  /** The lexer's `suffix` list. */
  predicate IsSuffix(c: char) {
    c == 'f' || c == 'F' || c == 'l' || c == 'L'
  }

  /** The lexer's `exponent` list. */
  predicate IsExponentMarker(c: char) {
    c == 'e' || c == 'E'
  }

  /** The lexer's `sign` list. */
  predicate IsSign(c: char) {
    c == '+' || c == '-'
  }

  /** ('.' D+ | D+ '.') D*, which is D* '.' D* with at least one digit. */
  predicate IsMantissa(m: string) {
    |m| >= 2 && exists p :: 0 <= p < |m| && m[p] == '.' && AllDigits(m[..p]) && AllDigits(m[p + 1..])
  }

  /** ('e' | 'E') (sign D | D) D*. */
  predicate IsExponent(x: string) {
    |x| >= 2 && IsExponentMarker(x[0]) &&
    ((IsSign(x[1]) && |x| >= 3 && AllDigits(x[2..])) || AllDigits(x[1..]))
  }

  /** A mantissa with an optional exponent: the text `float()` receives. */
  predicate IsFloatText(w: string) {
    exists k :: 0 <= k <= |w| && IsMantissa(w[..k]) && (k == |w| || IsExponent(w[k..]))
  }

  /** A literal: a float text, optionally followed by one suffix letter. */
  predicate IsLiteral(w: string) {
    IsFloatText(w) || (|w| >= 2 && IsSuffix(w[|w| - 1]) && IsFloatText(w[..|w| - 1]))
  }

  /** The end of the longest run of digits in `s` that starts at `j`. */
  function DigitRun(s: string, j: nat): (r: nat)
    requires j <= |s|
    ensures j <= r <= |s| && AllDigits(s[j..r])
    ensures r == |s| || !IsDigit(s[r])
    decreases |s| - j
  {
    if j < |s| && IsDigit(s[j]) then DigitRun(s, j + 1) else j
  }

  /** A run of digits that stops at a non-digit (or at the end) is the longest run. */
  lemma DigitRunIs(s: string, j: nat, e: nat)
    requires j <= e <= |s| && AllDigits(s[j..e])
    requires e == |s| || !IsDigit(s[e])
    ensures DigitRun(s, j) == e
  {
  }

  /** A digit run in a prefix of `w` is the run in `w` itself, unless it
      reaches the end of the prefix while `w` goes on with a digit. */
  lemma {:induction false} DigitRunPrefix(w: string, k: nat, j: nat)
    requires j <= k <= |w|
    requires DigitRun(w[..k], j) < k || k == |w| || !IsDigit(w[k])
    ensures DigitRun(w, j) == DigitRun(w[..k], j)
    decreases k - j
  {
    if j < k {
      assert w[..k][j] == w[j];
      if IsDigit(w[j]) {
        DigitRunPrefix(w, k, j + 1);
      }
    }
  }

  /** In a mantissa the digit runs stop at the point and at the end. */
  lemma MantissaRuns(m: string)
    requires IsMantissa(m)
    ensures DigitRun(m, 0) < |m| && m[DigitRun(m, 0)] == '.'
    ensures DigitRun(m, DigitRun(m, 0) + 1) == |m|
  {
    var p :| 0 <= p < |m| && m[p] == '.' && AllDigits(m[..p]) && AllDigits(m[p + 1..]);
    assert m[..p] == m[0..p] && m[p + 1..] == m[p + 1..|m|];
    DigitRunIs(m, 0, p);
    DigitRunIs(m, p + 1, |m|);
  }

  /** In a float text the first non-digit is the point, and the digit run
      after it ends the mantissa. */
  lemma FloatTextShape(w: string)
    requires IsFloatText(w)
    ensures DigitRun(w, 0) < |w| && w[DigitRun(w, 0)] == '.'
    ensures var k := DigitRun(w, DigitRun(w, 0) + 1);
            2 <= k && IsMantissa(w[..k]) && (k == |w| || IsExponent(w[k..]))
  {
    var k :| 0 <= k <= |w| && IsMantissa(w[..k]) && (k == |w| || IsExponent(w[k..]));
    if k < |w| {
      assert w[k..][0] == w[k];
    }
    PrefixRuns(w, k);
  }

  /** The digit runs of a mantissa that is a prefix of `w` are those of `w`
      when no digit follows the prefix. */
  lemma PrefixRuns(w: string, k: nat)
    requires k <= |w| && IsMantissa(w[..k]) && (k == |w| || !IsDigit(w[k]))
    ensures DigitRun(w, 0) < k && w[DigitRun(w, 0)] == '.'
    ensures DigitRun(w, DigitRun(w, 0) + 1) == k
  {
    var m := w[..k];
    MantissaRuns(m);
    var p := DigitRun(m, 0);
    assert m[p] == w[p];
    DigitRunPrefix(w, k, 0);
    DigitRunPrefix(w, k, p + 1);
  }


  /** The value of integer digits `whole`, a point, and fraction digits `fraction`. */
  function MantissaValue(whole: string, fraction: string): (r: real)
    requires AllDigits(whole) && AllDigits(fraction)
    ensures r >= 0.0
  {
    var scale := Pow10(|fraction|);
    (DigitsValue(whole) * scale + DigitsValue(fraction)) as real / scale as real
  }

  /** `m` times ten to the power `e` (a division when `e` is negative). */
  function Scale(m: real, e: int): (r: real)
    requires m >= 0.0
    ensures r >= 0.0
  {
    if e >= 0 then m * Pow10(e) as real else m / Pow10(-e) as real
  }

  /** Scaling by a non-negative power multiplies, by a negative one divides. */
  lemma ScaleByPower(v: real, n: nat)
    requires v >= 0.0
    ensures Scale(v, n) == v * Pow10(n) as real
    ensures Scale(v, -(n as int)) == v / Pow10(n) as real
  {
  }

  /** The value `float()` gives a float text, computed exactly:
      (integer digits . fraction digits) times ten to the exponent. */
  function FloatValue(w: string): (r: real)
    requires IsFloatText(w)
    ensures r >= 0.0
  {
    FloatTextShape(w);
    var p := DigitRun(w, 0);
    var k := DigitRun(w, p + 1);
    var mantissa := MantissaValue(w[..p], w[p + 1..k]);
    if k == |w| then mantissa
    else
      Scale(mantissa, ExponentValue(w[k..]))
  }

  /** A float text ends in a digit or the point, never in a suffix letter,
      so a literal has at most one suffix. */
  lemma FloatTextEnd(w: string)
    requires IsFloatText(w)
    ensures |w| >= 2 && (IsDigit(w[|w| - 1]) || w[|w| - 1] == '.')
  {
    var k :| 0 <= k <= |w| && IsMantissa(w[..k]) && (k == |w| || IsExponent(w[k..]));
    if k == |w| {
      assert w[..k] == w;
      MantissaEnd(w);
    } else {
      var x := w[k..];
      ExponentEnd(x);
      assert x[|x| - 1] == w[|w| - 1];
    }
  }

  lemma MantissaEnd(m: string)
    requires IsMantissa(m)
    ensures IsDigit(m[|m| - 1]) || m[|m| - 1] == '.'
  {
    var p :| 0 <= p < |m| && m[p] == '.' && AllDigits(m[..p]) && AllDigits(m[p + 1..]);
    if p + 1 < |m| {
      assert m[p + 1..][|m| - p - 2] == m[|m| - 1];
    }
  }


  /** An exponent part ends in a digit. */
  lemma ExponentEnd(x: string)
    requires IsExponent(x)
    ensures IsDigit(x[|x| - 1])
  {
    if IsSign(x[1]) && |x| >= 3 && AllDigits(x[2..]) {
      assert x[2..][|x| - 3] == x[|x| - 1];
    } else {
      assert x[1..][|x| - 2] == x[|x| - 1];
    }
  }

  /** "n." is a float text whose value is n. */
  lemma IntegerLiteralValue(n: nat)
    ensures IsFloatText(NatToString(n) + ".")
    ensures FloatValue(NatToString(n) + ".") == n as real
  {
    NatToStringCanonical(n);
    PointAfterDigits(NatToString(n));
  }

  /** Digits and a point: a float text whose value is the digits' value. */
  lemma PointAfterDigits(s: string)
    requires |s| >= 1 && AllDigits(s)
    ensures IsFloatText(s + ".") && FloatValue(s + ".") == DigitsValue(s) as real
  {
    var w := s + ".";
    assert IsFloatText(w) by {
      assert w[..|s|] == s && w[|s| + 1..] == [];
      assert w[..|w|] == w && w[|s|] == '.';
      assert IsMantissa(w[..|w|]);
    }
    assert DigitRun(w, 0) == |s| && DigitRun(w, |s| + 1) == |w| by {
      assert w[0..|s|] == s && w[|s| + 1..|w|] == [];
      DigitRunIs(w, 0, |s|);
      DigitRunIs(w, |s| + 1, |w|);
    }
    assert w[..|s|] == s && w[|s| + 1..|w|] == [];
    assert FloatValue(w) == MantissaValue(s, []);
    NoFraction(s);
  }

  /** A mantissa without fraction digits is worth its whole digits. */
  lemma NoFraction(s: string)
    requires AllDigits(s)
    ensures MantissaValue(s, []) == DigitsValue(s) as real
  {
    assert Pow10(0) == 1 && DigitsValue([]) == 0;
  }



  /** "e" or "e-" before a numeral is an exponent whose value is the
      numeral's, negated after the minus sign. */
  lemma MarkedNumeral(t: string, negative: bool)
    requires IsCanonical(t)
    ensures var x := (if negative then "e-" else "e") + t;
            IsExponent(x) && ExponentValue(x) == if negative then -(DigitsValue(t) as int) else DigitsValue(t)
  {
    var x := (if negative then "e-" else "e") + t;
    if negative {
      assert x[2..] == t && x[1] == '-';
    } else {
      assert x[1..] == t && x[1] == t[0] && IsDigit(t[0]);
    }
  }

  /** An exponent "e" followed by n scales the mantissa by ten to the n
      (`Scale`, which ScaleByPower spells out as a multiplication). */
  lemma ExponentScales(m: string, n: nat)
    requires IsMantissa(m)
    ensures IsFloatText(m) && IsFloatText(m + "e" + NatToString(n))
    ensures FloatValue(m + "e" + NatToString(n)) == Scale(FloatValue(m), n)
  {
    var t := NatToString(n);
    var x := "e" + t;
    assert m + "e" + t == m + x;
    NatToStringCanonical(n);
    MarkedNumeral(t, false);
    ScaledMantissa(m, x);
  }

  /** An exponent "e-" followed by n divides the mantissa by ten to the n. */
  lemma NegativeExponentScales(m: string, n: nat)
    requires IsMantissa(m)
    ensures IsFloatText(m) && IsFloatText(m + "e-" + NatToString(n))
    ensures FloatValue(m + "e-" + NatToString(n)) == FloatValue(m) / Pow10(n) as real
  {
    var t := NatToString(n);
    var x := "e-" + t;
    assert m + "e-" + t == m + x;
    assert IsFloatText(m) && IsFloatText(m + x) && FloatValue(m + x) == Scale(FloatValue(m), -(n as int)) by {
      NatToStringCanonical(n);
      MarkedNumeral(t, true);
      ScaledMantissa(m, x);
    }
    ScaleByPower(FloatValue(m), n);
  }

  /** A mantissa followed by an exponent: the value is the mantissa's, scaled. */
  lemma ScaledMantissa(m: string, x: string)
    requires IsMantissa(m) && IsExponent(x)
    ensures IsFloatText(m) && IsFloatText(m + x)
    ensures FloatValue(m + x) == Scale(FloatValue(m), ExponentValue(x))
  {
    var w := m + x;
    assert m[..|m|] == m;
    assert IsFloatText(m);
    assert w[..|m|] == m && w[|m|..] == x;
    assert IsFloatText(w);
    MantissaRuns(m);
    var p := DigitRun(m, 0);
    assert m[0..p] == w[0..p] && m[p + 1..|m|] == w[p + 1..|m|];
    DigitRunIs(w, 0, p);
    DigitRunIs(w, p + 1, |m|);
    assert m[..p] == w[..p];
    var mv := MantissaValue(m[..p], m[p + 1..|m|]);
    assert FloatValue(m) == mv;
    assert FloatValue(w) == Scale(mv, ExponentValue(x));
  }

  /** The power of ten an exponent part denotes. */
  function ExponentValue(x: string): int
    requires IsExponent(x)
  {
    assert x[1..][0] == x[1];
    if x[1] == '-' then -(DigitsValue(x[2..]) as int)
    else if x[1] == '+' then DigitsValue(x[2..])
    else DigitsValue(x[1..])
  }
}
