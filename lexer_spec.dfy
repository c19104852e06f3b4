/** The lexer (lexer.py) as functions of the input string and an index: what
    each lexing step reads, where it stops, and which token it produces. The
    imperative lexer in module Lexer is proved to compute exactly these. */
module LexerSpec {
  import opened Wrappers
  import opened Helper
  import opened Decimal
  import opened Literal
  import opened Tokens

  /** What `StringInput.current()` answers at index i: the character there,
      or the end sentinel '\0' past the end. */
  function At(s: string, i: nat): char {
    if i < |s| then s[i] else '\0'
  }

  /** The cursor answers the sentinel past the end, and also at a '\0' inside
      the line: the two cannot be told apart. */
  lemma AtSentinel(s: string, i: nat)
    ensures At(s, i) == '\0' <==> i >= |s| || s[i] == '\0'
  {
  }

  /** No NUL character among s[i..j]. */
  predicate NoNul(s: string, i: nat, j: nat)
    requires i <= j <= |s|
  {
    forall k :: i <= k < j ==> s[k] != '\0'
  }

  lemma NoNulJoin(s: string, a: nat, b: nat, c: nat)
    requires a <= b <= c <= |s| && NoNul(s, a, b) && NoNul(s, b, c)
    ensures NoNul(s, a, c)
  {
  }

  /** The message `expect_char` raises (the misspelt "positition" is the source's). */
  function ExpectCharMessage(expected: char, i: nat): string {
    "Expected input '" + [expected] + "' at positition " + NatToString(i)
  }

  /** The message `expect_range` and `expect_other` raise. */
  function ExpectMessage(name: string, i: nat): string {
    "Expected " + name + " at position " + NatToString(i)
  }

  /** Both messages begin with "Expected " and end with the index in decimal. */
  lemma MessagesEndInIndex(expected: char, name: string, i: nat)
    ensures var r, d := ExpectCharMessage(expected, i), NatToString(i);
            "Expected " <= r && |d| < |r| && r[|r| - |d|..] == d
    ensures var r, d := ExpectMessage(name, i), NatToString(i);
            "Expected " <= r && |d| < |r| && r[|r| - |d|..] == d
  {
    var d := NatToString(i);
    var r := ExpectCharMessage(expected, i);
    assert r == ("Expected input '" + [expected] + "' at positition ") + d;
    var q := ExpectMessage(name, i);
    assert q == ("Expected " + name + " at position ") + d;
  }

  /** The character each single-character token is lexed from. */
  function OperatorChar(k: TokenType): Option<char> {
    match k
    case PLUS => Some('+')
    case MINUS => Some('-')
    case STAR => Some('*')
    case SLASH => Some('/')
    case LPAREN => Some('(')
    case RPAREN => Some(')')
    case _ => None
  }

  /** The dispatch table of `parse_next_token`: the token kind a character
      starts, when it is one of the six operator characters. */
  function OperatorKind(c: char): (r: Option<TokenType>)
    ensures r.Some? <==> c in "+-*/()"
    ensures r.Some? ==> OperatorChar(r.value) == Some(c)
  {
    if c == '+' then Some(PLUS)
    else if c == '-' then Some(MINUS)
    else if c == '*' then Some(STAR)
    else if c == '/' then Some(SLASH)
    else if c == '(' then Some(LPAREN)
    else if c == ')' then Some(RPAREN)
    else None
  }

  /** The two tables are inverse: each operator kind is lexed from its character. */
  lemma OperatorRoundTrip(k: TokenType)
    ensures OperatorChar(k).Some? <==> k in {PLUS, MINUS, STAR, SLASH, LPAREN, RPAREN}
    ensures OperatorChar(k).Some? ==> OperatorKind(OperatorChar(k).value) == Some(k)
  {
  }

  /** The space-skipping loop of `parse_next_token`: the first index from i on
      that does not hold ' '. Only the space character is skipped. */
  function SkipSpaces(s: string, i: nat): (j: nat)
    requires i <= |s|
    ensures i <= j <= |s| && At(s, j) != ' '
    ensures forall k :: i <= k < j ==> s[k] == ' '
    decreases |s| - i
  {
    if At(s, i) == ' ' then SkipSpaces(s, i + 1) else i
  }

  /** The recovery loop of `parse_next_token`: the first index from i on that
      holds ' ' or the end sentinel. */
  function SkipToBoundary(s: string, i: nat): (j: nat)
    requires i <= |s|
    ensures i <= j <= |s| && (At(s, j) == ' ' || At(s, j) == '\0')
    ensures forall k :: i <= k < j ==> s[k] != ' ' && s[k] != '\0'
    decreases |s| - i
  {
    if At(s, i) == ' ' || At(s, i) == '\0' then i else SkipToBoundary(s, i + 1)
  }

  /** How lexing a literal ends: it stops before index `stop`, or raises
      `message` with the cursor at index `at`. */
  datatype Scan = Accept(stop: nat) | Reject(message: string, at: nat)

  /** Every character of s[i..j] is a digit. */
  predicate DigitsIn(s: string, i: nat, j: nat)
    requires i <= j <= |s|
  {
    forall k :: i <= k < j ==> IsDigit(s[k])
  }

  /** The characters a digit run passes over are digits, so none is the end sentinel. */
  lemma DigitRunNoNul(s: string, j: nat)
    requires j <= |s|
    ensures DigitsIn(s, j, DigitRun(s, j)) && NoNul(s, j, DigitRun(s, j))
  {
    var r := DigitRun(s, j);
    forall k | j <= k < r ensures IsDigit(s[k]) && s[k] != '\0' {
      assert s[j..r][k - j] == s[k];
    }
  }

  /** A suffix letter at m is taken, anything else is left. */
  function OptionalSuffix(s: string, m: nat): (r: nat)
    requires m <= |s|
    ensures m <= r <= |s| && NoNul(s, m, r)
    ensures r == m + 1 <==> IsSuffix(At(s, m))
  {
    if IsSuffix(At(s, m)) then m + 1 else m
  }

  /** `parse_number` after the exponent marker: a sign and a digit, or a
      digit, then more digits and an optional suffix. */
  function ScanExponent(s: string, m: nat): (r: Scan)
    requires m <= |s|
    ensures r.Accept? ==> m < r.stop <= |s| && NoNul(s, m, r.stop)
    ensures r.Reject? ==> m <= r.at <= |s| && NoNul(s, m, r.at)
  {
    if IsSign(At(s, m)) then
      if IsDigit(At(s, m + 1)) then DigitRunNoNul(s, m + 2); Accept(OptionalSuffix(s, DigitRun(s, m + 2)))
      else Reject(ExpectMessage("digit", m + 1), m + 1)
    else if IsDigit(At(s, m)) then DigitRunNoNul(s, m + 1); Accept(OptionalSuffix(s, DigitRun(s, m + 1)))
    else Reject(ExpectMessage("sign or digit", m), m)
  }

  /** `parse_number` once the mantissa ends at k: a suffix, an exponent or nothing. */
  function AfterMantissa(s: string, k: nat): (r: Scan)
    requires k <= |s|
    ensures r.Accept? ==> k <= r.stop <= |s| && NoNul(s, k, r.stop)
    ensures r.Reject? ==> k <= r.at <= |s| && NoNul(s, k, r.at)
  {
    if IsSuffix(At(s, k)) then Accept(k + 1)
    else if IsExponentMarker(At(s, k)) then ScanExponent(s, k + 1)
    else Accept(k)
  }

  /** `parse_number` after the point: digits, then the rest of the literal. */
  function ScanFraction(s: string, j: nat): (r: Scan)
    requires j <= |s|
    ensures r.Accept? ==> j <= r.stop <= |s| && NoNul(s, j, r.stop)
    ensures r.Reject? ==> j <= r.at <= |s| && NoNul(s, j, r.at)
  {
    DigitRunNoNul(s, j);
    AfterMantissa(s, DigitRun(s, j))
  }

  /** `parse_number` on a literal that starts with its point: a digit must follow. */
  function ScanLeadingPoint(s: string, i: nat): (r: Scan)
    requires i < |s| && s[i] == '.'
    ensures r.Accept? ==> i + 2 <= r.stop <= |s| && NoNul(s, i, r.stop)
    ensures r.Reject? ==> i < r.at <= |s| && NoNul(s, i, r.at)
  {
    if IsDigit(At(s, i + 1)) then ScanFraction(s, i + 2)
    else Reject(ExpectMessage("digit", i + 1), i + 1)
  }

  /** `parse_number` on a literal that starts with a digit: digits, then a point. */
  function ScanWholePart(s: string, i: nat): (r: Scan)
    requires i < |s| && IsDigit(s[i])
    ensures r.Accept? ==> i + 2 <= r.stop <= |s| && NoNul(s, i, r.stop)
    ensures r.Reject? ==> i < r.at <= |s| && NoNul(s, i, r.at)
  {
    var p := DigitRun(s, i + 1);
    WholeDigitsNoNul(s, i);
    PointNoNul(s, i, p);
    ScanPoint(s, p)
  }

  /** `expect_char(input, '.')` after the whole digits, then the fraction. */
  function ScanPoint(s: string, p: nat): (r: Scan)
    requires p <= |s|
    ensures r.Accept? ==> p < r.stop <= |s| && NoNul(s, p, r.stop)
    ensures r.Reject? ==> p <= r.at <= |s| && NoNul(s, p, r.at)
  {
    if At(s, p) == '.' then FractionNoNul(s, p, p); ScanFraction(s, p + 1)
    else Reject(ExpectCharMessage('.', p), p)
  }

  lemma WholeDigitsNoNul(s: string, i: nat)
    requires i < |s| && IsDigit(s[i])
    ensures NoNul(s, i, DigitRun(s, i + 1))
  {
    DigitRunNoNul(s, i + 1);
  }

  lemma PointNoNul(s: string, i: nat, p: nat)
    requires i <= p <= |s| && NoNul(s, i, p)
    ensures ScanPoint(s, p).Accept? ==> NoNul(s, i, ScanPoint(s, p).stop)
    ensures ScanPoint(s, p).Reject? ==> NoNul(s, i, ScanPoint(s, p).at)
  {
    var r := ScanPoint(s, p);
    NoNulJoin(s, i, p, if r.Accept? then r.stop else r.at);
  }

  lemma FractionNoNul(s: string, i: nat, p: nat)
    requires i <= p < |s| && s[p] == '.' && NoNul(s, i, p)
    ensures ScanFraction(s, p + 1).Accept? ==> NoNul(s, i, ScanFraction(s, p + 1).stop)
    ensures ScanFraction(s, p + 1).Reject? ==> NoNul(s, i, ScanFraction(s, p + 1).at)
  {
    var r := ScanFraction(s, p + 1);
    assert NoNul(s, i, p + 1);
    NoNulJoin(s, i, p + 1, if r.Accept? then r.stop else r.at);
  }

  /** `parse_number` from index i: a point and a digit, or digits and a point,
      then the rest of the literal. Nothing after the literal is examined. */
  function ScanNumber(s: string, i: nat): (r: Scan)
    requires i <= |s|
    ensures r.Accept? ==> i + 2 <= r.stop <= |s| && NoNul(s, i, r.stop)
    ensures r.Reject? ==> i <= r.at <= |s| && NoNul(s, i, r.at)
    ensures r.Reject? && r.at == i ==> At(s, i) != '.' && !IsDigit(At(s, i))
  {
    if At(s, i) == '.' then ScanLeadingPoint(s, i)
    else if IsDigit(At(s, i)) then ScanWholePart(s, i)
    else Reject(ExpectMessage("digit or '.'", i), i)
  }

  /** The next token from index i (`parse_next_token`): spaces are skipped,
      then an operator character, a literal, or an error whose text is the
      raised message, after which the cursor moves on to the next space or
      to the end. Returns the token and the index after it. */
  function NextToken(s: string, i: nat): (r: (Token, nat))
    requires i <= |s|
    ensures r.0.pos == SkipSpaces(s, i) && r.0.pos <= r.1 <= |s|
    ensures r.0.kind != END && NoNul(s, i, r.1)
    ensures At(s, i) != '\0' ==> i < r.1
    ensures r.0.pos < r.1 || (r.0.kind == ERROR && At(s, r.1) == '\0')
    ensures OperatorKind(At(s, r.0.pos)).Some? ==>
              r.0 == Token(OperatorKind(At(s, r.0.pos)).value, r.0.pos) && r.1 == r.0.pos + 1
    ensures r.0.kind in {PLUS, MINUS, STAR, SLASH, LPAREN, RPAREN} ==> r.0.value == None
    ensures r.0.kind == NUMBER ==> r.0.value == Some(s[r.0.pos..r.1]) && IsLiteral(s[r.0.pos..r.1])
    ensures r.0.kind == ERROR ==>
              ScanNumber(s, r.0.pos).Reject? && r.0.value == Some(ScanNumber(s, r.0.pos).message) &&
              r.1 == SkipToBoundary(s, ScanNumber(s, r.0.pos).at)
  {
    var start := SkipSpaces(s, i);
    match OperatorKind(At(s, start))
    case Some(kind) => (Token(kind, start), start + 1)
    case None =>
      match ScanNumber(s, start)
      case Accept(e) =>
        ScanNumberSound(s, start);
        (Token(NUMBER, start, Some(s[start..e])), e)
      case Reject(message, at) => (Token(ERROR, start, Some(message)), SkipToBoundary(s, at))
  }

  /** Index of the first end sentinel from i on: where `parse` stops. */
  function FirstNul(s: string, i: nat): (n: nat)
    requires i <= |s|
    ensures i <= n <= |s| && At(s, n) == '\0' && NoNul(s, i, n)
    decreases |s| - i
  {
    if At(s, i) == '\0' then i else FirstNul(s, i + 1)
  }

  /** Skipping characters that are not the sentinel does not move the first sentinel. */
  lemma FirstNulSkip(s: string, i: nat, j: nat)
    requires i <= j <= |s| && NoNul(s, i, j)
    ensures FirstNul(s, i) == FirstNul(s, j)
  {
  }

  /** A NUMBER token whose text is a literal standing at its position in s. */
  predicate NumberAt(s: string, t: Token) {
    t.value.Some? && t.pos + |t.value.value| <= |s| &&
    s[t.pos..t.pos + |t.value.value|] == t.value.value && IsLiteral(t.value.value)
  }

  /** What `parse` promises of the list it returns for the input from i on:
      it ends with the one END token, placed at the first end sentinel; the
      tokens before it stand at strictly increasing positions before that;
      and each NUMBER carries a literal that stands at its position. */
  predicate TokenStream(s: string, i: nat, ts: seq<Token>)
    requires i <= |s|
  {
    && |ts| >= 1 && ts[|ts| - 1] == Token(END, FirstNul(s, i))
    && (forall k :: 0 <= k < |ts| - 1 ==> ts[k].kind != END)
    && (forall k :: 0 <= k < |ts| ==> i <= ts[k].pos <= FirstNul(s, i))
    && (forall a, b :: 0 <= a < b < |ts| - 1 ==> ts[a].pos < ts[b].pos)
    && (forall k :: 0 <= k < |ts| && ts[k].kind == NUMBER ==> NumberAt(s, ts[k]))
  }

  /** `parse`: the tokens from index i on, up to the first end sentinel,
      followed by an END token at the sentinel. */
  function Tokenize(s: string, i: nat): (ts: seq<Token>)
    requires i <= |s|
    ensures |ts| >= 1
    decreases |s| - i
  {
    if At(s, i) == '\0' then [Token(END, i)]
    else
      var (t, j) := NextToken(s, i);
      [t] + Tokenize(s, j)
  }

  /** A token lexed from [i, j) in front of a stream from j is a stream from i. */
  lemma StreamCons(s: string, i: nat, t: Token, j: nat, rest: seq<Token>)
    requires i <= j <= |s| && NoNul(s, i, j) && TokenStream(s, j, rest)
    requires t.kind != END && i <= t.pos <= j
    requires t.pos < j || rest == [Token(END, j)]
    requires t.kind == NUMBER ==> NumberAt(s, t)
    ensures TokenStream(s, i, [t] + rest)
  {
    FirstNulSkip(s, i, j);
    var ts := [t] + rest;
    assert ts[|ts| - 1] == rest[|rest| - 1];
    forall k | 1 <= k < |ts|
      ensures ts[k] == rest[k - 1]
    {
    }
    forall a, b | 0 <= a < b < |ts| - 1
      ensures ts[a].pos < ts[b].pos
    {
      if a == 0 {
        assert j <= rest[b - 1].pos;
      }
    }
  }

  /** The list `parse` returns has the shape it promises. */
  lemma {:induction false} TokenizeIsStream(s: string, i: nat)
    requires i <= |s|
    ensures TokenStream(s, i, Tokenize(s, i))
    decreases |s| - i
  {
    if At(s, i) != '\0' {
      var (t, j) := NextToken(s, i);
      TokenizeIsStream(s, j);
      if t.kind == NUMBER {
        assert t.value.value == s[t.pos..j];
      }
      StreamCons(s, i, t, j, Tokenize(s, j));
      assert Tokenize(s, i) == [t] + Tokenize(s, j);
    }
  }

  /** One step of `parse`'s loop: the token lexed at i, then the rest. */
  lemma TokenizeStep(s: string, i: nat)
    requires i <= |s|
    ensures At(s, i) != '\0' ==> Tokenize(s, i) == [NextToken(s, i).0] + Tokenize(s, NextToken(s, i).1)
    ensures At(s, i) == '\0' ==> Tokenize(s, i) == [Token(END, i)]
  {
  }

  /** Digits, a point at p and digits make a mantissa. */
  lemma MantissaAt(s: string, i: nat, p: nat, k: nat)
    requires i <= p < k <= |s| && i + 2 <= k
    requires s[p] == '.' && DigitsIn(s, i, p) && DigitsIn(s, p + 1, k)
    ensures IsMantissa(s[i..k])
  {
    var m := s[i..k];
    assert AllDigits(m[..p - i]) by { assert m[..p - i] == s[i..p]; }
    assert AllDigits(m[p - i + 1..]) by { assert m[p - i + 1..] == s[p + 1..k]; }
    assert m[p - i] == '.';
  }

  /** A marker, an optional sign and at least one digit make an exponent. */
  lemma ExponentAt(s: string, k: nat, d: nat)
    requires k < d <= |s| && IsExponentMarker(s[k])
    requires (k + 2 < d && IsSign(s[k + 1]) && DigitsIn(s, k + 2, d)) || (k + 1 < d && DigitsIn(s, k + 1, d))
    ensures IsExponent(s[k..d])
  {
    var x := s[k..d];
    if k + 2 < d && IsSign(s[k + 1]) && DigitsIn(s, k + 2, d) {
      assert x[2..] == s[k + 2..d];
    } else {
      assert x[1..] == s[k + 1..d];
    }
  }

  /** A mantissa, optionally followed by an exponent, is a float text. */
  lemma FloatTextAt(s: string, i: nat, k: nat, d: nat)
    requires i <= k <= d <= |s| && IsMantissa(s[i..k]) && (k == d || IsExponent(s[k..d]))
    ensures IsFloatText(s[i..d])
  {
    var w := s[i..d];
    assert w[..k - i] == s[i..k];
    if k < d {
      assert w[k - i..] == s[k..d];
    }
  }

  /** A float text, optionally followed by a suffix letter, is a literal. */
  lemma LiteralAt(s: string, i: nat, d: nat, e: nat)
    requires i <= d <= |s| && IsFloatText(s[i..d])
    requires e == d || (e == d + 1 && d < |s| && IsSuffix(s[d]))
    ensures e <= |s| && IsLiteral(s[i..e])
  {
    if e == d + 1 {
      var w := s[i..e];
      FloatTextEnd(s[i..d]);
      assert w[..|w| - 1] == s[i..d] && w[|w| - 1] == s[d];
    }
  }

  /** The digits of an exponent that starts with digit `s[g]`, and the suffix
      after them, close a literal. */
  lemma ExponentDigitsSound(s: string, i: nat, k: nat, g: nat)
    requires i <= k < g < |s| && IsMantissa(s[i..k]) && IsExponentMarker(s[k]) && IsDigit(s[g])
    requires g == k + 1 || (g == k + 2 && IsSign(s[k + 1]))
    ensures IsLiteral(s[i..OptionalSuffix(s, DigitRun(s, g + 1))])
  {
    var d := DigitRun(s, g + 1);
    DigitRunNoNul(s, g + 1);
    assert DigitsIn(s, g, d);
    ExponentAt(s, k, d);
    FloatTextAt(s, i, k, d);
    LiteralAt(s, i, d, OptionalSuffix(s, d));
  }

  lemma ScanExponentSound(s: string, i: nat, k: nat, e: nat)
    requires i <= k < |s| && IsMantissa(s[i..k]) && IsExponentMarker(s[k])
    requires ScanExponent(s, k + 1) == Accept(e)
    ensures IsLiteral(s[i..e])
  {
    var m := k + 1;
    if IsSign(At(s, m)) {
      ExponentDigitsSound(s, i, k, m + 1);
    } else {
      ExponentDigitsSound(s, i, k, m);
    }
  }

  lemma ScanFractionSound(s: string, i: nat, p: nat, j: nat, e: nat)
    requires i <= p < j <= |s| && i + 2 <= j && s[p] == '.'
    requires DigitsIn(s, i, p) && DigitsIn(s, p + 1, j)
    requires ScanFraction(s, j) == Accept(e)
    ensures IsLiteral(s[i..e])
  {
    var k := DigitRun(s, j);
    DigitRunNoNul(s, j);
    MantissaAt(s, i, p, k);
    assert AfterMantissa(s, k) == Accept(e);
    if IsSuffix(At(s, k)) {
      FloatTextAt(s, i, k, k);
      LiteralAt(s, i, k, e);
    } else if IsExponentMarker(At(s, k)) {
      ScanExponentSound(s, i, k, e);
    } else {
      FloatTextAt(s, i, k, k);
      LiteralAt(s, i, k, e);
    }
  }

  /** A literal that starts with its point is sound once a digit follows it. */
  lemma LeadingPointSound(s: string, i: nat, e: nat)
    requires i < |s| && s[i] == '.' && ScanLeadingPoint(s, i) == Accept(e)
    ensures IsLiteral(s[i..e])
  {
    assert DigitsIn(s, i + 1, i + 2);
    ScanFractionSound(s, i, i, i + 2, e);
  }

  /** Digits from i to p, then an accepted point and fraction, make a literal. */
  lemma PointSound(s: string, i: nat, p: nat, e: nat)
    requires i < p <= |s| && DigitsIn(s, i, p) && ScanPoint(s, p) == Accept(e)
    ensures IsLiteral(s[i..e])
  {
    assert At(s, p) == '.' && ScanFraction(s, p + 1) == Accept(e);
    ScanFractionSound(s, i, p, p + 1, e);
  }

  /** A literal that starts with digits is sound once a point follows them. */
  lemma WholePartSound(s: string, i: nat, e: nat)
    requires i < |s| && IsDigit(s[i]) && ScanWholePart(s, i) == Accept(e)
    ensures IsLiteral(s[i..e])
  {
    var p := DigitRun(s, i + 1);
    assert ScanPoint(s, p) == Accept(e);
    assert DigitsIn(s, i, p) by { DigitRunNoNul(s, i + 1); }
    PointSound(s, i, p, e);
  }

  /** Everything `parse_number` accepts is a floating literal. */
  lemma ScanNumberSound(s: string, i: nat)
    requires i <= |s|
    ensures ScanNumber(s, i).Accept? ==> IsLiteral(s[i..ScanNumber(s, i).stop])
  {
    var r := ScanNumber(s, i);
    if r.Accept? {
      if At(s, i) == '.' {
        LeadingPointSound(s, i, r.stop);
      } else {
        WholePartSound(s, i, r.stop);
      }
    }
  }

  /** A run of digits that ends before a non-digit is what DigitRun finds. */
  lemma {:induction false} RunTo(s: string, j: nat, e: nat)
    requires j <= e <= |s| && DigitsIn(s, j, e) && !IsDigit(At(s, e))
    ensures DigitRun(s, j) == e
    decreases e - j
  {
    if j < e {
      RunTo(s, j + 1, e);
    }
  }

  /** `parse_number` from i reads a mantissa that is not followed by a digit
      to its end. */
  lemma MantissaScanned(s: string, i: nat, k: nat)
    requires i <= k <= |s| && IsMantissa(s[i..k]) && !IsDigit(At(s, k))
    ensures ScanNumber(s, i) == AfterMantissa(s, k)
  {
    var m := s[i..k];
    var p :| 0 <= p < |m| && m[p] == '.' && AllDigits(m[..p]) && AllDigits(m[p + 1..]);
    forall q | i <= q < i + p ensures IsDigit(s[q]) {
      assert m[..p][q - i] == s[q];
    }
    forall q | i + p + 1 <= q < k ensures IsDigit(s[q]) {
      assert m[p + 1..][q - i - p - 1] == s[q];
    }
    assert s[i + p] == m[p] == '.';
    if p == 0 {
      LeadingPointScanned(s, i, k);
    } else {
      WholePartScanned(s, i, i + p, k);
    }
  }

  /** '.' and digits up to a non-digit at k: the mantissa ends at k. */
  lemma LeadingPointScanned(s: string, i: nat, k: nat)
    requires i + 1 < k <= |s| && s[i] == '.' && DigitsIn(s, i + 1, k) && !IsDigit(At(s, k))
    ensures ScanNumber(s, i) == AfterMantissa(s, k)
  {
    assert IsDigit(At(s, i + 1));
    RunTo(s, i + 2, k);
  }

  /** Digits, '.' at q and digits up to a non-digit at k: the mantissa ends at k. */
  lemma WholePartScanned(s: string, i: nat, q: nat, k: nat)
    requires i < q < k <= |s| && s[q] == '.' && DigitsIn(s, i, q) && DigitsIn(s, q + 1, k)
    requires !IsDigit(At(s, k))
    ensures ScanNumber(s, i) == AfterMantissa(s, k)
  {
    RunTo(s, i + 1, q);
    RunTo(s, q + 1, k);
  }

  /** `parse_number` reads an exponent that is not followed by a digit to its end. */
  lemma ExponentScanned(s: string, k: nat, e: nat)
    requires k < e <= |s| && IsExponent(s[k..e]) && !IsDigit(At(s, e))
    ensures AfterMantissa(s, k) == Accept(OptionalSuffix(s, e))
  {
    var x := s[k..e];
    assert At(s, k) == x[0] && At(s, k + 1) == x[1];
    if IsSign(x[1]) && |x| >= 3 && AllDigits(x[2..]) {
      forall q | k + 2 <= q < e ensures IsDigit(s[q]) {
        assert x[2..][q - k - 2] == s[q];
      }
      RunTo(s, k + 3, e);
    } else {
      forall q | k + 1 <= q < e ensures IsDigit(s[q]) {
        assert x[1..][q - k - 1] == s[q];
      }
      RunTo(s, k + 2, e);
    }
  }

  /** `parse_number` from i reads a float text standing there to its end, and
      takes one suffix letter after it, when the text is not followed by more
      digits or an exponent marker. */
  lemma FloatTextScanned(s: string, i: nat, f: string)
    requires i + |f| <= |s| && s[i..i + |f|] == f && IsFloatText(f)
    requires !IsDigit(At(s, i + |f|)) && !IsExponentMarker(At(s, i + |f|))
    ensures ScanNumber(s, i) == Accept(if IsSuffix(At(s, i + |f|)) then i + |f| + 1 else i + |f|)
  {
    var m := FloatTextParts(s, i, f);
    PartsScanned(s, i, m, i + |f|);
  }

  /** A float text standing in s from i splits there into its mantissa and
      its optional exponent. */
  lemma FloatTextParts(s: string, i: nat, f: string) returns (m: nat)
    requires i + |f| <= |s| && s[i..i + |f|] == f && IsFloatText(f)
    ensures i <= m <= i + |f| && IsMantissa(s[i..m]) && (m == i + |f| || IsExponent(s[m..i + |f|]))
  {
    var k :| 0 <= k <= |f| && IsMantissa(f[..k]) && (k == |f| || IsExponent(f[k..]));
    SplitAt(s, i, f, k);
    m := i + k;
  }

  /** A mantissa from i to m and an optional exponent from m to d, followed by
      neither a digit nor an exponent marker, are read to d, and one suffix
      letter after it. */
  lemma PartsScanned(s: string, i: nat, m: nat, d: nat)
    requires i <= m <= d <= |s| && IsMantissa(s[i..m]) && (m == d || IsExponent(s[m..d]))
    requires !IsDigit(At(s, d)) && !IsExponentMarker(At(s, d))
    ensures ScanNumber(s, i) == Accept(if IsSuffix(At(s, d)) then d + 1 else d)
  {
    if m < d {
      assert s[m..d][0] == At(s, m);
      ExponentScanned(s, m, d);
    } else {
      MantissaEnds(s, d);
    }
    MantissaScanned(s, i, m);
  }

  /** A mantissa followed by neither an exponent marker nor a digit ends the
      literal, with the suffix letter when one follows. */
  lemma MantissaEnds(s: string, d: nat)
    requires d <= |s| && !IsExponentMarker(At(s, d))
    ensures AfterMantissa(s, d) == Accept(if IsSuffix(At(s, d)) then d + 1 else d)
  {
  }

  /** Where f stands in s from i, its two parts at k stand from i and from i + k. */
  lemma SplitAt(s: string, i: nat, f: string, k: nat)
    requires i + |f| <= |s| && s[i..i + |f|] == f && k <= |f|
    ensures s[i..i + k] == f[..k] && s[i + k..i + |f|] == f[k..]
    ensures k < |f| ==> At(s, i + k) == f[k]
  {
    assert s[i..i + k] == s[i..i + |f|][..k];
    assert s[i + k..i + |f|] == s[i..i + |f|][k..];
  }

  /** What may follow a literal without being read as part of it. */
  predicate Delimits(t: string) {
    t == [] || (!IsDigit(t[0]) && !IsSuffix(t[0]) && !IsExponentMarker(t[0]))
  }

  /** A literal begins with a digit or its point. */
  lemma LiteralStart(w: string)
    requires IsLiteral(w)
    ensures |w| >= 2 && (IsDigit(w[0]) || w[0] == '.')
  {
    var f := if IsFloatText(w) then w else w[..|w| - 1];
    FloatTextShape(f);
    DigitRunNoNul(f, 0);
    FloatTextEnd(f);
    assert f[0] == w[0];
  }

  /** `parse_number` reads every floating literal followed by a delimiter
      whole, wherever it stands in the line. */
  lemma LiteralScanned(p: string, w: string, t: string)
    requires IsLiteral(w) && Delimits(t)
    ensures ScanNumber(p + w + t, |p|) == Accept(|p| + |w|)
  {
    var s, i := p + w + t, |p|;
    assert At(s, i + |w|) == if t == [] then '\0' else t[0];
    if IsFloatText(w) {
      assert s[i..i + |w|] == w;
      FloatTextScanned(s, i, w);
    } else {
      var f := w[..|w| - 1];
      assert s[i..i + |f|] == f;
      assert At(s, i + |f|) == w[|w| - 1];
      FloatTextScanned(s, i, f);
    }
  }

  /** Completeness of the lexer on literals: a floating literal followed by a
      delimiter becomes one NUMBER token carrying its text, wherever it stands
      in the line. */
  lemma LiteralLexed(p: string, w: string, t: string)
    requires IsLiteral(w) && Delimits(t)
    ensures NextToken(p + w + t, |p|) == (Token(NUMBER, |p|, Some(w)), |p| + |w|)
  {
    LiteralScanned(p, w, t);
    LiteralStart(w);
    var s := p + w + t;
    assert At(s, |p|) == w[0];
    assert SkipSpaces(s, |p|) == |p|;
    assert s[|p|..|p| + |w|] == w;
  }

  /** A literal on its own lexes to its NUMBER token and END. */
  lemma LiteralAlone(w: string)
    requires IsLiteral(w)
    ensures Tokenize(w, 0) == [Token(NUMBER, 0, Some(w)), Token(END, |w|)]
  {
    LiteralLexed([], w, []);
    assert [] + w + [] == w;
    assert Tokenize(w, |w|) == [Token(END, |w|)];
  }

  /** A line that ends in spaces after its last token: the lexer reaches the
      end sentinel while looking for the next token and produces an ERROR
      before END. */
  lemma TrailingSpaces(s: string, i: nat)
    requires i < |s| && forall k :: i <= k < |s| ==> s[k] == ' '
    ensures Tokenize(s, i) ==
            [Token(ERROR, |s|, Some(ExpectMessage("digit or '.'", |s|))), Token(END, |s|)]
  {
    assert SkipSpaces(s, i) == |s|;
  }

  /** A whole number is not a literal: the point is required. */
  lemma IntegerNeedsPoint()
    ensures Tokenize("5", 0) == [Token(ERROR, 0, Some(ExpectCharMessage('.', 1))), Token(END, 1)]
  {
    var s := "5";
    assert DigitRun(s, 1) == 1;
    assert ScanNumber(s, 0) == Reject(ExpectCharMessage('.', 1), 1);
    assert SkipSpaces(s, 0) == 0 && SkipToBoundary(s, 1) == 1;
    TokenizeStep(s, 0);
    TokenizeStep(s, 1);
  }

  /** An exponent marker must be followed by a sign or a digit. */
  lemma ExponentNeedsDigits()
    ensures Tokenize("1.e", 0) == [Token(ERROR, 0, Some(ExpectMessage("sign or digit", 3))), Token(END, 3)]
  {
    var s := "1.e";
    assert DigitRun(s, 1) == 1 && DigitRun(s, 2) == 2;
    assert ScanExponent(s, 3) == Reject(ExpectMessage("sign or digit", 3), 3);
    assert ScanNumber(s, 0) == ScanExponent(s, 3);
    assert SkipSpaces(s, 0) == 0 && SkipToBoundary(s, 3) == 3;
    TokenizeStep(s, 0);
    TokenizeStep(s, 3);
  }

  /** Only ' ' is skipped: a tab is an error, and recovery passes over it. */
  lemma TabIsNotSpace()
    ensures Tokenize("\t", 0) == [Token(ERROR, 0, Some(ExpectMessage("digit or '.'", 0))), Token(END, 1)]
  {
    var s := "\t";
    assert ScanNumber(s, 0) == Reject(ExpectMessage("digit or '.'", 0), 0);
    assert SkipSpaces(s, 0) == 0 && SkipToBoundary(s, 0) == 1;
    TokenizeStep(s, 0);
    TokenizeStep(s, 1);
  }

  /** The message of IntegerNeedsPoint as the source spells it, with the
      misspelt "positition" of `expect_char`. */
  lemma PointMessage()
    ensures ExpectCharMessage('.', 1) == "Expected input '.' at positition 1"
  {
    assert NatToString(1) == "1";
  }

  /** The message of ExponentNeedsDigits. */
  lemma SignOrDigitMessage()
    ensures ExpectMessage("sign or digit", 3) == "Expected sign or digit at position 3"
  {
    assert NatToString(3) == "3";
    assert "Expected " + "sign or digit" == "Expected sign or digit";
  }

  /** The tokens of "(1. + .5e2)", one lexing step at a time. */
  lemma SumOperators()
    ensures NextToken("(1. + .5e2)", 0) == (Token(LPAREN, 0), 1)
    ensures NextToken("(1. + .5e2)", 3) == (Token(PLUS, 4), 5)
    ensures NextToken("(1. + .5e2)", 10) == (Token(RPAREN, 10), 11)
  {
    var s := "(1. + .5e2)";
    assert SkipSpaces(s, 3) == 4;
  }

  lemma SumFirstNumber()
    ensures NextToken("(1. + .5e2)", 1) == (Token(NUMBER, 1, Some("1.")), 3)
  {
    var s := "(1. + .5e2)";
    assert ScanNumber(s, 1) == Accept(3) by {
      assert DigitRun(s, 2) == 2 && DigitRun(s, 3) == 3;
    }
    assert SkipSpaces(s, 1) == 1 && OperatorKind(s[1]) == None && s[1..3] == "1.";
  }

  lemma SumSecondNumber()
    ensures NextToken("(1. + .5e2)", 5) == (Token(NUMBER, 6, Some(".5e2")), 10)
  {
    var s := "(1. + .5e2)";
    assert ScanNumber(s, 6) == Accept(10) by {
      assert DigitRun(s, 8) == 8 && DigitRun(s, 9) == 10;
      assert ScanExponent(s, 9) == Accept(10);
    }
    assert SkipSpaces(s, 5) == 6;
    assert OperatorKind(s[6]) == None && s[6..10] == ".5e2";
  }

  /** A parenthesised sum lexes to its six tokens. */
  lemma SumLexed()
    ensures Tokenize("(1. + .5e2)", 0) ==
            [Token(LPAREN, 0), Token(NUMBER, 1, Some("1.")), Token(PLUS, 4),
             Token(NUMBER, 6, Some(".5e2")), Token(RPAREN, 10), Token(END, 11)]
  {
    var s := "(1. + .5e2)";
    SumOperators();
    SumFirstNumber();
    SumSecondNumber();
    TokenizeStep(s, 0);
    TokenizeStep(s, 1);
    TokenizeStep(s, 3);
    TokenizeStep(s, 5);
    TokenizeStep(s, 10);
    TokenizeStep(s, 11);
  }
}
