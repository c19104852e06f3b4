/** The lexer (lexer.py) as the source writes it: procedures that move a
    string cursor forward and either return a token or fail with a message.
    Each one is proved to compute the corresponding function of LexerSpec. */
module Lexer {
  import opened Wrappers
  import opened Helper
  import opened Literal
  import opened Tokens
  import opened Inputs
  import opened LexerSpec

  /** The character lists of lexer.py. */
  const Exponent: seq<char> := "eE"
  const Sign: seq<char> := "+-"
  const Suffix: seq<char> := "fFlL"

  lemma CharLists(c: char)
    ensures c in Digits <==> IsDigit(c)
    ensures c in Exponent <==> IsExponentMarker(c)
    ensures c in Sign <==> IsSign(c)
    ensures c in Suffix <==> IsSuffix(c)
  {
    DigitsAreDecimal();
  }

  /** A string cursor as the lexer uses it: sentinel '\0', index inside the string. */
  predicate Ready(inp: Input<char>)
    reads inp
  {
    inp.end == '\0' && inp.index <= |inp.content|
  }

  /** `expect_char`: steps over `expected`, or fails without moving. */
  method ExpectChar(inp: Input<char>, expected: char) returns (r: Outcome<string>)
    modifies inp
    ensures old(inp.Current()) == expected ==>
              r == Pass && inp.index == old(inp.index) + 1 && inp.record == old(inp.record) + [expected]
    ensures old(inp.Current()) != expected ==>
              r == Fail(ExpectCharMessage(expected, old(inp.index))) &&
              inp.index == old(inp.index) && inp.record == old(inp.record)
  {
    if inp.Current() != expected {
      return Fail(ExpectCharMessage(expected, inp.index));
    }
    inp.Next();
    r := Pass;
  }

  /** `expect_range`: steps over any one of `expected`, or fails without moving. */
  method ExpectRange(inp: Input<char>, expected: seq<char>, name: string) returns (r: Outcome<string>)
    modifies inp
    ensures old(inp.Current()) in expected ==>
              r == Pass && inp.index == old(inp.index) + 1 && inp.record == old(inp.record) + [old(inp.Current())]
    ensures old(inp.Current()) !in expected ==>
              r == Fail(ExpectMessage(name, old(inp.index))) &&
              inp.index == old(inp.index) && inp.record == old(inp.record)
  {
    if inp.Current() !in expected {
      return Fail(ExpectMessage(name, inp.index));
    }
    inp.Next();
    r := Pass;
  }

  /** `expect_other`: always fails, naming what was expected at the index. */
  method ExpectOther(inp: Input<char>, name: string) returns (r: Outcome<string>)
    ensures r == Fail(ExpectMessage(name, inp.index))
  {
    r := Fail(ExpectMessage(name, inp.index));
  }

  /** `parse_plus` … `parse_rparen`: the token of one operator character,
      at the index where it stands. */
  method ParseOperator(inp: Input<char>, kind: TokenType) returns (r: Result<Token, string>)
    requires OperatorChar(kind).Some?
    modifies inp
    ensures old(inp.Current()) == OperatorChar(kind).value ==>
              r == Success(Token(kind, old(inp.index))) &&
              inp.index == old(inp.index) + 1 && inp.record == old(inp.record) + [OperatorChar(kind).value]
    ensures old(inp.Current()) != OperatorChar(kind).value ==>
              r == Failure(ExpectCharMessage(OperatorChar(kind).value, old(inp.index))) &&
              inp.index == old(inp.index) && inp.record == old(inp.record)
  {
    var index := inp.index;
    var o := ExpectChar(inp, OperatorChar(kind).value);
    if o.Fail? {
      return Failure(o.error);
    }
    r := Success(Token(kind, index));
  }

  /** The record grows by exactly the characters the cursor moved over. */
  predicate Recorded(inp: Input<char>, i0: nat, record0: seq<char>)
    reads inp
  {
    i0 <= inp.index <= |inp.content| && inp.record == record0 + inp.content[i0..inp.index]
  }

  /** The outcome and the cursor are those the scan describes: Pass at its
      stop, or its message at the index where it failed. */
  predicate Answers(r: Outcome<string>, index: nat, sc: Scan) {
    match sc
    case Accept(stop) => r == Pass && index == stop
    case Reject(message, at) => r == Fail(message) && index == at
  }

  /** `input.next()` on a cursor inside its string keeps `Recorded`. */
  method Advance(inp: Input<char>, ghost i0: nat, ghost record0: seq<char>)
    requires Ready(inp) && Recorded(inp, i0, record0) && inp.index < |inp.content|
    modifies inp
    ensures Ready(inp) && Recorded(inp, i0, record0) && inp.index == old(inp.index) + 1
  {
    ghost var record1 := inp.record;
    inp.Next();
    RecordedNext(inp, i0, record0, record1);
  }

  /** Recording one more character keeps `Recorded`. */
  lemma RecordedNext(inp: Input<char>, i0: nat, record0: seq<char>, record1: seq<char>)
    requires i0 < inp.index <= |inp.content|
    requires record1 == record0 + inp.content[i0..inp.index - 1]
    requires inp.record == record1 + [inp.content[inp.index - 1]]
    ensures Recorded(inp, i0, record0)
  {
    assert inp.content[i0..inp.index] == inp.content[i0..inp.index - 1] + [inp.content[inp.index - 1]];
  }

  /** Recording from i0 to i1 and then on to the index is recording from i0. */
  lemma RecordedJoin(inp: Input<char>, i0: nat, record0: seq<char>, i1: nat, record1: seq<char>)
    requires Recorded(inp, i1, record1) && i0 <= i1 && record1 == record0 + inp.content[i0..i1]
    ensures Recorded(inp, i0, record0)
  {
    assert inp.content[i0..inp.index] == inp.content[i0..i1] + inp.content[i1..inp.index];
  }

  /** The loop `while input.current() in digits: input.next()`. */
  method SkipDigits(inp: Input<char>)
    requires Ready(inp)
    modifies inp
    ensures Ready(inp) && Recorded(inp, old(inp.index), old(inp.record))
    ensures inp.index == DigitRun(inp.content, old(inp.index))
  {
    ghost var i0, record0 := inp.index, inp.record;
    assert inp.content[i0..i0] == [];
    DigitsAreDecimal();
    while inp.Current() in Digits
      invariant Ready(inp) && Recorded(inp, i0, record0)
      invariant DigitRun(inp.content, inp.index) == DigitRun(inp.content, i0)
      decreases |inp.content| - inp.index
    {
      Advance(inp, i0, record0);
    }
  }

  /** `parse_number` after the exponent marker: a sign and a digit, or a
      digit; then more digits and an optional suffix letter. */
  method ParseExponent(inp: Input<char>) returns (r: Outcome<string>)
    requires Ready(inp)
    modifies inp
    ensures Ready(inp) && Recorded(inp, old(inp.index), old(inp.record))
    ensures Answers(r, inp.index, ScanExponent(inp.content, old(inp.index)))
  {
    var s := inp.content;
    var m := inp.index;
    ghost var record0 := inp.record;
    CharLists(inp.Current());
    if inp.Current() in Sign {
      Advance(inp, m, record0);
      ghost var record1 := inp.record;
      r := ExpectRange(inp, Digits, "digit");
      if r.Fail? {
        return;
      }
      RecordedNext(inp, m, record0, record1);
    } else if inp.Current() in Digits {
      Advance(inp, m, record0);
    } else {
      r := ExpectOther(inp, "sign or digit");
      return;
    }
    var k, record1 := inp.index, inp.record;
    SkipDigitsAndSuffix(inp);
    RecordedJoin(inp, m, record0, k, record1);
    r := Pass;
  }

  /** The end of an exponent: more digits, then an optional suffix letter. */
  method SkipDigitsAndSuffix(inp: Input<char>)
    requires Ready(inp)
    modifies inp
    ensures Ready(inp) && Recorded(inp, old(inp.index), old(inp.record))
    ensures inp.index == OptionalSuffix(inp.content, DigitRun(inp.content, old(inp.index)))
  {
    ghost var i0, record0 := inp.index, inp.record;
    SkipDigits(inp);
    CharLists(inp.Current());
    if inp.Current() in Suffix {
      Advance(inp, i0, record0);
    }
  }

  /** `parse_number` after the point: digits, then a suffix letter, an
      exponent or nothing. */
  method ParseFraction(inp: Input<char>) returns (r: Outcome<string>)
    requires Ready(inp)
    modifies inp
    ensures Ready(inp) && Recorded(inp, old(inp.index), old(inp.record))
    ensures Answers(r, inp.index, ScanFraction(inp.content, old(inp.index)))
  {
    ghost var i0, record0 := inp.index, inp.record;
    SkipDigits(inp);
    CharLists(inp.Current());
    if inp.Current() in Suffix {
      Advance(inp, i0, record0);
      r := Pass;
    } else if inp.Current() in Exponent {
      Advance(inp, i0, record0);
      ghost var k, record1 := inp.index, inp.record;
      r := ParseExponent(inp);
      RecordedJoin(inp, i0, record0, k, record1);
    } else {
      r := Pass;
    }
  }

  /** `parse_number` on a literal that starts with its point: a digit must
      follow, then the fraction. */
  method ParseLeadingPoint(inp: Input<char>) returns (r: Outcome<string>)
    requires Ready(inp) && inp.index < |inp.content| && inp.content[inp.index] == '.'
    modifies inp
    ensures Ready(inp) && Recorded(inp, old(inp.index), old(inp.record))
    ensures Answers(r, inp.index, ScanLeadingPoint(inp.content, old(inp.index)))
  {
    ghost var i0, record0 := inp.index, inp.record;
    assert inp.content[i0..i0] == [];
    Advance(inp, i0, record0);
    ghost var record1 := inp.record;
    CharLists(inp.Current());
    r := ExpectRange(inp, Digits, "digit");
    if r.Fail? {
      return;
    }
    RecordedNext(inp, i0, record0, record1);
    ghost var k, record2 := inp.index, inp.record;
    r := ParseFraction(inp);
    RecordedJoin(inp, i0, record0, k, record2);
  }

  /** `parse_number` on a literal that starts with a digit: digits, the point,
      then the fraction. */
  method ParseWholePart(inp: Input<char>) returns (r: Outcome<string>)
    requires Ready(inp) && inp.index < |inp.content| && IsDigit(inp.content[inp.index])
    modifies inp
    ensures Ready(inp) && Recorded(inp, old(inp.index), old(inp.record))
    ensures Answers(r, inp.index, ScanWholePart(inp.content, old(inp.index)))
  {
    ghost var i0, record0 := inp.index, inp.record;
    assert inp.content[i0..i0] == [];
    Advance(inp, i0, record0);
    ghost var k, record1 := inp.index, inp.record;
    SkipDigits(inp);
    RecordedJoin(inp, i0, record0, k, record1);
    ghost var p, record2 := inp.index, inp.record;
    r := ParsePoint(inp);
    RecordedJoin(inp, i0, record0, p, record2);
  }

  /** `expect_char(input, '.')` after the whole digits, then the fraction. */
  method ParsePoint(inp: Input<char>) returns (r: Outcome<string>)
    requires Ready(inp)
    modifies inp
    ensures Ready(inp) && Recorded(inp, old(inp.index), old(inp.record))
    ensures Answers(r, inp.index, ScanPoint(inp.content, old(inp.index)))
  {
    ghost var p, record0 := inp.index, inp.record;
    assert inp.content[p..p] == [];
    r := ExpectChar(inp, '.');
    if r.Fail? {
      return;
    }
    RecordedNext(inp, p, record0, record0);
    ghost var record1 := inp.record;
    r := ParseFraction(inp);
    RecordedJoin(inp, p, record0, p + 1, record1);
  }

  /** `parse_number`: a NUMBER token whose value is the text read, from the
      index where it starts; or the message of the first expectation that
      failed, with the cursor left where it failed. Either way the record
      holds exactly the characters passed over. */
  method ParseNumber(inp: Input<char>) returns (r: Result<Token, string>)
    requires Ready(inp)
    modifies inp
    ensures Ready(inp)
    ensures ScanNumber(inp.content, old(inp.index)).Accept? ==>
              inp.index == ScanNumber(inp.content, old(inp.index)).stop &&
              r == Success(Token(NUMBER, old(inp.index), Some(inp.content[old(inp.index)..inp.index])))
    ensures ScanNumber(inp.content, old(inp.index)).Reject? ==>
              inp.index == ScanNumber(inp.content, old(inp.index)).at &&
              r == Failure(ScanNumber(inp.content, old(inp.index)).message)
    ensures inp.record == inp.content[old(inp.index)..inp.index]
  {
    var index := inp.index;
    inp.ClearRecord();
    CharLists(inp.Current());
    var o: Outcome<string>;
    if inp.Current() == '.' {
      o := ParseLeadingPoint(inp);
    } else if inp.Current() in Digits {
      o := ParseWholePart(inp);
    } else {
      o := ExpectOther(inp, "digit or '.'");
    }
    assert inp.record == inp.content[index..inp.index] by {
      assert [] + inp.content[index..inp.index] == inp.content[index..inp.index];
    }
    if o.Fail? {
      return Failure(o.error);
    }
    r := Success(Token(NUMBER, index, Some(inp.record)));
  }

  /** `parse_next_token`: skips spaces, then lexes an operator or a literal
      from where it stopped. When lexing fails, the cursor moves on to the
      next space or the end, and the token is an ERROR carrying the message. */
  method ParseNextToken(inp: Input<char>) returns (t: Token)
    requires Ready(inp)
    modifies inp
    ensures Ready(inp)
    ensures (t, inp.index) == NextToken(inp.content, old(inp.index))
  {
    while inp.Current() == ' '
      invariant Ready(inp) && old(inp.index) <= inp.index
      invariant SkipSpaces(inp.content, inp.index) == SkipSpaces(inp.content, old(inp.index))
      decreases |inp.content| - inp.index
    {
      inp.Next();
    }
    var index := inp.index;
    var r: Result<Token, string>;
    match OperatorKind(inp.Current()) {
      case Some(kind) =>
        r := ParseOperator(inp, kind);
      case None =>
        r := ParseNumber(inp);
    }
    match r {
      case Success(token) =>
        t := token;
      case Failure(message) =>
        ghost var at := inp.index;
        while inp.Current() != ' ' && inp.Current() != inp.end
          invariant Ready(inp) && at <= inp.index
          invariant SkipToBoundary(inp.content, inp.index) == SkipToBoundary(inp.content, at)
          decreases |inp.content| - inp.index
        {
          inp.Next();
        }
        t := Token(ERROR, index, Some(message));
    }
  }

  /** `parse`: tokens are lexed until the cursor reaches the end sentinel,
      then an END token at that index closes the list. */
  method Parse(s: string) returns (tokens: seq<Token>)
    ensures tokens == Tokenize(s, 0)
  {
    tokens := [];
    var inp := NewStringInput(s);
    while inp.Current() != inp.end
      invariant inp.content == s && Ready(inp)
      invariant tokens + Tokenize(s, inp.index) == Tokenize(s, 0)
      decreases |s| - inp.index
    {
      ghost var i := inp.index;
      TokenizeStep(s, i);
      var t := ParseNextToken(inp);
      assert tokens + Tokenize(s, i) == (tokens + [t]) + Tokenize(s, inp.index);
      tokens := tokens + [t];
    }
    TokenizeStep(s, inp.index);
    tokens := tokens + [Token(END, inp.index)];
  }
}
