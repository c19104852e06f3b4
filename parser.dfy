/** The recursive-descent parser of parser.py as the source writes it: parse
    functions that advance a shared `TokenInput` cursor and append to a shared
    error list. Each method is proved to leave the cursor where the matching
    function of ParserSpec says, to return that function's expression and to
    append exactly its errors. */
module Parser {
  import opened Wrappers
  import opened Tokens
  import opened Ast
  import opened ParserErrors
  import opened Inputs
  import opened ParserSpec

  /** The `errors` list the parse functions share and append to. */
  class ErrorLog {
    var errors: seq<ParserError>

    constructor ()
      ensures errors == []
    {
      errors := [];
    }

    /** `errors.append(e)`. */
    method Append(e: ParserError)
      modifies this
      ensures errors == old(errors) + [e]
    {
      errors := errors + [e];
    }
  }

  /** A token cursor the parse functions can work on: a well-formed list,
      the cursor on one of its tokens, and the last token as sentinel. */
  predicate Ready(inp: Input<Token>)
    reads inp
  {
    WellFormed(inp.content) && inp.index < |inp.content| && inp.end == inp.content[|inp.content| - 1]
  }

  /** The cursor moved from i0 to its index and recorded what it passed over. */
  predicate Passed(inp: Input<Token>, i0: nat, record0: seq<Token>)
    reads inp
  {
    i0 <= inp.index <= |inp.content| && inp.record == record0 + inp.content[i0..inp.index]
  }

  /** Passing from i0 to i1 and then on to the index is passing from i0. */
  lemma PassedJoin(inp: Input<Token>, i0: nat, record0: seq<Token>, i1: nat, record1: seq<Token>)
    requires i0 <= i1 <= |inp.content| && record1 == record0 + inp.content[i0..i1]
    requires Passed(inp, i1, record1)
    ensures Passed(inp, i0, record0)
  {
    assert inp.content[i0..inp.index] == inp.content[i0..i1] + inp.content[i1..inp.index];
  }

  lemma AppendAssociates(a: seq<ParserError>, b: seq<ParserError>, c: seq<ParserError>)
    ensures (a + b) + c == a + (b + c)
  {
  }

  /** `input.next()` on a cursor inside its list keeps `Passed`. */
  method Advance(inp: Input<Token>, ghost i0: nat, ghost record0: seq<Token>)
    requires Passed(inp, i0, record0) && inp.index < |inp.content|
    modifies inp
    ensures inp.index == old(inp.index) + 1 && Passed(inp, i0, record0)
  {
    inp.Next();
    assert inp.content[i0..inp.index] == inp.content[i0..inp.index - 1] + [inp.content[inp.index - 1]];
  }

  /** `expect`: as ParserSpec.Expect. It is only ever asked for ')', so
      the cursor never steps over the END sentinel. */
  method Expect(inp: Input<Token>, log: ErrorLog, kind: TokenType, representation: string)
    requires Ready(inp) && kind != END
    modifies inp, log
    ensures Ready(inp) && Passed(inp, old(inp.index), old(inp.record))
    ensures var (j, errors) := ParserSpec.Expect(inp.content, old(inp.index), kind, representation);
            inp.index == j && log.errors == old(log.errors) + errors
  {
    if inp.Current().kind != kind {
      log.Append(ParserError("Expected '" + representation + "'", inp.Current().pos));
      assert inp.content[inp.index..inp.index] == [];
    } else {
      Advance(inp, inp.index, inp.record);
    }
  }

  /** `parse_E`: as ParserSpec.ParseE. */
  method ParseE(inp: Input<Token>, log: ErrorLog) returns (e: Option<Expression>)
    requires Ready(inp)
    modifies inp, log
    ensures Ready(inp) && Passed(inp, old(inp.index), old(inp.record))
    ensures var s := ParserSpec.ParseE(inp.content, old(inp.index));
            e == s.expr && inp.index == s.index && log.errors == old(log.errors) + s.errors
    decreases |inp.content| - inp.index, 7
  {
    ghost var i0, record0, errors0 := inp.index, inp.record, log.errors;
    var left := ParseT(inp, log);
    ghost var first := ParserSpec.ParseT(inp.content, i0);
    ghost var i1, record1 := inp.index, inp.record;
    var operation := ParseETail(inp, log, left);
    ghost var rest := ParserSpec.ParseETail(inp.content, i1, left);
    e := if operation.None? then left else operation;
    PassedJoin(inp, i0, record0, i1, record1);
    AppendAssociates(errors0, first.errors, rest.errors);
  }

  /** `parse_E_`: dispatches on the current token as ParserSpec.ParseETail. */
  method ParseETail(inp: Input<Token>, log: ErrorLog, left: Option<Expression>) returns (e: Option<Expression>)
    requires Ready(inp)
    modifies inp, log
    ensures Ready(inp) && Passed(inp, old(inp.index), old(inp.record))
    ensures var s := ParserSpec.ParseETail(inp.content, old(inp.index), left);
            e == s.expr && inp.index == s.index && log.errors == old(log.errors) + s.errors
    decreases |inp.content| - inp.index, 6
  {
    var k := inp.Current().kind;
    if k == PLUS || k == MINUS {
      e := ParseETailOperator(inp, log, left);
    } else if k == RPAREN || k == END {
      e := None;
      assert inp.content[inp.index..inp.index] == [];
    } else {
      e := ParseETailMissing(inp, log, left);
    }
  }

  /** `parse_E_1` and `parse_E_2`: steps over the operator, parses the right operand and
      recurs on the operation. */
  method ParseETailOperator(inp: Input<Token>, log: ErrorLog, left: Option<Expression>) returns (e: Option<Expression>)
    requires Ready(inp) && inp.Current().kind in {PLUS, MINUS}
    modifies inp, log
    ensures Ready(inp) && Passed(inp, old(inp.index), old(inp.record))
    ensures var s := ParserSpec.ParseETail(inp.content, old(inp.index), left);
            e == s.expr && inp.index == s.index && log.errors == old(log.errors) + s.errors
    decreases |inp.content| - inp.index, 5
  {
    ghost var i0, record0, errors0 := inp.index, inp.record, log.errors;
    var t := inp.Current();
    Advance(inp, i0, record0);
    ghost var record1 := inp.record;
    var right := ParseT(inp, log);
    ghost var first := ParserSpec.ParseT(inp.content, i0 + 1);
    PassedJoin(inp, i0, record0, i0 + 1, record1);
    ghost var i2, record2, errors2 := inp.index, inp.record, log.errors;
    assert errors2 == errors0 + first.errors;
    var op := if t.kind == PLUS then Add else Subtract;
    e := ParseETail(inp, log, Some(Operation(op, left, right)));
    ghost var rest := ParserSpec.ParseETail(inp.content, i2, Some(Operation(op, left, right)));
    assert first.index == i2 && first.expr == right;
    assert ParserSpec.ParseETail(inp.content, i0, left) == Step(rest.expr, rest.index, first.errors + rest.errors);
    PassedJoin(inp, i0, record0, i2, record2);
    assert log.errors == (errors0 + first.errors) + rest.errors;
    AppendAssociates(errors0, first.errors, rest.errors);
  }

  /** `parse_E_4`: reports the missing operator at the current token, parses it
      as the right operand and recurs on an unknown operation. */
  method ParseETailMissing(inp: Input<Token>, log: ErrorLog, left: Option<Expression>) returns (e: Option<Expression>)
    requires Ready(inp) && inp.Current().kind !in {PLUS, MINUS} && !EndsSum(inp.Current().kind)
    modifies inp, log
    ensures Ready(inp) && Passed(inp, old(inp.index), old(inp.record))
    ensures var s := ParserSpec.ParseETail(inp.content, old(inp.index), left);
            e == s.expr && inp.index == s.index && log.errors == old(log.errors) + s.errors
    decreases |inp.content| - inp.index, 5
  {
    ghost var i0, record0, errors0 := inp.index, inp.record, log.errors;
    var t := inp.Current();
    log.Append(ParserError("Expected operator", t.pos));
    ghost var errors1 := log.errors;
    assert errors1 == errors0 + [ParserError("Expected operator", t.pos)];
    var right := ParseT(inp, log);
    ghost var first := ParserSpec.ParseT(inp.content, i0);
    ghost var i2, record2 := inp.index, inp.record;
    e := ParseETail(inp, log, Some(Operation(Unknown, left, right)));
    ghost var rest := ParserSpec.ParseETail(inp.content, i2, Some(Operation(Unknown, left, right)));
    PassedJoin(inp, i0, record0, i2, record2);
    assert log.errors == (errors1 + first.errors) + rest.errors;
    AppendAssociates(errors0, [ParserError("Expected operator", t.pos)], first.errors);
    AppendAssociates(errors0, [ParserError("Expected operator", t.pos)] + first.errors, rest.errors);
  }

  /** `parse_T`: as ParserSpec.ParseT. */
  method ParseT(inp: Input<Token>, log: ErrorLog) returns (e: Option<Expression>)
    requires Ready(inp)
    modifies inp, log
    ensures Ready(inp) && Passed(inp, old(inp.index), old(inp.record))
    ensures var s := ParserSpec.ParseT(inp.content, old(inp.index));
            e == s.expr && inp.index == s.index && log.errors == old(log.errors) + s.errors
    decreases |inp.content| - inp.index, 4
  {
    ghost var i0, record0, errors0 := inp.index, inp.record, log.errors;
    var left := ParseF(inp, log);
    ghost var first := ParserSpec.ParseF(inp.content, i0);
    ghost var i1, record1 := inp.index, inp.record;
    var operation := ParseTTail(inp, log, left);
    ghost var rest := ParserSpec.ParseTTail(inp.content, i1, left);
    e := if operation.None? then left else operation;
    PassedJoin(inp, i0, record0, i1, record1);
    AppendAssociates(errors0, first.errors, rest.errors);
  }

  /** `parse_T_`: dispatches on the current token as ParserSpec.ParseTTail. */
  method ParseTTail(inp: Input<Token>, log: ErrorLog, left: Option<Expression>) returns (e: Option<Expression>)
    requires Ready(inp)
    modifies inp, log
    ensures Ready(inp) && Passed(inp, old(inp.index), old(inp.record))
    ensures var s := ParserSpec.ParseTTail(inp.content, old(inp.index), left);
            e == s.expr && inp.index == s.index && log.errors == old(log.errors) + s.errors
    decreases |inp.content| - inp.index, 3
  {
    var k := inp.Current().kind;
    if k == STAR || k == SLASH {
      e := ParseTTailOperator(inp, log, left);
    } else if k == PLUS || k == MINUS || k == RPAREN || k == END {
      e := None;
      assert inp.content[inp.index..inp.index] == [];
    } else {
      e := ParseTTailMissing(inp, log, left);
    }
  }

  /** `parse_T_1` and `parse_T_2`: steps over the operator, parses the right operand and
      recurs on the operation. */
  method ParseTTailOperator(inp: Input<Token>, log: ErrorLog, left: Option<Expression>) returns (e: Option<Expression>)
    requires Ready(inp) && inp.Current().kind in {STAR, SLASH}
    modifies inp, log
    ensures Ready(inp) && Passed(inp, old(inp.index), old(inp.record))
    ensures var s := ParserSpec.ParseTTail(inp.content, old(inp.index), left);
            e == s.expr && inp.index == s.index && log.errors == old(log.errors) + s.errors
    decreases |inp.content| - inp.index, 2
  {
    ghost var i0, record0, errors0 := inp.index, inp.record, log.errors;
    var t := inp.Current();
    Advance(inp, i0, record0);
    ghost var record1 := inp.record;
    var right := ParseF(inp, log);
    ghost var first := ParserSpec.ParseF(inp.content, i0 + 1);
    PassedJoin(inp, i0, record0, i0 + 1, record1);
    ghost var i2, record2, errors2 := inp.index, inp.record, log.errors;
    assert errors2 == errors0 + first.errors;
    var op := if t.kind == STAR then Multiply else Divide;
    e := ParseTTail(inp, log, Some(Operation(op, left, right)));
    ghost var rest := ParserSpec.ParseTTail(inp.content, i2, Some(Operation(op, left, right)));
    assert first.index == i2 && first.expr == right;
    assert ParserSpec.ParseTTail(inp.content, i0, left) == Step(rest.expr, rest.index, first.errors + rest.errors);
    PassedJoin(inp, i0, record0, i2, record2);
    assert log.errors == (errors0 + first.errors) + rest.errors;
    AppendAssociates(errors0, first.errors, rest.errors);
  }

  /** `parse_T_4`: reports the missing operator at the current token, parses it
      as the right operand and recurs on an unknown operation. */
  method ParseTTailMissing(inp: Input<Token>, log: ErrorLog, left: Option<Expression>) returns (e: Option<Expression>)
    requires Ready(inp) && inp.Current().kind !in {STAR, SLASH} && !EndsTerm(inp.Current().kind)
    modifies inp, log
    ensures Ready(inp) && Passed(inp, old(inp.index), old(inp.record))
    ensures var s := ParserSpec.ParseTTail(inp.content, old(inp.index), left);
            e == s.expr && inp.index == s.index && log.errors == old(log.errors) + s.errors
    decreases |inp.content| - inp.index, 2
  {
    ghost var i0, record0, errors0 := inp.index, inp.record, log.errors;
    var t := inp.Current();
    log.Append(ParserError("Expected operator", t.pos));
    ghost var errors1 := log.errors;
    assert errors1 == errors0 + [ParserError("Expected operator", t.pos)];
    var right := ParseF(inp, log);
    ghost var first := ParserSpec.ParseF(inp.content, i0);
    ghost var i2, record2 := inp.index, inp.record;
    e := ParseTTail(inp, log, Some(Operation(Unknown, left, right)));
    ghost var rest := ParserSpec.ParseTTail(inp.content, i2, Some(Operation(Unknown, left, right)));
    PassedJoin(inp, i0, record0, i2, record2);
    assert log.errors == (errors1 + first.errors) + rest.errors;
    AppendAssociates(errors0, [ParserError("Expected operator", t.pos)], first.errors);
    AppendAssociates(errors0, [ParserError("Expected operator", t.pos)] + first.errors, rest.errors);
  }

  /** `parse_F`: as ParserSpec.ParseF. */
  method ParseF(inp: Input<Token>, log: ErrorLog) returns (e: Option<Expression>)
    requires Ready(inp)
    modifies inp, log
    ensures Ready(inp) && Passed(inp, old(inp.index), old(inp.record))
    ensures var s := ParserSpec.ParseF(inp.content, old(inp.index));
            e == s.expr && inp.index == s.index && log.errors == old(log.errors) + s.errors
    decreases |inp.content| - inp.index, 1
  {
    var t := inp.Current();
    if t.kind == LPAREN {
      e := ParseParenthesised(inp, log);
    } else if t.kind == NUMBER {
      e := Some(Value(NumericValue(t)));
      Advance(inp, inp.index, inp.record);
    } else {
      log.Append(ParserError("Expected number or expression in parentheses", t.pos));
      e := None;
    }
  }

  /** `parse_F` on '(': steps over it, parses a sum and expects ')'. */
  method ParseParenthesised(inp: Input<Token>, log: ErrorLog) returns (e: Option<Expression>)
    requires Ready(inp) && inp.Current().kind == LPAREN
    modifies inp, log
    ensures Ready(inp) && Passed(inp, old(inp.index), old(inp.record))
    ensures var s := ParserSpec.ParseF(inp.content, old(inp.index));
            e == s.expr && inp.index == s.index && log.errors == old(log.errors) + s.errors
    decreases |inp.content| - inp.index, 0
  {
    ghost var i0, record0, errors0 := inp.index, inp.record, log.errors;
    Advance(inp, i0, record0);
    ghost var record1 := inp.record;
    e := ParseE(inp, log);
    ghost var inner := ParserSpec.ParseE(inp.content, i0 + 1);
    PassedJoin(inp, i0, record0, i0 + 1, record1);
    ghost var i2, record2 := inp.index, inp.record;
    Expect(inp, log, RPAREN, ")");
    ghost var expected := ParserSpec.Expect(inp.content, i2, RPAREN, ")");
    PassedJoin(inp, i0, record0, i2, record2);
    AppendAssociates(errors0, inner.errors, expected.1);
  }

  /** The inner loop of `parse`: reports each stray ')' as the culprit of
      its error and steps over it, as ParserSpec.SkipStrays. */
  method SkipStrayParens(inp: Input<Token>, log: ErrorLog)
    requires Ready(inp)
    modifies inp, log
    ensures Ready(inp) && Passed(inp, old(inp.index), old(inp.record))
    ensures var (j, strays) := SkipStrays(inp.content, old(inp.index));
            inp.index == j && log.errors == old(log.errors) + strays
  {
    ghost var i0, record0, errors0 := inp.index, inp.record, log.errors;
    ghost var (j, strays) := SkipStrays(inp.content, i0);
    assert inp.content[i0..i0] == [];
    while inp.Current().kind == RPAREN
      invariant Ready(inp) && Passed(inp, i0, record0) && inp.index <= j
      invariant log.errors == errors0 + strays[..inp.index - i0]
      decreases |inp.content| - inp.index
    {
      log.Append(ParserError("Invalid ')'", inp.Current().pos, true));
      assert strays[..inp.index + 1 - i0] == strays[..inp.index - i0] + [strays[inp.index - i0]];
      Advance(inp, i0, record0);
    }
    assert strays[..j - i0] == strays;
  }

  /** One round of the outer loop of `parse`, entered on a token other than
      END: skips the stray ')' run, then continues with `parse_E_` or
      `parse_T_`. On '(' neither branch applies and the round changes
      nothing more, so the loop would repeat forever: `stuck` reports that. */
  method ParseRound(inp: Input<Token>, log: ErrorLog, expr: Option<Expression>) returns (next: Option<Expression>, stuck: bool)
    requires Ready(inp) && EndsTerm(inp.Current().kind) && inp.Current().kind != END
    modifies inp, log
    ensures Ready(inp)
    ensures stuck ==> Resume(inp.content, old(inp.index), expr, old(log.errors)) == Diverges(inp.index, log.errors)
    ensures !stuck ==> old(inp.index) < inp.index && EndsTerm(inp.content[inp.index].kind) &&
                       Resume(inp.content, old(inp.index), expr, old(log.errors)) == Resume(inp.content, inp.index, next, log.errors)
  {
    ghost var i, errors := inp.index, log.errors;
    SkipStrayParens(inp, log);
    ghost var (j, strays) := SkipStrays(inp.content, i);
    var k := inp.Current().kind;
    stuck := false;
    if k == PLUS || k == MINUS || k == NUMBER {
      next := ParseETail(inp, log, expr);
      ResumeRound(inp.content, i, expr, errors);
    } else if k == STAR || k == SLASH {
      next := ParseTTail(inp, log, expr);
      ResumeRound(inp.content, i, expr, errors);
    } else {
      next := expr;
      stuck := k == LPAREN;
    }
  }

  /** `parse`: a sum, then the outer loop until END. Where the source loops
      forever (a '(' after stray ')'), the method stops and reports
      `Diverges` at that token; otherwise it returns the expression and
      every error, in the order they were appended. */
  method Parse(tokens: seq<Token>) returns (r: ParseResult)
    requires WellFormed(tokens)
    ensures r == ParserSpec.Parse(tokens)
  {
    var inp := NewTokenInput(tokens);
    var log := new ErrorLog();
    var expr := ParseE(inp, log);
    assert log.errors == ParserSpec.ParseE(tokens, 0).errors;
    while inp.Current().kind != END
      invariant Ready(inp) && inp.content == tokens && EndsTerm(tokens[inp.index].kind)
      invariant Resume(tokens, inp.index, expr, log.errors) == ParserSpec.Parse(tokens)
      decreases |tokens| - inp.index
    {
      var stuck;
      expr, stuck := ParseRound(inp, log, expr);
      if stuck {
        return Diverges(inp.index, log.errors);
      }
    }
    r := Parsed(expr, log.errors);
  }
}
