/** The two stages together: the lexer's token list for a line is one the
    parser is defined on as soon as it holds no ERROR token, so everything
    proved of ParserSpec.Parse holds of it. */
module Calculator {
  import opened Tokens
  import opened Literal
  import LexerSpec
  import ParserSpec

  /** A lexed line without ERROR tokens is closed by END, carries a literal
      in every NUMBER and has its positions in order. */
  lemma LexedIsParsable(s: string)
    requires forall k :: 0 <= k < |LexerSpec.Tokenize(s, 0)| ==> LexerSpec.Tokenize(s, 0)[k].kind != ERROR
    ensures ParserSpec.WellFormed(LexerSpec.Tokenize(s, 0))
    ensures ParserSpec.Ordered(LexerSpec.Tokenize(s, 0))
  {
    var ts := LexerSpec.Tokenize(s, 0);
    LexerSpec.TokenizeIsStream(s, 0);
    StreamOrdered(s, ts);
    StreamLiterals(s, ts);
  }

  /** The positions of a token stream never decrease, END included. */
  lemma StreamOrdered(s: string, ts: seq<Token>)
    requires LexerSpec.TokenStream(s, 0, ts)
    ensures ParserSpec.Ordered(ts)
  {
    forall a, b | 0 <= a < b < |ts|
      ensures ts[a].pos <= ts[b].pos
    {
      if b == |ts| - 1 {
        assert ts[b].pos == LexerSpec.FirstNul(s, 0);
      }
    }
  }

  /** A token stream is closed by END and carries a literal in every NUMBER. */
  lemma StreamLiterals(s: string, ts: seq<Token>)
    requires LexerSpec.TokenStream(s, 0, ts)
    requires forall k :: 0 <= k < |ts| ==> ts[k].kind != ERROR
    ensures ParserSpec.WellFormed(ts)
  {
    forall k | 0 <= k < |ts| && ts[k].kind == NUMBER
      ensures ts[k].value.Some? && IsLiteral(ts[k].value.value)
    {
      assert LexerSpec.NumberAt(s, ts[k]);
    }
  }
}
