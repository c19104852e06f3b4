/** Tokens (token.py): the token kinds with their enum codes, the token record,
    suffix stripping before numeric conversion, and the string rendering. */
module Tokens {
  import opened Wrappers
  import opened Literal

  /** `TokenType`, whose members carry the codes that `Code` gives. */
  datatype TokenType = ERROR | PLUS | MINUS | STAR | SLASH | LPAREN | RPAREN | NUMBER | END

  /** The enum value of a token kind: 0 to 7, and 127 for END alone. */
  function Code(t: TokenType): (r: nat)
    ensures r <= 7 || r == 127
    ensures r == 127 <==> t == END
  {
    match t
    case ERROR => 0
    case PLUS => 1
    case MINUS => 2
    case STAR => 3
    case SLASH => 4
    case LPAREN => 5
    case RPAREN => 6
    case NUMBER => 7
    case END => 127
  }

  /** `TokenType(c)`: the kind with enum value `c`, if there is one. */
  function FromCode(c: int): (r: Option<TokenType>)
    ensures r.Some? <==> 0 <= c <= 7 || c == 127
    ensures r.Some? ==> Code(r.value) == c
  {
    if c == 0 then Some(ERROR)
    else if c == 1 then Some(PLUS)
    else if c == 2 then Some(MINUS)
    else if c == 3 then Some(STAR)
    else if c == 4 then Some(SLASH)
    else if c == 5 then Some(LPAREN)
    else if c == 6 then Some(RPAREN)
    else if c == 7 then Some(NUMBER)
    else if c == 127 then Some(END)
    else None
  }

  /** Every kind is found again from its code, so the codes are pairwise distinct. */
  lemma CodeRoundTrip(t: TokenType)
    ensures FromCode(Code(t)) == Some(t)
    ensures forall u :: Code(u) == Code(t) ==> u == t
  {
  }

  /** `token_type.name.lower()`: a name of lower-case letters. */
  function LowerName(t: TokenType): (r: string)
    ensures |r| >= 3 && forall k :: 0 <= k < |r| ==> 'a' <= r[k] <= 'z'
  {
    match t
    case ERROR => "error"
    case PLUS => "plus"
    case MINUS => "minus"
    case STAR => "star"
    case SLASH => "slash"
    case LPAREN => "lparen"
    case RPAREN => "rparen"
    case NUMBER => "number"
    case END => "end"
  }

  /** The kind whose lower-case name is `n`, if any. */
  function KindOfLowerName(n: string): (r: Option<TokenType>)
    ensures r.Some? ==> LowerName(r.value) == n
  {
    if n == "error" then Some(ERROR)
    else if n == "plus" then Some(PLUS)
    else if n == "minus" then Some(MINUS)
    else if n == "star" then Some(STAR)
    else if n == "slash" then Some(SLASH)
    else if n == "lparen" then Some(LPAREN)
    else if n == "rparen" then Some(RPAREN)
    else if n == "number" then Some(NUMBER)
    else if n == "end" then Some(END)
    else None
  }

  /** A token: its kind, the position where it starts, and its text (the
      literal of a NUMBER, the message of an ERROR, absent otherwise). */
  datatype Token = Token(kind: TokenType, pos: nat, value: Option<string> := None)

  /** The text `numeric_value` hands to `float()`: the value without its last
      character when that is one of f, F, l, L, and the value itself otherwise. */
  function NumericText(value: string): (r: string)
    requires |value| > 0
    ensures r <= value && |value| - 1 <= |r|
    ensures |r| < |value| <==> IsSuffix(value[|value| - 1])
  {
    if IsSuffix(value[|value| - 1]) then value[..|value| - 1] else value
  }

  /** Removing the suffix of a literal leaves a float text. */
  lemma LiteralNumericText(value: string)
    requires IsLiteral(value)
    ensures IsFloatText(NumericText(value))
  {
    if IsFloatText(value) {
      FloatTextEnd(value);
    }
  }

  /** `numeric_value()`: the value of the token's literal, suffix removed. */
  function NumericValue(t: Token): (r: real)
    requires t.value.Some? && IsLiteral(t.value.value)
    ensures r >= 0.0
  {
    LiteralNumericText(t.value.value);
    FloatValue(NumericText(t.value.value))
  }

  /** A suffix letter changes neither the text converted nor the value. */
  lemma SuffixIgnored(w: string, c: char, pos: nat)
    requires IsFloatText(w) && IsSuffix(c)
    ensures IsLiteral(w) && IsLiteral(w + [c])
    ensures NumericText(w + [c]) == NumericText(w) == w
    ensures NumericValue(Token(NUMBER, pos, Some(w + [c]))) == NumericValue(Token(NUMBER, pos, Some(w)))
  {
    FloatTextEnd(w);
    assert (w + [c])[..|w|] == w;
  }

  /** `str(token)`: "<kind>" without a value, "<kind: value>" with one. */
  function Render(t: Token): (r: string)
    ensures |r| >= 2 && r[0] == '<' && r[|r| - 1] == '>'
  {
    match t.value
    case None => "<" + LowerName(t.kind) + ">"
    case Some(v) => "<" + LowerName(t.kind) + ": " + v + ">"
  }

  /** The index of the first `x` in `s`, or |s| when there is none. */
  function IndexOf(s: string, x: char): (r: nat)
    ensures r <= |s|
    ensures forall k :: 0 <= k < r ==> s[k] != x
    ensures r < |s| ==> s[r] == x
  {
    if s == [] then 0
    else if s[0] == x then 0
    else 1 + IndexOf(s[1..], x)
  }

  /** Reads the kind and the value back from a rendered token; only text in
      angle brackets is read. */
  function Unrender(s: string): (r: Option<(TokenType, Option<string>)>)
    ensures r.Some? ==> |s| >= 2 && s[0] == '<' && s[|s| - 1] == '>'
  {
    if |s| < 2 || s[0] != '<' || s[|s| - 1] != '>' then None
    else
      var inner := s[1..|s| - 1];
      var c := IndexOf(inner, ':');
      if c == |inner| then
        match KindOfLowerName(inner)
        case Some(k) => Some((k, None))
        case None => None
      else if c + 1 < |inner| && inner[c + 1] == ' ' then
        match KindOfLowerName(inner[..c])
        case Some(k) => Some((k, Some(inner[c + 2..])))
        case None => None
      else None
  }

  /** Each kind is read back from its lower-case name, which holds no colon. */
  lemma NameRoundTrip(k: TokenType)
    ensures ':' !in LowerName(k) && KindOfLowerName(LowerName(k)) == Some(k)
  {
    match k
    case ERROR =>
    case PLUS =>
    case MINUS =>
    case STAR =>
    case SLASH =>
    case LPAREN =>
    case RPAREN =>
    case NUMBER =>
    case END =>
  }

  /** The first colon of "<name>: <value>" is the one after the name. */
  lemma ColonAfterName(name: string, v: string)
    requires ':' !in name
    ensures IndexOf(name + ": " + v, ':') == |name|
  {
    var inner := name + ": " + v;
    assert inner[|name|] == ':';
    assert forall k :: 0 <= k < |name| ==> inner[k] == name[k];
  }

  /** "<name>" reads back as the kind and no value. */
  lemma KindRendered(k: TokenType)
    ensures Unrender("<" + LowerName(k) + ">") == Some((k, None))
  {
    var name := LowerName(k);
    var s := "<" + name + ">";
    NameRoundTrip(k);
    assert s[1..|s| - 1] == name;
  }

  /** "<name: value>" reads back as the kind and the value. */
  lemma ValueRendered(k: TokenType, v: string)
    ensures Unrender("<" + LowerName(k) + ": " + v + ">") == Some((k, Some(v)))
  {
    var name := LowerName(k);
    var inner := name + ": " + v;
    var s := "<" + name + ": " + v + ">";
    NameRoundTrip(k);
    assert s == "<" + inner + ">" && s[1..|s| - 1] == inner;
    ColonAfterName(name, v);
    assert inner[..|name|] == name && inner[|name| + 1] == ' ';
    assert inner[|name| + 2..] == v;
  }

  /** The rendering keeps the kind and the value: reading it back gives them. */
  lemma RenderRoundTrip(t: Token)
    ensures Unrender(Render(t)) == Some((t.kind, t.value))
  {
    match t.value
    case None => KindRendered(t.kind);
    case Some(v) => ValueRendered(t.kind, v);
  }

  /** The other direction: whatever reads back is the rendering of what it
      reads back as, so no other text is taken for a token. */
  lemma ReadBackRendered(s: string, pos: nat)
    requires Unrender(s).Some?
    ensures Render(Token(Unrender(s).value.0, pos, Unrender(s).value.1)) == s
  {
    var inner := s[1..|s| - 1];
    var c := IndexOf(inner, ':');
    if c == |inner| {
      BareReadBack(s, Unrender(s).value.0, pos);
    } else {
      ValueReadBack(s, c, Unrender(s).value.0, pos);
    }
  }

  /** "<name>" with the name of k is the rendering of k without a value. */
  lemma BareReadBack(s: string, k: TokenType, pos: nat)
    requires |s| >= 2 && s[0] == '<' && s[|s| - 1] == '>' && LowerName(k) == s[1..|s| - 1]
    ensures Render(Token(k, pos, None)) == s
  {
    assert s == "<" + s[1..|s| - 1] + ">";
  }

  /** "<name: v>" with the name of k is the rendering of k with the value v. */
  lemma ValueReadBack(s: string, c: nat, k: TokenType, pos: nat)
    requires |s| >= 2 && s[0] == '<' && s[|s| - 1] == '>'
    requires c + 1 < |s| - 2 && s[c + 1] == ':' && s[c + 2] == ' ' && LowerName(k) == s[1..c + 1]
    ensures Render(Token(k, pos, Some(s[c + 3..|s| - 1]))) == s
  {
    assert s == "<" + s[1..c + 1] + ": " + s[c + 3..|s| - 1] + ">";
  }



}
