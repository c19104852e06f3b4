/** Syntax errors of the parser (class `ParserError` of parser.py): a message,
    the position of the token it is about, whether that token itself is the
    culprit (`target`), and the one-line report `print` writes for it. */
module ParserErrors {
  import opened Wrappers
  import opened Decimal

  datatype ParserError = ParserError(message: string, pos: nat, target: bool := false)

  /** What Python raises when `print` indexes past the end of the context. */
  const IndexErrorMessage: string := "string index out of range"

  /** The eight spaces and the quote that open the context window. */
  const WindowOpening: string := "        \""

  function Min(a: int, b: int): int {
    if a < b then a else b
  }

  /** Python's `s[a:b]` for bounds that are not negative: both are clipped
      to the length, and a slice that would run backwards is empty. */
  function Slice(s: string, a: nat, b: nat): (r: string)
    ensures |r| == if Min(b, |s|) <= a then 0 else Min(b, |s|) - a
    ensures a <= b <= |s| ==> r == s[a..b]
  {
    var hi := Min(b, |s|);
    if hi <= a then [] else s[a..hi]
  }

  /** The report's first part: the message and the position in decimal. */
  function Heading(e: ParserError): string {
    e.message + " at position " + NatToString(e.pos)
  }

  /** The heading begins with the message and ends with the position in decimal. */
  lemma HeadingEndsInPosition(e: ParserError)
    ensures var r, d := Heading(e), NatToString(e.pos);
            e.message <= r && |d| < |r| && r[|r| - |d|..] == d
  {
    assert Heading(e) == (e.message + " at position ") + NatToString(e.pos);
  }

  /** Where the window starts: `preview` characters before the position, or 0. */
  function WindowStart(pos: nat, preview: nat): (start: nat)
    ensures start <= pos && pos - start == Min(pos, preview)
  {
    if pos >= preview then pos - preview else 0
  }

  /** `ParserError.print(context, preview, postview)`, returning the line it
      prints. An empty context (or `None`) gives the heading alone; otherwise
      the heading is followed by a window on the context in which the
      character at the position is marked: `[c]` when it is the culprit,
      `[x] c` when something is missing before it, `[x]` past the end. */
  function Printed(e: ParserError, context: string, preview: nat := 10, postview: nat := 5): (r: Result<string, string>)
    ensures r.Failure? <==> context != [] && e.target && e.pos >= |context|
    ensures r.Failure? ==> r.error == IndexErrorMessage
    ensures r.Success? ==> Heading(e) <= r.value
    ensures context == [] ==> r == Success(Heading(e))
  {
    var heading := Heading(e);
    if context == [] then Success(heading)
    else
      var start := WindowStart(e.pos, preview);
      var mid := Min(|context|, e.pos + 1);
      var end := Min(|context|, e.pos + 1 + postview);
      var before := heading + WindowOpening + Slice(context, start, e.pos);
      if e.target && e.pos >= |context| then Failure(IndexErrorMessage)
      else
        var marker :=
          if e.target then "[" + [context[e.pos]] + "]"
          else if e.pos < |context| then "[x] " + [context[e.pos]]
          else "[x]";
        Success(before + marker + Slice(context, mid, end) + "\"")
  }

  /** Inside the context, the window shows the `preview` characters before the
      position (fewer near the start), the marked character, and the
      `postview` characters after it (fewer near the end), all in order. */
  lemma PrintedWindow(e: ParserError, context: string, preview: nat, postview: nat)
    requires e.pos < |context|
    ensures var before := context[WindowStart(e.pos, preview)..e.pos];
            var after := context[e.pos + 1..Min(|context|, e.pos + 1 + postview)];
            var marker := if e.target then "[" + [context[e.pos]] + "]" else "[x] " + [context[e.pos]];
            && |before| == Min(e.pos, preview)
            && |after| == Min(|context| - e.pos - 1, postview)
            && Printed(e, context, preview, postview) ==
               Success(Heading(e) + WindowOpening + before + marker + after + "\"")
  {
  }

  /** Past the end of the context, a missing-token report shows the last
      `preview` characters and a bare `[x]` marker. */
  lemma PrintedPastEnd(e: ParserError, context: string, preview: nat, postview: nat)
    requires context != [] && |context| <= e.pos && !e.target
    ensures Printed(e, context, preview, postview) ==
            Success(Heading(e) + WindowOpening + Slice(context, WindowStart(e.pos, preview), e.pos) + "[x]" + "\"")
    ensures |Slice(context, WindowStart(e.pos, preview), e.pos)| <= preview
  {
    var start := WindowStart(e.pos, preview);
    var before := Heading(e) + WindowOpening + Slice(context, start, e.pos);
    assert Min(|context|, e.pos + 1) == |context| && Min(|context|, e.pos + 1 + postview) == |context|;
    assert Slice(context, |context|, |context|) == [];
    assert Printed(e, context, preview, postview) == Success(before + "[x]" + [] + "\"");
    assert before + "[x]" + [] + "\"" == before + "[x]" + "\"";
  }

  /** The report of the missing operator in "(5.0 6. 1.) * 8.0" at position 5:
      the heading, then the window `"(5.0 [x] 6. 1.)"`. */
  lemma HeadingExample()
    ensures Heading(ParserError("Expected operator", 5)) == "Expected operator at position 5"
  {
    assert NatToString(5) == "5";
  }

  lemma PrintedExample()
    ensures Printed(ParserError("Expected operator", 5), "(5.0 6. 1.) * 8.0") ==
            Success(Heading(ParserError("Expected operator", 5)) + WindowOpening + "(5.0 " + "[x] 6" + ". 1.)" + "\"")
  {
    var context := "(5.0 6. 1.) * 8.0";
    var e := ParserError("Expected operator", 5);
    PrintedWindow(e, context, 10, 5);
    assert WindowStart(5, 10) == 0 && Min(|context|, 11) == 11;
    assert context[0..5] == "(5.0 " && context[6..11] == ". 1.)" && context[5] == '6';
    assert "[x] " + ['6'] == "[x] 6";
  }

}
