# calculator-parser, modelled in Dafny

The repository is a small calculator for arithmetic on decimal literals. It
has three stages:
- The lexer (`lexer.py`) turns a line into tokens. It reads the line through a
  recording cursor (`input.py`).
- The recursive-descent parser (`parser.py`) turns the tokens into a syntax
  tree (`ast.py`) and a list of positioned syntax errors. It reads the tokens
  through the same kind of cursor.
- The tree evaluates itself with `get_value`.

The Dafny project models each stage in two layers:

- **Specification functions.** These are pure functions over the input string
  or token list and an index. They appear in `LexerSpec` and `ParserSpec`,
  together with the value-level modules `Literal`, `Tokens`, `Ast` and
  `ParserErrors`. The properties are proved about these functions.
- **Imperative code in the source's own shape.** `Inputs.Input<T>` is the
  cursor class: its index and record are mutable fields, and `Next` and
  `ClearRecord` update them. `Lexer` and `Parser` hold the lex and parse
  functions as methods that advance a shared cursor. The parser also appends
  to a shared `ErrorLog`, the `errors` list of the source. Each method is
  proved to compute exactly its specification function: `Lexer.Parse(s)`
  returns `Tokenize(s, 0)`, and `Parser.Parse(ts)` returns
  `ParserSpec.Parse(ts)`.

`Calculator.LexedIsParsable` connects the two stages. A lexed line without
ERROR tokens is a token list the parser is defined on, and its positions are
in order. So `ParserSpec.ParseErrorsInOrder` applies to it: every error is
reported in position order.

### Behaviour of the code as written

Where the code and its design description disagree, the model follows the
code:

- **Dropped operations.** `parse_E_` and `parse_T_` build operation nodes, but
  every path through them ends by returning `None`, and `parse_E`/`parse_T`
  then return their left operand. So `parse` only ever yields the leading
  number (under any opening parentheses) or `None`. `2. + 3. * 4.` parses to
  `Value(2.)` without errors, not to a tree worth 14 (`ParserSpec.OperationsDropped`).
- **Division by zero.** Python's float division by zero raises
  `ZeroDivisionError`. It does not produce infinity, and `Ast.Apply` models
  the raise.
- **Position of END.** The END token stands at the first `'\0'` of the line:
  the cursor's sentinel ends the loop there. When there is no `'\0'`, it
  stands at the length.
- **Trailing spaces.** Spaces after the last token of a line make
  `parse_next_token` try a number at the end and yield an ERROR token before
  END (`LexerSpec.TrailingSpaces`).
- **Bare integers.** An integer such as `5` is rejected, as the grammar
  requires (`LexerSpec.IntegerNeedsPoint`).
- **Spin on `(`.** A `(` that follows stray `)` at top level makes the outer
  loop of `parse` spin forever: neither of its branches consumes `(`. The
  model returns `Diverges(at, errors)` there (`ParserSpec.SpinsOnParenthesis`).

Floats are exact reals. Exceptions become `Result`/`Outcome` values carrying
the message the source raises. Python's `str(n)` is `Decimal.NatToString`.

## Model

| member | source | states |
|---|---|---|
| Helper.CharRange | helper.py:3-5 | exactly the characters from start to end, in increasing order, empty when end < start |
| Helper.DigitsAreDecimal | lexer.py:9 | the `digits` list is "0123456789" and holds exactly the decimal digits |
| Decimal.NatToString | lexer.py:17 | `str(n)` has at least one digit |
| Decimal.NatToStringCanonical | lexer.py:17 | `str(n)` is a canonical decimal numeral whose value is n |
| Decimal.LeadingDigitBound | lexer.py:17 | a numeral without a leading zero is worth at least 10^(length-1) |
| Decimal.CanonicalRoundTrip | lexer.py:17 | every canonical numeral is `str` of its value (the other half of the round trip) |
| Literal.DigitRun | lexer.py:84-85 | the end of the longest run of digits from j: all digits before it, a non-digit or the end at it |
| Literal.DigitRunPrefix | lexer.py:84-85 | a digit run found in a prefix that stops before its end, or at a non-digit, is the run in the whole text |
| Literal.DigitRunIs | lexer.py:91-92 | any digit run that stops at a non-digit is the one DigitRun finds |
| Literal.MantissaRuns | lexer.py:81-92 | in a mantissa the first digit run stops at the point and the second at the end |
| Literal.PrefixRuns | lexer.py:81-92 | the same holds for a mantissa that starts a longer text and is followed by a non-digit |
| Literal.FloatTextShape | lexer.py:77-92 | in a float text the first non-digit is the point, and the next digit run closes the mantissa |
| Literal.FloatTextEnd | lexer.py:94-116 | a float text ends in a digit or the point, so a literal carries at most one suffix |
| Literal.MantissaEnd | lexer.py:77-92 | a mantissa ends in a digit or the point |
| Literal.ExponentEnd | lexer.py:98-111 | an exponent ends in a digit |
| Literal.MantissaValue | token.py:26 | the value of "whole.fraction" is non-negative |
| Literal.Scale | token.py:26 | scaling a non-negative mantissa by a power of ten stays non-negative |
| Literal.FloatValue | token.py:26 | `float()` of a float text is a non-negative real |
| Literal.IntegerLiteralValue | token.py:20-26 | "n." is a float text worth exactly n |
| Literal.PointAfterDigits | token.py:26 | digits followed by a point are a float text worth the digits' value |
| Literal.MarkedNumeral | token.py:26 | "e" or "e-" followed by a canonical numeral is an exponent worth plus or minus its value |
| Literal.ScaledMantissa | token.py:26 | a mantissa followed by an exponent is worth the mantissa scaled by the exponent's value |
| Literal.ExponentScales | token.py:26 | "m" + "e" + str(n) is worth m times 10^n |
| Literal.NegativeExponentScales | token.py:26 | "m" + "e-" + str(n) is worth m divided by 10^n |
| Tokens.Code | token.py:3-12 | the enum codes are 0 to 7, and 127 belongs to END alone |
| Tokens.FromCode | token.py:3-12 | `TokenType(c)` exists exactly for the nine enum codes and gives back the code |
| Tokens.CodeRoundTrip | token.py:3-12 | each kind is found again from its code, so the codes are distinct |
| Tokens.LowerName | token.py:30-32 | `name.lower()`: a name of at least three lower-case letters |
| Tokens.KindOfLowerName | token.py:30-32 | the inverse of `name.lower()` behind the rendering round trip: a kind read from a name has that name |
| Tokens.NumericText | token.py:20-24 | the text converted drops exactly one last character, and only when that is f, F, l or L |
| Tokens.LiteralNumericText | token.py:20-26 | stripping a literal's suffix leaves a float text, so `float()` never fails on a lexed number |
| Tokens.NumericValue | token.py:20-26 | `numeric_value()` of a literal is a non-negative real |
| Tokens.SuffixIgnored | token.py:23-26 | a suffix letter changes neither the text converted nor the value |
| Tokens.Render | token.py:28-32 | `str(token)` is text in angle brackets; what it means is stated by RenderRoundTrip, KindRendered and ValueRendered |
| Tokens.IndexOf | token.py:28-32 | the first index of a character, with no earlier occurrence; a helper of the inverse of `str(token)` |
| Tokens.Unrender | token.py:28-32 | the independent inverse of `str(token)`: it reads only text in angle brackets |
| Tokens.NameRoundTrip | token.py:30-32 | every kind's lower-case name holds no ':' and reads back as that kind |
| Tokens.KindRendered | token.py:30-32 | `<name>` reads back as the kind and no value |
| Tokens.ValueRendered | token.py:30-32 | `<name: v>` reads back as the kind and the value v, whatever v holds |
| Tokens.RenderRoundTrip | token.py:28-32 | `str(token)` keeps the kind and the value: they read back from the rendering |
| Tokens.ReadBackRendered | token.py:28-32 | the other direction: any text that reads back is the rendering of what it reads back as |
| Inputs.Input.constructor | input.py:8-9 | a new cursor stands at index 0 with an empty record |
| Inputs.Input.Current | input.py:42-46 | the symbol at the index, or the sentinel past the end |
| Inputs.Input.Next | input.py:48-51 | the index moves one step and the record gains the symbol that was current |
| Inputs.Input.ClearRecord | input.py:59-60 | the record becomes empty |
| Inputs.NewStringInput | input.py:36-40 | a string cursor at 0, whose sentinel is '\0' |
| Inputs.NewTokenInput | input.py:64-68 | a token cursor at 0, whose sentinel is the last token of the list |
| LexerSpec.AtSentinel | input.py:42-46 | `At`, the string cursor's `current()`: it answers '\0' exactly past the end or at a '\0' inside the line |
| LexerSpec.MessagesEndInIndex | lexer.py:15-28 | the `expect_char`, `expect_range` and `expect_other` messages begin with "Expected " and end with the index in decimal |
| LexerSpec.OperatorKind | lexer.py:127-134 | the dispatch table: a kind exactly for the six operator characters, and that kind is lexed from that character |
| LexerSpec.OperatorRoundTrip | lexer.py:31-71 | each of the six operator kinds has its character, and that character dispatches back to it |
| LexerSpec.SkipSpaces | lexer.py:122-123 | the first non-space from i on, with only spaces before it |
| LexerSpec.SkipToBoundary | lexer.py:139-140 | the first space or '\0' from i on, with neither before it |
| LexerSpec.OptionalSuffix | lexer.py:94-95 | steps over one character exactly when it is a suffix letter |
| LexerSpec.ScanExponent | lexer.py:99-116 | the exponent's end, or the "digit" or "sign or digit" error where it fails |
| LexerSpec.AfterMantissa | lexer.py:94-118 | after the mantissa: a suffix, an exponent, or nothing more |
| LexerSpec.ScanFraction | lexer.py:91-118 | the fraction digits, then what follows the mantissa |
| LexerSpec.ScanLeadingPoint | lexer.py:77-80 | '.' and at least one digit, or the "digit" error after the point |
| LexerSpec.ScanPoint | lexer.py:87-118 | the point after the whole digits, then the fraction, or the "Expected input '.'" error at the missing point |
| LexerSpec.ScanWholePart | lexer.py:81-87 | digits and the point, or the "Expected input '.'" error where the point is missing |
| LexerSpec.ScanNumber | lexer.py:73-118 | `parse_number`: the literal's end, or the error and where it was raised; it rejects at i only when i holds neither a digit nor '.' |
| LexerSpec.NextToken | lexer.py:121-142 | `parse_next_token`: the token starts after the spaces; an operator is one character; a NUMBER carries its exact text, which is a literal; an ERROR carries the raised message and recovery runs to the next space or end |
| LexerSpec.FirstNul | lexer.py:148 | the index where the cursor first answers the sentinel |
| LexerSpec.Tokenize | lexer.py:144-152 | `parse` returns at least one token |
| LexerSpec.TokenizeIsStream | lexer.py:144-152 | the list ends with the only END, at the first '\0'; earlier tokens stand at strictly increasing positions before it; every NUMBER's text is a literal found at its position |
| LexerSpec.StreamCons | lexer.py:144-152 | a token before a stream of the rest of the line makes a stream of the line |
| LexerSpec.FirstNulSkip | lexer.py:148 | the first '\0' is the same seen from any earlier index with no '\0' between |
| LexerSpec.MantissaAt | lexer.py:77-92 | digits, a point and digits, at least two characters, are a mantissa |
| LexerSpec.ExponentAt | lexer.py:98-111 | a marker, an optional sign and at least one digit are an exponent |
| LexerSpec.LiteralAt | lexer.py:94-118 | a float text with an optional suffix letter is a literal |
| LexerSpec.ExponentDigitsSound | lexer.py:101-116 | after a mantissa and a marker, a first exponent digit makes the rest of the scan a literal |
| LexerSpec.ScanExponentSound | lexer.py:98-116 | an accepted exponent after a mantissa completes a literal |
| LexerSpec.ScanFractionSound | lexer.py:91-118 | an accepted fraction after digits and a point completes a literal |
| LexerSpec.LeadingPointSound | lexer.py:77-80 | a number accepted from a leading '.' is a literal |
| LexerSpec.PointSound | lexer.py:84-87 | digits followed by an accepted point and fraction are a literal |
| LexerSpec.WholePartSound | lexer.py:81-87 | a number accepted from a leading digit is a literal |
| LexerSpec.ScanNumberSound | lexer.py:73-118 | whatever `parse_number` accepts is a literal |
| LexerSpec.MantissaScanned | lexer.py:77-92 | a mantissa standing anywhere in the line and not followed by a digit is scanned to its end |
| LexerSpec.LeadingPointScanned | lexer.py:77-80 | '.' then digits up to a non-digit: the mantissa ends there |
| LexerSpec.WholePartScanned | lexer.py:81-92 | digits, '.', digits up to a non-digit: the mantissa ends there |
| LexerSpec.MantissaEnds | lexer.py:94-118 | after a mantissa followed by no exponent marker the literal ends, taking one suffix letter |
| LexerSpec.ExponentScanned | lexer.py:98-116 | an exponent is scanned to its end, then the optional suffix |
| LexerSpec.FloatTextScanned | lexer.py:73-118 | a float text standing anywhere in the line and followed by neither a digit nor an exponent marker is accepted up to its end, or its suffix letter |
| LexerSpec.PartsScanned | lexer.py:73-118 | a mantissa and an optional exponent are accepted up to their end, or the suffix letter after it |
| LexerSpec.LiteralScanned | lexer.py:73-118 | every literal followed by a delimiter is accepted exactly to its end, whatever text precedes it |
| LexerSpec.LiteralLexed | lexer.py:121-142 | a literal followed by a delimiter lexes to one NUMBER token carrying its text, wherever it stands in the line |
| LexerSpec.LiteralAlone | lexer.py:144-152 | a literal on its own lexes to its NUMBER token, then END |
| LexerSpec.TrailingSpaces | lexer.py:121-150 | from any index after which the line holds only spaces (at least one), the lexer yields an ERROR at the end, then END |
| LexerSpec.PointMessage | lexer.py:15-19 | the message for a missing '.' at 1 is "Expected input '.' at positition 1", misspelling included |
| LexerSpec.SignOrDigitMessage | lexer.py:27-28 | the message for a missing exponent digit at 3 is "Expected sign or digit at position 3" |
| LexerSpec.IntegerNeedsPoint | lexer.py:81-87 | "5" is an error: "Expected input '.' at positition 1" |
| LexerSpec.ExponentNeedsDigits | lexer.py:98-108 | "1.e" is an error: "Expected sign or digit at position 3" |
| LexerSpec.TabIsNotSpace | lexer.py:122-140 | a tab is neither skipped nor a boundary: it is lexed as a failed number |
| LexerSpec.SumOperators | lexer.py:121-142 | the '(', '+' and ')' of "(1. + .5e2)" lex to one-character tokens at 0, 4 and 10 |
| LexerSpec.SumFirstNumber | lexer.py:121-142 | the "1." of "(1. + .5e2)" lexes to a NUMBER at 1 |
| LexerSpec.SumSecondNumber | lexer.py:121-142 | the ".5e2" of "(1. + .5e2)" lexes to a NUMBER at 6, after the space |
| LexerSpec.SumLexed | lexer.py:144-152 | "(1. + .5e2)" lexes to six tokens, END at 11 |
| Lexer.CharLists | lexer.py:9-12 | the four character lists hold exactly the digits, exponent markers, signs and suffix letters |
| Lexer.ExpectChar | lexer.py:15-19 | steps over the expected character, or fails with its message and stays |
| Lexer.ExpectRange | lexer.py:21-25 | steps over a character of the list, or fails with its message and stays |
| Lexer.ExpectOther | lexer.py:27-28 | always fails with the message at the current index |
| Lexer.ParseOperator | lexer.py:31-71 | the six `parse_plus` … `parse_rparen`: a token of the kind at the start index, one character consumed |
| Lexer.SkipDigits | lexer.py:84-85 | the loop stops at DigitRun and records the digits it passed |
| Lexer.Advance | input.py:48-51 | `next()` on the string cursor moves one step and keeps the record of what was passed |
| Lexer.SkipDigitsAndSuffix | lexer.py:110-114 | the loop and the suffix test stop where DigitRun and OptionalSuffix say |
| Lexer.ParseExponent | lexer.py:98-116 | ends where ScanExponent says, failing with its message |
| Lexer.ParseFraction | lexer.py:91-118 | ends where ScanFraction says, failing with its message |
| Lexer.ParseLeadingPoint | lexer.py:77-80 | ends where ScanLeadingPoint says, failing with its message |
| Lexer.ParsePoint | lexer.py:87-118 | ends where ScanPoint says, failing with its message |
| Lexer.ParseWholePart | lexer.py:81-87 | ends where ScanWholePart says, failing with its message |
| Lexer.ParseNumber | lexer.py:73-118 | ends where ScanNumber says; the NUMBER carries the record, which is the text passed over |
| Lexer.ParseNextToken | lexer.py:121-142 | returns NextToken's token and leaves the cursor where it says |
| Lexer.Parse | lexer.py:144-152 | returns exactly Tokenize(s, 0) |
| Ast.Apply | ast.py:23-41 | a known operation applies its arithmetic, failing exactly on a division by zero |
| Ast.GetValue | ast.py:3-46 | every failure is one of the three messages evaluation can raise |
| Ast.ChildValue | ast.py:23-41 | evaluating a child, missing or not, fails only with one of the evaluation messages |
| Ast.GetValueDenotes | ast.py:9-41 | `get_value` succeeds exactly on the trees with no unknown node, no missing child and no division by zero, and then gives the arithmetic value |
| Ast.UnknownFails | ast.py:43-46 | a tree with an unknown node anywhere never evaluates |
| ParserErrors.HeadingEndsInPosition | parser.py:15 | the heading begins with the message and ends with the position in decimal |
| ParserErrors.Slice | parser.py:22-32 | Python slicing with clipped bounds |
| ParserErrors.WindowStart | parser.py:18 | the window opens up to `preview` characters before the position |
| ParserErrors.Printed | parser.py:14-34 | the report starts with the heading; without context it is the heading; it raises exactly for a culprit past the end of the context |
| ParserErrors.PrintedWindow | parser.py:17-32 | inside the context: up to `preview` characters before, the marked character, up to `postview` after |
| ParserErrors.PrintedPastEnd | parser.py:27-32 | past the end: the tail of the context and a bare `[x]` |
| ParserErrors.HeadingExample | parser.py:14-15 | the heading of a missing operator at 5 is "Expected operator at position 5" |
| ParserErrors.PrintedExample | parser.py:14-34 | the report of a missing operator at 5 in "(5.0 6. 1.) * 8.0" |
| ParserSpec.ErrorsJoin | parser.py:43-50 | errors in order on two adjacent ranges are in order on their union |
| ParserSpec.Leading | parser.py:131-152 | the leading number under any opening parentheses, or None |
| ParserSpec.Expect | parser.py:36-40 | steps over the expected kind, or appends "Expected '…'" at the current token |
| ParserSpec.ParseE | parser.py:43-50 | stops before ')' or END, beyond i unless at a term boundary; returns the leading factor; no culprit errors |
| ParserSpec.ParseETail | parser.py:52-84 | stops before ')' or END, beyond i unless already there; always returns None |
| ParserSpec.ParseT | parser.py:86-93 | stops before '+', '-', ')' or END; returns the leading factor |
| ParserSpec.ParseTTail | parser.py:95-129 | stops before '+', '-', ')' or END, beyond i unless already there; always returns None |
| ParserSpec.ParseF | parser.py:131-152 | consumes something exactly on '(' or a number; returns the leading factor |
| ParserSpec.ErrorsInOrderE | parser.py:43-50 | the errors of `parse_E` lie between its first and last token, in position order |
| ParserSpec.ErrorsInOrderETail | parser.py:52-84 | likewise for `parse_E_` |
| ParserSpec.ErrorsInOrderT | parser.py:86-93 | likewise for `parse_T` |
| ParserSpec.ErrorsInOrderTTail | parser.py:95-129 | likewise for `parse_T_` |
| ParserSpec.ErrorsInOrderF | parser.py:131-152 | likewise for `parse_F` |
| ParserSpec.SkipStrays | parser.py:162-165 | skips exactly the run of ')' and reports each as an invalid culprit at its position |
| ParserSpec.Continue | parser.py:167-170 | the outer loop's continuation consumes at least one token and returns None |
| ParserSpec.Resume | parser.py:161-172 | the outer loop keeps the errors so far, adds at least one per stray ')', and spins only on '(' after ')' |
| ParserSpec.Parse | parser.py:155-172 | the result is the leading factor or None, the leading factor when there are no errors; it spins only on '(' after ')' and with errors reported |
| ParserSpec.StraysEnd | parser.py:162-165 | the stray ')' run is non-empty on ')', and when '(' follows it there was one and it ends with ')' |
| ParserSpec.ResumeRound | parser.py:161-170 | one round of the outer loop: the stray ')' errors, then `parse_E_` or `parse_T_`, then the loop again |
| ParserSpec.StraysInOrder | parser.py:162-165 | the stray ')' errors are in position order |
| ParserSpec.ResumeInOrder | parser.py:161-170 | the outer loop appends its errors in position order |
| ParserSpec.ParseErrorsInOrder | parser.py:155-172 | for a position-ordered token list, all errors of `parse` are in position order |
| ParserSpec.NumberForOperator | parser.py:112-118 | a number where `parse_T_` expects an operator reports "Expected operator" at it and continues after it |
| ParserSpec.FactorIsNumber | parser.py:139-143 | a number is a factor on its own, with no error |
| ParserSpec.TermTailEnds | parser.py:119-129 | before '+', '-', ')' or END the rest of the term is empty |
| ParserSpec.NumberTerm | parser.py:86-93 | a number before the end of a term is the whole term |
| ParserSpec.ProductDropped | parser.py:86-109 | a product of two numbers parses without errors to its left factor |
| ParserSpec.OperationsDropped | parser.py:52-93 | a + b * c parses without errors to a's value alone |
| ParserSpec.StrayParenthesis | parser.py:161-165 | "a )" keeps a's value and reports the ')' as the culprit |
| ParserSpec.MissingOperators | parser.py:112-118 | "a b c" reports a missing operator before b and before c |
| ParserSpec.UnseparatedTerm | parser.py:112-118 | three numbers in a row are one term, reporting the missing operators before the second and the third |
| ParserSpec.SpinsOnParenthesis | parser.py:161-170 | "a ) ( b )" spins at the '(' after one stray-')' error |
| Parser.ErrorLog.constructor | parser.py:158 | the error list starts empty |
| Parser.ErrorLog.Append | parser.py:38 | `errors.append(e)` adds e at the end |
| Parser.Advance | input.py:76-79 | `next()` on the token cursor moves one step and keeps the record of what was passed |
| Parser.Expect | parser.py:36-40 | moves the cursor and appends the errors as ParserSpec.Expect |
| Parser.ParseE | parser.py:43-50 | returns, stops and appends exactly as ParserSpec.ParseE |
| Parser.ParseETail | parser.py:52-84 | returns, stops and appends exactly as ParserSpec.ParseETail |
| Parser.ParseETailOperator | parser.py:53-66 | the '+' and '-' alternatives, as ParserSpec.ParseETail |
| Parser.ParseETailMissing | parser.py:69-75 | the missing-operator alternative, as ParserSpec.ParseETail |
| Parser.ParseT | parser.py:86-93 | returns, stops and appends exactly as ParserSpec.ParseT |
| Parser.ParseTTail | parser.py:95-129 | returns, stops and appends exactly as ParserSpec.ParseTTail |
| Parser.ParseTTailOperator | parser.py:96-109 | the '*' and '/' alternatives, as ParserSpec.ParseTTail |
| Parser.ParseTTailMissing | parser.py:112-118 | the missing-operator alternative, as ParserSpec.ParseTTail |
| Parser.ParseF | parser.py:131-152 | returns, stops and appends exactly as ParserSpec.ParseF |
| Parser.ParseParenthesised | parser.py:132-138 | `parse_F_1`: the '(' alternative, as ParserSpec.ParseF |
| Parser.SkipStrayParens | parser.py:162-165 | the inner loop of `parse` stops and appends as ParserSpec.SkipStrays |
| Parser.ParseRound | parser.py:161-170 | one round of the outer loop advances as ParserSpec.Resume, or reports the spin at '(' |
| Parser.Parse | parser.py:155-172 | returns exactly ParserSpec.Parse(tokens) |
| Calculator.LexedIsParsable | lexer.py:144-152 | a lexed line without ERROR tokens is a well-formed, position-ordered parser input |
| Calculator.StreamOrdered | lexer.py:144-152 | the positions of the lexed tokens never decrease, END included |
| Calculator.StreamLiterals | lexer.py:144-152 | an ERROR-free lexed list is closed by END and carries a literal in every NUMBER |

## Left out

- Floating point: literals and arithmetic are exact reals, so rounding, overflow to infinity and NaN are not modelled.
- `Lexer.ParseNextToken` does not state the record it leaves. No caller reads the record after `parse_next_token`.
- The parser is defined only on token lists closed by END, whose NUMBER tokens carry literals and which hold no ERROR token. On an ERROR token `parse_T_` recurses forever without consuming. The lexer's caller does not hand a line with ERROR tokens to the parser: `parse_interactive` prints their messages instead.
- `Parser.Expect` requires the expected kind not to be END. The source asks it only for ')', and stepping over END would move the cursor past the list.
- Where `parse` loops forever, the model returns `Diverges` and does not loop. Python's recursion limit is not modelled either: deep nesting that would raise `RecursionError` parses normally here.
- `parse_interactive` (both files), the `print` in `ParserError.print` and `debug.py` are left out because they are console I/O. `Printed` returns the line instead of printing it.
- `ParserError.print` with `context=None` is modelled as the empty context: both print the heading alone. Negative `preview`/`postview` values are not modelled; they are `nat`.
- `get_index`, `get_end` and `get_record` are the fields `index`, `end` and `record` of `Inputs.Input`. The abstract base class and its two subclasses are one generic class.
- The six `parse_plus` … `parse_rparen` functions are one method, `Lexer.ParseOperator`, parameterised by the kind.
- `char_range` over the surrogate block is not modelled, because Dafny characters exclude surrogates. The project uses it only for '0'..'9'.
- Division by zero fails with Python's message. The alternative design that yields infinity is not modelled.
