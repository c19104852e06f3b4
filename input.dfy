/** The cursor (input.py): a reader over a string or a token list that keeps an
    index, answers an end sentinel past the end, and records every symbol it
    advances over. `StringInput` is an `Input<char>` whose sentinel is '\0';
    `TokenInput` is an `Input<Token>` whose sentinel is the list's last token. */
module Inputs {
  import opened Tokens

  class Input<T> {
    /** The symbols read, fixed for the cursor's lifetime. */
    const content: seq<T>
    /** What `current()` answers past the end (`get_end()`). */
    const end: T
    /** `get_index()`: the number of `next()` calls made so far. */
    var index: nat
    /** `get_record()`: what `next()` passed over since the last `clear_record()`. */
    var record: seq<T>

    /** A new cursor stands at index 0 with an empty record. */
    constructor (content: seq<T>, end: T)
      ensures this.content == content && this.end == end
      ensures index == 0 && record == []
    {
      this.content := content;
      this.end := end;
      index := 0;
      record := [];
    }

    /** `current()`: the symbol at the index, or the sentinel past the end. */
    function Current(): (c: T)
      reads this
      ensures index < |content| ==> c == content[index]
      ensures |content| <= index ==> c == end
    {
      if index < |content| then content[index] else end
    }

    /** `next()`: records the current symbol, then moves one step forward. */
    method Next()
      modifies this
      ensures index == old(index) + 1
      ensures record == old(record) + [old(Current())]
    {
      record := record + [Current()];
      index := index + 1;
    }

    /** `clear_record()`: empties the record; the index stays where it is. */
    method ClearRecord()
      modifies this`record
      ensures record == []
    {
      record := [];
    }
  }

  /** `StringInput(s)`. */
  method NewStringInput(s: string) returns (inp: Input<char>)
    ensures fresh(inp) && inp.content == s && inp.end == '\0'
    ensures inp.index == 0 && inp.record == []
  {
    inp := new Input(s, '\0');
  }

  /** `TokenInput(tokens)`: its sentinel is the last token, so the list may not be empty. */
  method NewTokenInput(tokens: seq<Token>) returns (inp: Input<Token>)
    requires |tokens| > 0
    ensures fresh(inp) && inp.content == tokens && inp.end == tokens[|tokens| - 1]
    ensures inp.index == 0 && inp.record == []
  {
    inp := new Input(tokens, tokens[|tokens| - 1]);
  }
}
