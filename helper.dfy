/** Character ranges (helper.py) and the digit set the lexer builds from one. */
module Helper {

  /** Dafny characters are Unicode scalar values, so a range may not run
      across the surrogate block that Python strings can still hold. */
  predicate NoSurrogateBetween(start: char, end: char) {
    end < start || end as int < 0xD800 || 0xDFFF < start as int
  }

  /** `char_range(start, end)`: every character from `start` to `end`, both
      included, in increasing code order; empty when `end` comes before `start`. */
  function CharRange(start: char, end: char): (r: seq<char>)
    requires NoSurrogateBetween(start, end)
    ensures |r| == if start <= end then end as int - start as int + 1 else 0
    ensures forall c :: c in r <==> start <= c <= end
    ensures forall j, k :: 0 <= j < k < |r| ==> r[j] < r[k]
    ensures start <= end ==> r[0] == start && r[|r| - 1] == end
  {
    if end < start then []
    else
      var n := end as int - start as int + 1;
      var r := seq(n, k requires 0 <= k < n => (start as int + k) as char);
      assert forall k :: 0 <= k < n ==> r[k] as int == start as int + k;
      forall c | start <= c <= end
        ensures c in r
      {
        var k := c as int - start as int;
        assert r[k] as int == c as int;
        assert r[k] == c;
      }
      r
  }

  /** A decimal digit character. */
  predicate IsDigit(c: char) {
    '0' <= c <= '9'
  }

  /** The lexer's `digits` list: `char_range('0', '9')`. */
  const Digits: seq<char> := CharRange('0', '9')

  /** The digit list holds exactly the ten ASCII digits, in order. */
  lemma DigitsAreDecimal()
    ensures Digits == "0123456789"
    ensures forall c :: c in Digits <==> IsDigit(c)
  {
    var d := Digits;
    assert |d| == 10;
    forall k | 0 <= k < 10
      ensures d[k] == "0123456789"[k]
    {
      assert d[0] == '0' && d[9] == '9';
      assert forall j :: 0 <= j < 9 ==> d[j] < d[j + 1];
    }
  }
}
