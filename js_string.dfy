/**
 * JavaScript strings are sequences of UTF-16 code units: `length` counts
 * them, and a regular expression without the `u` flag matches them one by
 * one. A character at or above U+10000 takes two code units, a surrogate
 * pair.
 */
module JsString {

  /** The code units of one character. */
  function Utf16(c: char): (u: seq<int>)
    ensures c as int < 0x10000 ==> u == [c as int]
    ensures c as int >= 0x10000 ==> |u| == 2 && 0xD800 <= u[0] < 0xDC00 && 0xDC00 <= u[1] < 0xE000
  {
    var v := c as int;
    if v < 0x10000 then [v]
    else [0xD800 + (v - 0x10000) / 0x400, 0xDC00 + (v - 0x10000) % 0x400]
  }

  /** The code units of a string, in order. */
  function CodeUnits(s: string): (u: seq<int>)
    ensures |u| >= |s|
    ensures |u| == 0 <==> s == []
  {
    if s == [] then [] else Utf16(s[0]) + CodeUnits(s[1..])
  }

  /** `s.length`. */
  function Length(s: string): nat
  {
    |CodeUnits(s)|
  }

  /** The code units of a concatenation are the concatenated code units. */
  lemma {:induction false} CodeUnitsAppend(a: string, b: string)
    ensures CodeUnits(a + b) == CodeUnits(a) + CodeUnits(b)
  {
    if a != [] {
      assert (a + b)[1..] == a[1..] + b;
      assert (a + b)[0] == a[0];
      CodeUnitsAppend(a[1..], b);
    } else {
      assert a + b == b;
    }
  }

  /**
   * For a property no surrogate and nothing at or above U+10000 has, some
   * code unit has it exactly when some character has it.
   */
  lemma {:induction false} SomeUnitIffSomeChar(s: string, p: int -> bool)
    requires forall x :: 0xD800 <= x < 0xE000 ==> !p(x)
    requires forall x :: 0x10000 <= x ==> !p(x)
    ensures (exists j :: 0 <= j < |CodeUnits(s)| && p(CodeUnits(s)[j])) <==> (exists i :: 0 <= i < |s| && p(s[i] as int))
  {
    if s != [] {
      var head, tail := Utf16(s[0]), CodeUnits(s[1..]);
      assert CodeUnits(s) == head + tail;
      SomeUnitIffSomeChar(s[1..], p);
      if exists j :: 0 <= j < |CodeUnits(s)| && p(CodeUnits(s)[j]) {
        var j :| 0 <= j < |CodeUnits(s)| && p(CodeUnits(s)[j]);
        if j < |head| {
          assert p(s[0] as int);
        } else {
          assert p(tail[j - |head|]);
          var i :| 0 <= i < |s[1..]| && p(s[1..][i] as int);
          assert p(s[i + 1] as int);
        }
      }
      if exists i :: 0 <= i < |s| && p(s[i] as int) {
        var i :| 0 <= i < |s| && p(s[i] as int);
        if i == 0 {
          assert CodeUnits(s)[0] == s[0] as int;
        } else {
          assert p(s[1..][i - 1] as int);
          var j :| 0 <= j < |tail| && p(tail[j]);
          assert CodeUnits(s)[j + |head|] == tail[j];
        }
      }
    }
  }
}
