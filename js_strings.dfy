/**
 * JavaScript's view of a string's length. A Dafny `string` is a sequence of
 * Unicode scalar values; a JavaScript string is a sequence of UTF-16 code
 * units, so `s.length` counts a character above U+FFFF (a surrogate pair)
 * twice.
 */
module JsStrings {

  /** The number of UTF-16 code units a character takes. */
  function CodeUnits(c: char): (n: nat)
    ensures n == 1 <==> c as int <= 0xFFFF
    ensures n == 2 <==> c as int > 0xFFFF
  {
    if c as int > 0xFFFF then 2 else 1
  }

  /** `s.length` in JavaScript. */
  function JsLength(s: string): (n: nat)
    ensures |s| <= n <= 2 * |s|
  {
    if s == [] then 0 else CodeUnits(s[0]) + JsLength(s[1..])
  }

  /** Within the Basic Multilingual Plane, JavaScript's length is the number of characters. */
  lemma {:induction false} JsLengthBmp(s: string)
    requires forall i :: 0 <= i < |s| ==> s[i] as int <= 0xFFFF
    ensures JsLength(s) == |s|
  {
    if s != [] {
      assert forall i :: 0 <= i < |s[1..]| ==> s[1..][i] == s[i + 1];
      JsLengthBmp(s[1..]);
    }
  }

  /** Lengths add up over concatenation. */
  lemma {:induction false} JsLengthAppend(a: string, b: string)
    ensures JsLength(a + b) == JsLength(a) + JsLength(b)
  {
    if a == [] {
      assert a + b == b;
    } else {
      assert (a + b)[1..] == a[1..] + b;
      JsLengthAppend(a[1..], b);
    }
  }

  /** Three emoji are six code units: `"😀😀😀".length == 6`. */
  lemma SurrogatePairsCountTwice()
    ensures |"\U{1F600}\U{1F600}\U{1F600}"| == 3
    ensures JsLength("\U{1F600}\U{1F600}\U{1F600}") == 6
  {
    var e := "\U{1F600}";
    assert "\U{1F600}\U{1F600}\U{1F600}" == e + e + e;
    JsLengthAppend(e + e, e);
    JsLengthAppend(e, e);
  }
}
