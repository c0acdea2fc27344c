/** JavaScript strings as the form sees them.

    A Dafny `string` is a sequence of Unicode scalar values, while the `length`
    property of a JavaScript string counts UTF-16 code units. The two agree on
    the Basic Multilingual Plane and differ by one for every supplementary-plane
    character (which JavaScript stores as a surrogate pair).
 */
module JsString {

  /** The number of UTF-16 code units that encode `c`. */
  function CodeUnits(c: char): nat {
    if c as int >= 0x1_0000 then 2 else 1
  }

  /** True when `c` is encoded by a single UTF-16 code unit. */
  predicate InBmp(c: char) {
    c as int < 0x1_0000
  }

  /** JavaScript's `s.length`: the number of UTF-16 code units of `s`. */
  function Length(s: string): (n: nat)
    ensures |s| <= n <= 2 * |s|
    ensures n == 0 <==> s == []
  {
    if s == [] then 0 else CodeUnits(s[0]) + Length(s[1..])
  }

  /** `s.length` equals the number of characters exactly when every character
      lies in the Basic Multilingual Plane. */
  lemma {:induction false} LengthIsCharCount(s: string)
    ensures Length(s) == |s| <==> forall i :: 0 <= i < |s| ==> InBmp(s[i])
  {
    if s != [] {
      LengthIsCharCount(s[1..]);
      assert forall i :: 1 <= i < |s| ==> s[i] == s[1..][i - 1];
    }
  }
}
