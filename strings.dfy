/** The JavaScript string primitives the filters rely on: an ASCII-only
    `toLowerCase`, `includes` and `substring`. */
module JsStrings {

  predicate IsUpper(ch: char) {
    'A' <= ch <= 'Z'
  }

  /** `toLowerCase` on one character, restricted to ASCII letters. */
  function LowerChar(ch: char): (r: char)
    ensures !IsUpper(r)
    ensures IsUpper(ch) ==> 'a' <= r <= 'z' && r as int - ch as int == 32
    ensures !IsUpper(ch) ==> r == ch
  {
    if IsUpper(ch) then (ch as int + 32) as char else ch
  }

  predicate NoUpper(s: string) {
    forall i :: 0 <= i < |s| ==> !IsUpper(s[i])
  }

  /** `String.prototype.toLowerCase`, ASCII letters only. */
  function ToLower(s: string): (r: string)
    ensures |r| == |s| && NoUpper(r)
    ensures forall i :: 0 <= i < |s| && !IsUpper(s[i]) ==> r[i] == s[i]
    ensures forall i :: 0 <= i < |s| && IsUpper(s[i]) ==> r[i] as int == s[i] as int + 32
  {
    seq(|s|, i requires 0 <= i < |s| => LowerChar(s[i]))
  }

  /** Lower-casing twice is lower-casing once. */
  lemma ToLowerIdempotent(s: string)
    ensures ToLower(ToLower(s)) == ToLower(s)
  {
  }

  /** `q` occurs in `s` starting at position `i`. */
  predicate MatchesAt(s: string, q: string, i: int) {
    0 <= i && i + |q| <= |s| && s[i..i + |q|] == q
  }

  /** `String.prototype.includes`: `q` occurs somewhere in `s`. */
  function Includes(s: string, q: string): (r: bool)
    ensures r ==> |q| <= |s|
    ensures r ==> forall k :: 0 <= k < |q| ==> q[k] in s
    ensures q <= s ==> r
  {
    assert q <= s ==> MatchesAt(s, q, 0);
    exists i | 0 <= i <= |s| - |q| :: MatchesAt(s, q, i)
  }

  /** Every string includes the empty string. */
  lemma IncludesEmpty(s: string)
    ensures Includes(s, "")
  {
    assert MatchesAt(s, "", 0);
  }

  function Clamp(n: int, len: nat): (r: nat)
    ensures r <= len
  {
    if n < 0 then 0 else if n > len then len else n
  }

  /** `String.prototype.substring(start, end)`: both bounds are clamped to
      `[0, |s|]` and swapped when the start is past the end. */
  function Substring(s: string, start: int, end: int): (r: string)
    ensures 0 <= start <= end <= |s| ==> r == s[start..end]
    ensures start <= 0 && |s| <= end ==> r == s
    ensures end <= start <= |s| && 0 <= end ==> r == s[end..start]
    ensures |r| <= |s|
  {
    var a, b := Clamp(start, |s|), Clamp(end, |s|);
    if a <= b then s[a..b] else s[b..a]
  }

  /** Cutting a string to its own length leaves it whole. */
  lemma SubstringWhole(q: string)
    ensures Substring(q, 0, |q|) == q
  {
  }

  /** Looking for `q` inside the first `|q|` characters of `s` is the same as
      asking whether `q` is a prefix of `s`: a window no longer than `q` can
      contain `q` only at position 0 and only when it has exactly `q`'s length. */
  lemma {:induction false} IncludesInHeadIsPrefix(s: string, q: string)
    ensures Includes(Substring(s, 0, |q|), q) <==> q <= s
  {
    var head := Substring(s, 0, |q|);
    if Includes(head, q) {
      var i :| 0 <= i <= |head| - |q| && MatchesAt(head, q, i);
      assert |head| <= |q|;
      assert i == 0 && |head| == |q|;
      assert head == s[..|q|];
    }
    if q <= s {
      assert head == s[..|q|] == q;
      assert MatchesAt(head, q, 0);
    }
  }

  /** A string cannot include a query holding a character it lacks. */
  lemma NotIncludedWhenCharMissing(s: string, q: string, k: int)
    requires 0 <= k < |q| && q[k] !in s
    ensures !Includes(s, q)
  {
  }
}
