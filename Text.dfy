/**
 * The few JavaScript string operations the plugin relies on, on strings modelled
 * as sequences of Unicode scalar values (`seq<char>`).
 */
module Text {

  /** `s.startsWith(p)` */
  predicate IsPrefix(p: string, s: string)
  {
    |p| <= |s| && p == s[..|p|]
  }

  /** `s.includes(q)`: `q` occurs somewhere in `s`; the empty string occurs in every string. */
  predicate Contains(s: string, q: string)
    decreases |s|
  {
    IsPrefix(q, s) || (|s| > 0 && Contains(s[1..], q))
  }

  /** `q` occurs in `s` starting at position `i`. */
  predicate OccursAt(s: string, q: string, i: int)
  {
    0 <= i <= |s| - |q| && s[i..i + |q|] == q
  }

  /** `Contains` agrees with the positional reading "some slice of `s` equals `q`". */
  lemma {:induction false} ContainsAt(s: string, q: string)
    ensures Contains(s, q) <==> exists i :: OccursAt(s, q, i)
    decreases |s|
  {
    if Contains(s, q) {
      if IsPrefix(q, s) {
        assert OccursAt(s, q, 0);
      } else {
        ContainsAt(s[1..], q);
        var i :| OccursAt(s[1..], q, i);
        assert s[i + 1..i + 1 + |q|] == s[1..][i..i + |q|];
        assert OccursAt(s, q, i + 1);
      }
    }
    if exists i :: OccursAt(s, q, i) {
      var i :| OccursAt(s, q, i);
      if i > 0 {
        assert s[1..][i - 1..i - 1 + |q|] == s[i..i + |q|];
        assert OccursAt(s[1..], q, i - 1);
        ContainsAt(s[1..], q);
      } else {
        assert IsPrefix(q, s);
      }
    }
  }

  /** A one-character string occurs only where that character does. */
  lemma {:induction false} ContainsChar(s: string, c: char)
    ensures Contains(s, [c]) <==> c in s
    decreases |s|
  {
    if s != [] {
      ContainsChar(s[1..], c);
      assert s == [s[0]] + s[1..];
    }
  }

  /** Every character of an occurring string occurs in the string searched. */
  lemma ContainsOnlyChars(s: string, q: string, c: char)
    requires Contains(s, q) && c in q
    ensures c in s
  {
    ContainsAt(s, q);
    var i :| OccursAt(s, q, i);
    var k :| 0 <= k < |q| && q[k] == c;
    assert s[i..i + |q|][k] == s[i + k];
  }

  predicate IsAsciiLower(c: char)
  {
    'a' <= c <= 'z'
  }

  predicate IsAsciiUpper(c: char)
  {
    'A' <= c <= 'Z'
  }

  function UpperChar(c: char): char
  {
    if IsAsciiLower(c) then (c as int - 32) as char else c
  }

  function LowerChar(c: char): char
  {
    if IsAsciiUpper(c) then (c as int + 32) as char else c
  }

  /**
   * `s.toUpperCase()`, restricted to the ASCII letters: every lower-case letter
   * becomes its capital, every other character is kept.
   */
  function ToUpper(s: string): (r: string)
    ensures |r| == |s|
    ensures forall i :: 0 <= i < |r| ==> !IsAsciiLower(r[i])
    ensures forall i :: 0 <= i < |s| && !IsAsciiLower(s[i]) ==> r[i] == s[i]
    ensures forall i :: 0 <= i < |s| && IsAsciiLower(s[i]) ==> IsAsciiUpper(r[i]) && LowerChar(r[i]) == s[i]
  {
    seq(|s|, i requires 0 <= i < |s| => UpperChar(s[i]))
  }

  /** `s.toLowerCase()`, restricted to the ASCII letters. */
  function LowerChars(s: string): (r: string)
    ensures |r| == |s|
    ensures forall i :: 0 <= i < |r| ==> !IsAsciiUpper(r[i])
    ensures forall i :: 0 <= i < |s| && !IsAsciiUpper(s[i]) ==> r[i] == s[i]
    ensures forall i :: 0 <= i < |s| && IsAsciiUpper(s[i]) ==> IsAsciiLower(r[i]) && UpperChar(r[i]) == s[i]
  {
    seq(|s|, i requires 0 <= i < |s| => LowerChar(s[i]))
  }
}
