/** The string and stream primitives the search predicate is built from. */
module Text {

  /** Java's `list.stream().anyMatch(p)`: some element of the list satisfies `p`. */
  function AnyMatch<T>(xs: seq<T>, p: T -> bool): (r: bool)
    ensures r <==> exists x :: x in xs && p(x)
  {
    if |xs| == 0 then false
    else if p(xs[0]) then true
    else
      assert xs == [xs[0]] + xs[1..];
      AnyMatch(xs[1..], p)
  }

  /** Java's `s.contains(sub)`: `sub` occurs somewhere in `s` as a contiguous block. */
  predicate Contains(s: string, sub: string): (r: bool)
    ensures r ==> |sub| <= |s|
    ensures sub <= s ==> r
  {
    assert s[0..] == s;
    exists i :: 0 <= i <= |s| && sub <= s[i..]
  }

  /** A string holding a character that `s` lacks cannot occur in `s`. */
  lemma MissingCharNotSubstring(sub: string, s: string, c: char)
    requires c in sub && c !in s
    ensures !Contains(s, sub)
  {
  }

  /** `b` occurs in `a + b + c`. */
  lemma OccursBetween(a: string, b: string, c: string)
    ensures Contains(a + b + c, b)
  {
    assert (a + b + c)[|a|..] == b + c;
  }

  /** An occurrence in `s` is an occurrence in any extension of `s`. */
  lemma SubstringOfExtension(sub: string, s: string, t: string)
    requires Contains(s, sub)
    ensures Contains(s + t, sub)
  {
    var i :| 0 <= i <= |s| && sub <= s[i..];
    assert (s + t)[i..] == s[i..] + t;
  }
}
