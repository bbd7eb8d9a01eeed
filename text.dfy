/**
 * Character comparison as a JavaScript regular expression with the `i` flag and no
 * `u` flag performs it, against a pattern written in ASCII. That flag compares the
 * upper-case forms of two characters, but keeps a non-ASCII character as it is when
 * its upper case would be ASCII; so no non-ASCII character ever matches an ASCII
 * one, and against an ASCII pattern only the letters `A`-`Z` and `a`-`z` fold.
 */
module Text {

  /** Folds `A`-`Z` to `a`-`z`; every other character is its own fold. */
  function LowerAscii(c: char): char {
    if 'A' <= c <= 'Z' then (c as int + 32) as char else c
  }

  /**
   * The matching rule of the `i` flag for a pattern character `p` that is not an
   * upper-case letter: `c` matches `p` exactly when it is `p` itself or, for a
   * lower-case letter, its upper-case partner.
   */
  lemma FoldMatches(c: char, p: char)
    requires !('A' <= p <= 'Z')
    ensures LowerAscii(c) == p <==> c == p || ('a' <= p <= 'z' && c as int == p as int - 32)
  {
  }

  /** `w` (written in lower case) matches `s` at position `i`, ignoring case. */
  predicate OccursAt(s: string, i: int, w: string) {
    0 <= i && i + |w| <= |s| && forall k :: 0 <= k < |w| ==> LowerAscii(s[i + k]) == w[k]
  }

  /** `w` occurs somewhere in `s`, ignoring case. */
  ghost predicate ContainsIgnoringCase(s: string, w: string) {
    exists i :: OccursAt(s, i, w)
  }

  /** `w` matches at the very start of `s`, ignoring case: one step of a regex search. */
  predicate StartsWithIgnoringCase(s: string, w: string) {
    |w| <= |s| && forall k :: 0 <= k < |w| ==> LowerAscii(s[k]) == w[k]
  }

  /** The first `n` characters of `s`, or all of it when shorter: JavaScript's `s.slice(0, n)`. */
  function Take(s: string, n: nat): (t: string)
    ensures |t| == if |s| < n then |s| else n
    ensures t <= s
  {
    if |s| < n then s else s[..n]
  }
}
