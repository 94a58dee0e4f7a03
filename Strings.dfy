/** Foundation's `replacingOccurrences(of:with:)`, the one string operation the
    serialisers and the path helper are built from. */
module Strings {

  /** `s.replacingOccurrences(of: String(c), with: rep)` for a one-character
      pattern: every occurrence of `c` becomes `rep`, everything else is kept,
      so a one-character replacement keeps the length. */
  function ReplaceChar(s: string, c: char, rep: string): (r: string)
    ensures |rep| == 1 ==> |r| == |s|
  {
    if s == [] then [] else (if s[0] == c then rep else [s[0]]) + ReplaceChar(s[1..], c, rep)
  }

  /** `s.replacingOccurrences(of: pat, with: rep)`: a left-to-right scan that
      replaces each non-overlapping occurrence of `pat`. */
  function ReplaceString(s: string, pat: string, rep: string): (r: string)
    requires pat != []
    decreases |s|
  {
    if s == [] then []
    else if pat <= s then rep + ReplaceString(s[|pat|..], pat, rep)
    else [s[0]] + ReplaceString(s[1..], pat, rep)
  }

  /** Replacing a single character acts on each part of a concatenation separately. */
  lemma {:induction false} ReplaceCharConcat(a: string, b: string, c: char, rep: string)
    ensures ReplaceChar(a + b, c, rep) == ReplaceChar(a, c, rep) + ReplaceChar(b, c, rep)
  {
    if a == [] {
      assert a + b == b;
    } else {
      assert (a + b)[1..] == a[1..] + b;
      ReplaceCharConcat(a[1..], b, c, rep);
    }
  }

  /** A text without the pattern character is returned unchanged. */
  lemma {:induction false} ReplaceCharAbsent(s: string, c: char, rep: string)
    requires c !in s
    ensures ReplaceChar(s, c, rep) == s
  {
    if s != [] {
      assert s[0] != c;
      assert c !in s[1..];
      ReplaceCharAbsent(s[1..], c, rep);
    }
  }

  /** With a one-character replacement the result is the same length and
      differs from the input exactly at the occurrences of `c`. */
  lemma {:induction false} ReplaceCharPointwise(s: string, c: char, d: char)
    ensures |ReplaceChar(s, c, [d])| == |s|
    ensures forall i :: 0 <= i < |s| ==>
      ReplaceChar(s, c, [d])[i] == (if s[i] == c then d else s[i])
  {
    if s != [] {
      ReplaceCharPointwise(s[1..], c, d);
    }
  }

  /** A prefix none of whose characters can start the pattern is copied as it is. */
  lemma {:induction false} ReplaceStringSkip(w: string, rest: string, pat: string, rep: string)
    requires pat != []
    requires pat[0] !in w
    ensures ReplaceString(w + rest, pat, rep) == w + ReplaceString(rest, pat, rep)
  {
    if w == [] {
      assert w + rest == rest;
    } else {
      var s := w + rest;
      assert s[0] == w[0] != pat[0];
      assert !(pat <= s);
      assert s[1..] == w[1..] + rest;
      assert pat[0] !in w[1..];
      ReplaceStringSkip(w[1..], rest, pat, rep);
    }
  }

  /** An occurrence of the pattern at the front is replaced and the scan resumes after it. */
  lemma ReplaceStringMatch(rest: string, pat: string, rep: string)
    requires pat != []
    ensures ReplaceString(pat + rest, pat, rep) == rep + ReplaceString(rest, pat, rep)
  {
    var s := pat + rest;
    assert pat <= s;
    assert s[|pat|..] == rest;
  }
}
