/** Values shared by every part of the model: Swift's optionals, bytes, the
    UTF-8 encoding that `String.data(using: .utf8)` performs, and small string
    predicates used in contracts. */
module Common {

  /** Swift's `T?`. */
  datatype Option<+T> = None | Some(value: T) {
    /** Swift's `x ?? default`. */
    function GetOr(default: T): (r: T)
      ensures Some? ==> r == value
      ensures None? ==> r == default
    {
      match this
      case Some(v) => v
      case None => default
    }
  }

  /** One octet of a Swift `Data` buffer. */
  newtype byte = b: int | 0 <= b < 256

  /** `t` is a suffix of `s`. */
  predicate HasSuffix(s: string, t: string) {
    |t| <= |s| && s[|s| - |t|..] == t
  }

  /** The UTF-8 encoding of one Unicode scalar value (RFC 3629, section 3). */
  function Utf8Char(c: char): (r: seq<byte>)
    ensures 1 <= |r| <= 4
    ensures |r| == 1 <==> c as int < 0x80
    ensures |r| == 1 ==> r[0] as int == c as int
    ensures |r| > 1 ==> 0xC0 <= r[0] as int
    ensures forall i :: 1 <= i < |r| ==> 0x80 <= r[i] as int < 0xC0
  {
    var n := c as int;
    if n < 0x80 then [n as byte]
    else if n < 0x800 then [(0xC0 + n / 64) as byte, (0x80 + n % 64) as byte]
    else if n < 0x10000 then
      [(0xE0 + n / 4096) as byte, (0x80 + (n / 64) % 64) as byte, (0x80 + n % 64) as byte]
    else
      [(0xF0 + n / 262144) as byte, (0x80 + (n / 4096) % 64) as byte,
       (0x80 + (n / 64) % 64) as byte, (0x80 + n % 64) as byte]
  }

  /** `s.data(using: .utf8)`: the encodings of the characters, in order. */
  function Utf8(s: string): (r: seq<byte>)
    ensures |s| <= |r| <= 4 * |s|
  {
    if s == [] then [] else Utf8Char(s[0]) + Utf8(s[1..])
  }

  /** Encoding distributes over concatenation, so a text can be encoded piecewise. */
  lemma {:induction false} Utf8Concat(a: string, b: string)
    ensures Utf8(a + b) == Utf8(a) + Utf8(b)
  {
    if a == [] {
      assert a + b == b;
    } else {
      assert (a + b)[1..] == a[1..] + b;
      Utf8Concat(a[1..], b);
    }
  }

  /** A text of ASCII characters encodes to one byte per character, each its code. */
  lemma {:induction false} Utf8Ascii(s: string)
    requires forall i :: 0 <= i < |s| ==> s[i] as int < 0x80
    ensures |Utf8(s)| == |s|
    ensures forall i :: 0 <= i < |s| ==> Utf8(s)[i] as int == s[i] as int
  {
    if s != [] {
      Utf8Ascii(s[1..]);
    }
  }

  /** The three parts of `a + b + c` are found again by slicing at their lengths. */
  lemma Split3(a: string, b: string, c: string)
    ensures |a + b + c| == |a| + |b| + |c|
    ensures (a + b + c)[..|a|] == a
    ensures (a + b + c)[|a|..|a| + |b|] == b
    ensures (a + b + c)[|a| + |b|..] == c
    ensures (a + b + c)[|a|..] == b + c
    ensures (a + b + c)[..|a| + |b|] == a + b
  {
  }

  /** A prefix of `a` is a prefix of every extension of `a`. */
  lemma PrefixConcat(p: string, a: string, b: string)
    requires p <= a
    ensures p <= a + b
  {
    assert (a + b)[..|p|] == a[..|p|];
  }

  /** A text on which `p` disagrees at some position does not start with `p`. */
  lemma NotPrefixAt(p: string, s: string, i: nat)
    requires i < |p| && i < |s| && p[i] != s[i]
    ensures !(p <= s)
  {
  }

  /** A suffix of `s` is a suffix of every text that ends with `s`. */
  lemma SuffixConcat(a: string, s: string, t: string)
    requires HasSuffix(s, t)
    ensures HasSuffix(a + s, t)
  {
    assert (a + s)[|a + s| - |t|..] == s[|s| - |t|..];
  }

  /** `PrefixConcat`, `SuffixConcat` and `NotPrefixAt` under a condition, for
      use inside function bodies. */
  lemma PrefixConcatIf(b: bool, p: string, a: string, c: string)
    requires b ==> p <= a
    ensures b ==> p <= a + c
  {
    if b { PrefixConcat(p, a, c); }
  }

  lemma SuffixConcatIf(b: bool, a: string, s: string, t: string)
    requires b ==> HasSuffix(s, t)
    ensures b ==> HasSuffix(a + s, t)
  {
    if b { SuffixConcat(a, s, t); }
  }

  lemma NotPrefixAtIf(b: bool, p: string, s: string, i: nat)
    requires b ==> i < |p| && i < |s| && p[i] != s[i]
    ensures b ==> !(p <= s)
  {
  }
}
