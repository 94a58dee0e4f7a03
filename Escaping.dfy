/** The predefined-entity escaping of XML 1.0 (section 2.4 "Character Data and
    Markup", section 4.6 "Predefined Entities"), as the four functions
    `escapeAll`, `escapeText`, `escapeDoubleQuotedValue` and
    `escapeSimpleQuotedValue` compute it: a chain of single-character
    replacements in which `&` is always replaced first.

    The chains are related to a reference definition, `EntityEscape`, that maps
    each character independently; every property below is proved about the
    chains through that connection. */
module Escaping {
  import opened Strings

  /** The four escaping functions, one per kind of position in a document. */
  datatype Mode = All | Text | DoubleQuotedValue | SimpleQuotedValue

  /** `escapeAll`: `&`, `<`, `>`, `"` and `'`. */
  function EscapeAll(text: string): string {
    ReplaceChar(ReplaceChar(ReplaceChar(ReplaceChar(ReplaceChar(
      text, '&', "&amp;"), '<', "&lt;"), '>', "&gt;"), '"', "&quot;"), '\'', "&apos;")
  }

  /** `escapeText`: `&` and `<`, for character data. */
  function EscapeText(text: string): string {
    ReplaceChar(ReplaceChar(text, '&', "&amp;"), '<', "&lt;")
  }

  /** `escapeDoubleQuotedValue`: `&`, `<` and `"`, for `name="value"`. */
  function EscapeDoubleQuotedValue(text: string): string {
    ReplaceChar(ReplaceChar(ReplaceChar(text, '&', "&amp;"), '<', "&lt;"), '"', "&quot;")
  }

  /** `escapeSimpleQuotedValue`: `&`, `<` and `'`, for `name='value'`. */
  function EscapeSimpleQuotedValue(text: string): string {
    ReplaceChar(ReplaceChar(ReplaceChar(text, '&', "&amp;"), '<', "&lt;"), '\'', "&apos;")
  }

  /** The escaping function of a mode. */
  function Escape(m: Mode, text: string): string {
    match m
    case All => EscapeAll(text)
    case Text => EscapeText(text)
    case DoubleQuotedValue => EscapeDoubleQuotedValue(text)
    case SimpleQuotedValue => EscapeSimpleQuotedValue(text)
  }

  /** The five characters XML 1.0 gives a predefined entity. */
  const Predefined: set<char> := {'&', '<', '>', '"', '\''}

  /** The characters each mode replaces. */
  function Specials(m: Mode): (r: set<char>)
    ensures '&' in r && '<' in r && r <= Predefined
  {
    match m
    case All => Predefined
    case Text => {'&', '<'}
    case DoubleQuotedValue => {'&', '<', '"'}
    case SimpleQuotedValue => {'&', '<', '\''}
  }

  /** The predefined entity reference of a character (XML 1.0, section 4.6). */
  function Entity(c: char): (r: string)
    requires c in Predefined
    ensures |r| >= 4 && r[0] == '&' && r[|r| - 1] == ';'
    ensures '&' !in r[1..] && ';' !in r[..|r| - 1]
    ensures forall d :: d in Predefined && d != '&' ==> d !in r
  {
    if c == '&' then "&amp;"
    else if c == '<' then "&lt;"
    else if c == '>' then "&gt;"
    else if c == '"' then "&quot;"
    else "&apos;"
  }

  /** What one character becomes when the characters of `special` are escaped. */
  function Piece(special: set<char>, x: char): string
    requires special <= Predefined
  {
    if x in special then Entity(x) else [x]
  }

  /** Reference definition: escape the characters of `special`, each on its
      own, leaving every other character as it is. */
  function EntityEscape(special: set<char>, s: string): string
    requires special <= Predefined
  {
    if s == [] then [] else Piece(special, s[0]) + EntityEscape(special, s[1..])
  }

  /** Decoding a mode's entities with the same replace operation, `&amp;` last.
      It is not part of the serialiser; it is the inverse the escaping is checked against. */
  function Unescape(m: Mode, text: string): string {
    match m
    case All =>
      ReplaceString(ReplaceString(ReplaceString(ReplaceString(ReplaceString(
        text, "&lt;", "<"), "&gt;", ">"), "&quot;", "\""), "&apos;", "'"), "&amp;", "&")
    case Text =>
      ReplaceString(ReplaceString(text, "&lt;", "<"), "&amp;", "&")
    case DoubleQuotedValue =>
      ReplaceString(ReplaceString(ReplaceString(text, "&lt;", "<"), "&quot;", "\""), "&amp;", "&")
    case SimpleQuotedValue =>
      ReplaceString(ReplaceString(ReplaceString(text, "&lt;", "<"), "&apos;", "'"), "&amp;", "&")
  }

  // ---------------------------------------------------------------------------
  // The chains are the per-character map

  lemma {:induction false} EntityEscapeEmpty(s: string)
    ensures EntityEscape({}, s) == s
  {
    if s != [] {
      EntityEscapeEmpty(s[1..]);
    }
  }

  /** One more replacement in the chain escapes one more character, provided `&`
      came first: the entities produced so far contain no other special character. */
  lemma {:induction false} ChainStep(done: set<char>, c: char, s: string)
    requires done <= Predefined && c in Predefined
    requires c == '&' ==> done == {}
    ensures ReplaceChar(EntityEscape(done, s), c, Entity(c)) == EntityEscape(done + {c}, s)
  {
    if s != [] {
      var x := s[0];
      ReplaceCharConcat(Piece(done, x), EntityEscape(done, s[1..]), c, Entity(c));
      ChainStep(done, c, s[1..]);
      if x in done {
        ReplaceCharAbsent(Entity(x), c, Entity(c));
      } else {
        assert [x][1..] == [];
      }
    }
  }

  /** The first two links, shared by every chain: `&`, then `<`. */
  lemma ChainStart(s: string)
    ensures ReplaceChar(ReplaceChar(s, '&', "&amp;"), '<', "&lt;") == EntityEscape({'&', '<'}, s)
  {
    EntityEscapeEmpty(s);
    ChainStep({}, '&', s);
    assert {} + {'&'} == {'&'};
    ChainStep({'&'}, '<', s);
    assert {'&'} + {'<'} == {'&', '<'};
  }

  lemma EscapeAllIsEntityEscape(s: string)
    ensures EscapeAll(s) == EntityEscape(Predefined, s)
  {
    var s2 := ReplaceChar(ReplaceChar(s, '&', "&amp;"), '<', "&lt;");
    ChainStart(s);
    var s3 := ReplaceChar(s2, '>', "&gt;");
    ChainStep({'&', '<'}, '>', s);
    assert {'&', '<'} + {'>'} == {'&', '<', '>'};
    assert s3 == EntityEscape({'&', '<', '>'}, s);
    var s4 := ReplaceChar(s3, '"', "&quot;");
    ChainStep({'&', '<', '>'}, '"', s);
    assert {'&', '<', '>'} + {'"'} == {'&', '<', '>', '"'};
    assert s4 == EntityEscape({'&', '<', '>', '"'}, s);
    ChainStep({'&', '<', '>', '"'}, '\'', s);
    assert {'&', '<', '>', '"'} + {'\''} == Predefined;
  }

  lemma EscapeDoubleQuotedValueIsEntityEscape(s: string)
    ensures EscapeDoubleQuotedValue(s) == EntityEscape({'&', '<', '"'}, s)
  {
    ChainStart(s);
    ChainStep({'&', '<'}, '"', s);
    assert {'&', '<'} + {'"'} == {'&', '<', '"'};
  }

  lemma EscapeSimpleQuotedValueIsEntityEscape(s: string)
    ensures EscapeSimpleQuotedValue(s) == EntityEscape({'&', '<', '\''}, s)
  {
    ChainStart(s);
    ChainStep({'&', '<'}, '\'', s);
    assert {'&', '<'} + {'\''} == {'&', '<', '\''};
  }

  /** Each escaping chain equals the per-character reference definition. */
  lemma EscapeIsEntityEscape(m: Mode, s: string)
    ensures Escape(m, s) == EntityEscape(Specials(m), s)
  {
    match m
    case All => EscapeAllIsEntityEscape(s);
    case Text => ChainStart(s);
    case DoubleQuotedValue => EscapeDoubleQuotedValueIsEntityEscape(s);
    case SimpleQuotedValue => EscapeSimpleQuotedValueIsEntityEscape(s);
  }

  // ---------------------------------------------------------------------------
  // Facts about the reference definition

  lemma {:induction false} EntityEscapeConcat(special: set<char>, a: string, b: string)
    requires special <= Predefined
    ensures EntityEscape(special, a + b) == EntityEscape(special, a) + EntityEscape(special, b)
  {
    if a == [] {
      assert a + b == b;
    } else {
      assert (a + b)[1..] == a[1..] + b;
      EntityEscapeConcat(special, a[1..], b);
    }
  }

  /** The only character of `special` left in `r` is the `&` of the entities. */
  predicate MarkupFree(special: set<char>, r: string) {
    forall i :: 0 <= i < |r| && r[i] in special ==> r[i] == '&'
  }

  /** `w` begins with the entity of one of the characters of `special`. */
  ghost predicate EntityAt(special: set<char>, w: string)
    requires special <= Predefined
  {
    exists c :: c in special && Entity(c) <= w
  }

  /** Every `&` of `r` begins the entity of one of the characters of `special`. */
  ghost predicate AmpersandsBeginEntities(special: set<char>, r: string)
    requires special <= Predefined
  {
    forall i :: 0 <= i < |r| && r[i] == '&' ==> EntityAt(special, r[i..])
  }

  lemma {:induction false} EntityEscapeNoMarkup(special: set<char>, s: string)
    requires special <= Predefined
    ensures MarkupFree(special, EntityEscape(special, s))
  {
    if s != [] {
      EntityEscapeNoMarkup(special, s[1..]);
      var p, r := Piece(special, s[0]), EntityEscape(special, s[1..]);
      assert EntityEscape(special, s) == p + r;
      forall i | 0 <= i < |p + r| && (p + r)[i] in special
        ensures (p + r)[i] == '&'
      {
        if i >= |p| {
          assert (p + r)[i] == r[i - |p|];
        }
      }
    }
  }


  lemma {:induction false} EntityEscapeAmpersands(special: set<char>, s: string)
    requires special <= Predefined && '&' in special
    ensures AmpersandsBeginEntities(special, EntityEscape(special, s))
  {
    if s != [] {
      EntityEscapeAmpersands(special, s[1..]);
      var p, r := Piece(special, s[0]), EntityEscape(special, s[1..]);
      assert EntityEscape(special, s) == p + r;
      forall i | 0 <= i < |p + r| && (p + r)[i] == '&'
        ensures EntityAt(special, (p + r)[i..])
      {
        if i < |p| {
          assert s[0] in special;
          assert i == 0;
          assert Entity(s[0]) <= (p + r)[i..];
        } else {
          assert (p + r)[i..] == r[i - |p|..];
        }
      }
    }
  }

  lemma {:induction false} EntityEscapeKeeps(special: set<char>, s: string, c: char)
    requires special <= Predefined && '&' in special
    requires c in Predefined - special
    ensures multiset(EntityEscape(special, s))[c] == multiset(s)[c]
  {
    if s != [] {
      EntityEscapeKeeps(special, s[1..], c);
      var x := s[0];
      assert s == [x] + s[1..];
      assert multiset(Piece(special, x))[c] == multiset([x])[c];
    }
  }

  lemma {:induction false} EntityEscapeLength(special: set<char>, s: string)
    requires special <= Predefined
    ensures |EntityEscape(special, s)| >= |s|
    ensures |EntityEscape(special, s)| == |s| <==> forall i :: 0 <= i < |s| ==> s[i] !in special
    ensures (forall i :: 0 <= i < |s| ==> s[i] !in special) ==> EntityEscape(special, s) == s
  {
    if s != [] {
      EntityEscapeLength(special, s[1..]);
      if forall i :: 0 <= i < |s| ==> s[i] !in special {
        assert forall i :: 0 <= i < |s[1..]| ==> s[1..][i] !in special by {
          forall i | 0 <= i < |s[1..]| ensures s[1..][i] !in special {
            assert s[1..][i] == s[i + 1];
          }
        }
        assert EntityEscape(special, s) == [s[0]] + s[1..];
      } else {
        var j :| 0 <= j < |s| && s[j] in special;
        if j > 0 {
          assert s[1..][j - 1] in special;
        }
      }
    }
  }

  // ---------------------------------------------------------------------------
  // Decoding

  lemma EntityInjective(c: char, y: char)
    requires c in Predefined && y in Predefined && Entity(c) == Entity(y)
    ensures c == y
  {
  }

  /** Distinct entities are not prefixes of one another: each ends with its only `;`. */
  lemma EntityNotPrefix(c: char, y: char, rest: string)
    requires c in Predefined && y in Predefined && c != y
    ensures !(Entity(c) <= Entity(y) + rest)
  {
    var e, f := Entity(c), Entity(y);
    if e <= f + rest {
      TerminatedPrefix(e, f, rest);
      EntityInjective(c, y);
    }
  }

  /** Of two texts that each end with their only `;`, one can begin the other
      followed by anything only if the two are equal. */
  lemma TerminatedPrefix(e: string, f: string, rest: string)
    requires |e| > 0 && e[|e| - 1] == ';' && ';' !in e[..|e| - 1]
    requires |f| > 0 && f[|f| - 1] == ';' && ';' !in f[..|f| - 1]
    requires e <= f + rest
    ensures e == f
  {
    var e', f' := e[..|e| - 1], f[..|f| - 1];
    assert e[|e| - 1] == ';' && f[|f| - 1] == ';';
    assert |e| < |f| ==> e <= f';
    assert |f| < |e| ==> f <= e';
  }

  /** The scan that replaces `Entity(c)` by `c` takes the escaped form of one
      character to the form it has once `c` is no longer escaped. */
  lemma UnescapePiece(special: set<char>, c: char, x: char, rest: string)
    requires special <= Predefined && '&' in special && c in special
    ensures ReplaceString(Piece(special, x) + rest, Entity(c), [c])
      == Piece(special - {c}, x) + ReplaceString(rest, Entity(c), [c])
  {
    if x !in special {
      assert Piece(special, x) == [x] == Piece(special - {c}, x);
      ReplaceStringSkip([x], rest, Entity(c), [c]);
    } else if x == c {
      assert Piece(special - {c}, x) == [c];
      ReplaceStringMatch(rest, Entity(c), [c]);
    } else {
      assert Piece(special, x) == Entity(x) == Piece(special - {c}, x);
      UnescapeOtherEntity(c, x, rest);
    }
  }

  /** An entity other than the one being decoded is copied unchanged. */
  lemma UnescapeOtherEntity(c: char, x: char, rest: string)
    requires c in Predefined && x in Predefined && c != x
    ensures ReplaceString(Entity(x) + rest, Entity(c), [c])
      == Entity(x) + ReplaceString(rest, Entity(c), [c])
  {
    var f, pat := Entity(x), Entity(c);
    EntityNotPrefix(c, x, rest);
    assert (f + rest)[1..] == f[1..] + rest;
    assert ReplaceString(f + rest, pat, [c]) == [f[0]] + ReplaceString(f[1..] + rest, pat, [c]);
    ReplaceStringSkip(f[1..], rest, pat, [c]);
    assert [f[0]] + f[1..] == f;
  }

  /** Replacing `Entity(c)` by `c` undoes the escaping of `c`, as long as `&`
      is still escaped, so that every `&` present begins an entity. */
  lemma {:induction false} UnescapeStep(special: set<char>, c: char, s: string)
    requires special <= Predefined && '&' in special && c in special
    ensures ReplaceString(EntityEscape(special, s), Entity(c), [c])
      == EntityEscape(special - {c}, s)
  {
    if s != [] {
      UnescapeStep(special, c, s[1..]);
      UnescapePiece(special, c, s[0], EntityEscape(special, s[1..]));
    }
  }

  // ---------------------------------------------------------------------------
  // Properties of the four escaping functions

  /** Because `&` is replaced first, every mode escapes a concatenation part by part. */
  lemma EscapeConcat(m: Mode, a: string, b: string)
    ensures Escape(m, a + b) == Escape(m, a) + Escape(m, b)
  {
    EscapeIsEntityEscape(m, a + b);
    EscapeIsEntityEscape(m, a);
    EscapeIsEntityEscape(m, b);
    EntityEscapeConcat(Specials(m), a, b);
  }

  /** Decoding the entities of the mode, `&amp;` last, gives back the input exactly. */
  lemma EscapeRoundTrip(m: Mode, s: string)
    ensures Unescape(m, Escape(m, s)) == s
  {
    match m
    case Text => TextRoundTrip(s);
    case DoubleQuotedValue => DoubleQuotedValueRoundTrip(s);
    case SimpleQuotedValue => SimpleQuotedValueRoundTrip(s);
    case All => AllRoundTrip(s);
  }

  lemma TextRoundTrip(s: string)
    ensures Unescape(Text, Escape(Text, s)) == s
  {
    EscapeIsEntityEscape(Text, s);
    EntityEscapeEmpty(s);
    assert {'&'} - {'&'} == {};
    UnescapeStep({'&', '<'}, '<', s);
    assert {'&', '<'} - {'<'} == {'&'};
    UnescapeStep({'&'}, '&', s);
  }

  lemma DoubleQuotedValueRoundTrip(s: string)
    ensures Unescape(DoubleQuotedValue, Escape(DoubleQuotedValue, s)) == s
  {
    EscapeIsEntityEscape(DoubleQuotedValue, s);
    EntityEscapeEmpty(s);
    assert {'&'} - {'&'} == {};
    UnescapeStep({'&', '<', '"'}, '<', s);
    assert {'&', '<', '"'} - {'<'} == {'&', '"'};
    UnescapeStep({'&', '"'}, '"', s);
    assert {'&', '"'} - {'"'} == {'&'};
    UnescapeStep({'&'}, '&', s);
  }

  lemma SimpleQuotedValueRoundTrip(s: string)
    ensures Unescape(SimpleQuotedValue, Escape(SimpleQuotedValue, s)) == s
  {
    EscapeIsEntityEscape(SimpleQuotedValue, s);
    EntityEscapeEmpty(s);
    assert {'&'} - {'&'} == {};
    UnescapeStep({'&', '<', '\''}, '<', s);
    assert {'&', '<', '\''} - {'<'} == {'&', '\''};
    UnescapeStep({'&', '\''}, '\'', s);
    assert {'&', '\''} - {'\''} == {'&'};
    UnescapeStep({'&'}, '&', s);
  }

  lemma AllRoundTrip(s: string)
    ensures Unescape(All, Escape(All, s)) == s
  {
    var e0 := Escape(All, s);
    assert e0 == EntityEscape(Predefined, s) by {
      EscapeIsEntityEscape(All, s);
    }
    var e1 := ReplaceString(e0, "&lt;", "<");
    assert e1 == EntityEscape({'&', '>', '"', '\''}, s) by {
      UnescapeStep(Predefined, '<', s);
      assert Predefined - {'<'} == {'&', '>', '"', '\''};
    }
    var e2 := ReplaceString(e1, "&gt;", ">");
    assert e2 == EntityEscape({'&', '"', '\''}, s) by {
      UnescapeStep({'&', '>', '"', '\''}, '>', s);
      assert {'&', '>', '"', '\''} - {'>'} == {'&', '"', '\''};
    }
    var e3 := ReplaceString(e2, "&quot;", "\"");
    assert e3 == EntityEscape({'&', '\''}, s) by {
      UnescapeStep({'&', '"', '\''}, '"', s);
      assert {'&', '"', '\''} - {'"'} == {'&', '\''};
    }
    var e4 := ReplaceString(e3, "&apos;", "'");
    assert e4 == EntityEscape({'&'}, s) by {
      UnescapeStep({'&', '\''}, '\'', s);
      assert {'&', '\''} - {'\''} == {'&'};
    }
    assert ReplaceString(e4, "&amp;", "&") == s by {
      UnescapeStep({'&'}, '&', s);
      assert {'&'} - {'&'} == {};
      EntityEscapeEmpty(s);
    }
  }

  /** No character the mode escapes survives in its output, except the `&`
      that begins each entity. */
  lemma EscapeNoMarkup(m: Mode, s: string)
    ensures MarkupFree(Specials(m), Escape(m, s))
  {
    EscapeIsEntityEscape(m, s);
    EntityEscapeNoMarkup(Specials(m), s);
  }

  /** Every `&` of the output begins one of the mode's entities. */
  lemma EscapeAmpersands(m: Mode, s: string)
    ensures AmpersandsBeginEntities(Specials(m), Escape(m, s))
  {
    EscapeIsEntityEscape(m, s);
    EntityEscapeAmpersands(Specials(m), s);
  }

  /** A predefined-entity character that the mode does not escape occurs in the
      output exactly as often as in the input. */
  lemma EscapeKeeps(m: Mode, s: string, c: char)
    requires c in Predefined - Specials(m)
    ensures multiset(Escape(m, s))[c] == multiset(s)[c]
  {
    EscapeIsEntityEscape(m, s);
    EntityEscapeKeeps(Specials(m), s, c);
  }

  /** Escaping never shortens; it keeps the length exactly when there is
      nothing to escape, and then it returns the input itself. */
  lemma EscapeLength(m: Mode, s: string)
    ensures |Escape(m, s)| >= |s|
    ensures |Escape(m, s)| == |s| <==> forall i :: 0 <= i < |s| ==> s[i] !in Specials(m)
    ensures (forall i :: 0 <= i < |s| ==> s[i] !in Specials(m)) ==> Escape(m, s) == s
  {
    EscapeIsEntityEscape(m, s);
    EntityEscapeLength(Specials(m), s);
  }

  // ---------------------------------------------------------------------------
  // The same facts, spelled out per function

  /** `escapeText` output contains no `<`, and each `&` in it begins `&amp;` or `&lt;`. */
  lemma EscapeTextShape(s: string)
    ensures '<' !in EscapeText(s)
    ensures forall i :: 0 <= i < |EscapeText(s)| && EscapeText(s)[i] == '&' ==>
              "&amp;" <= EscapeText(s)[i..] || "&lt;" <= EscapeText(s)[i..]
  {
    var r := EscapeText(s);
    assert r == Escape(Text, s);
    EscapeNoMarkup(Text, s);
    EscapeAmpersands(Text, s);
    forall i | 0 <= i < |r| && r[i] == '&'
      ensures "&amp;" <= r[i..] || "&lt;" <= r[i..]
    {
      assert EntityAt({'&', '<'}, r[i..]);
      var c :| c in {'&', '<'} && Entity(c) <= r[i..];
    }
  }

  /** `escapeAll` output contains none of `<`, `>`, `"`, `'`. */
  lemma EscapeAllShape(s: string)
    ensures '<' !in EscapeAll(s) && '>' !in EscapeAll(s)
    ensures '"' !in EscapeAll(s) && '\'' !in EscapeAll(s)
  {
    assert EscapeAll(s) == Escape(All, s);
    EscapeNoMarkup(All, s);
  }

  /** `escapeDoubleQuotedValue` output has no `"` and no `<`, each `&` in it
      begins `&amp;`, `&lt;` or `&quot;`, and it keeps every `'` and `>`. */
  lemma EscapeDoubleQuotedValueShape(s: string)
    ensures '"' !in EscapeDoubleQuotedValue(s) && '<' !in EscapeDoubleQuotedValue(s)
    ensures forall i :: 0 <= i < |EscapeDoubleQuotedValue(s)| && EscapeDoubleQuotedValue(s)[i] == '&' ==>
              "&amp;" <= EscapeDoubleQuotedValue(s)[i..] || "&lt;" <= EscapeDoubleQuotedValue(s)[i..]
              || "&quot;" <= EscapeDoubleQuotedValue(s)[i..]
    ensures multiset(EscapeDoubleQuotedValue(s))['\''] == multiset(s)['\'']
    ensures multiset(EscapeDoubleQuotedValue(s))['>'] == multiset(s)['>']
  {
    var r := EscapeDoubleQuotedValue(s);
    assert r == Escape(DoubleQuotedValue, s);
    EscapeNoMarkup(DoubleQuotedValue, s);
    EscapeAmpersands(DoubleQuotedValue, s);
    forall i | 0 <= i < |r| && r[i] == '&'
      ensures "&amp;" <= r[i..] || "&lt;" <= r[i..] || "&quot;" <= r[i..]
    {
      assert EntityAt({'&', '<', '"'}, r[i..]);
      var c :| c in {'&', '<', '"'} && Entity(c) <= r[i..];
    }
    EscapeKeeps(DoubleQuotedValue, s, '\'');
    EscapeKeeps(DoubleQuotedValue, s, '>');
  }

  /** `escapeSimpleQuotedValue` output has no `'` and no `<`, each `&` in it
      begins `&amp;`, `&lt;` or `&apos;`, and it keeps every `"` and `>`. */
  lemma EscapeSimpleQuotedValueShape(s: string)
    ensures '\'' !in EscapeSimpleQuotedValue(s) && '<' !in EscapeSimpleQuotedValue(s)
    ensures forall i :: 0 <= i < |EscapeSimpleQuotedValue(s)| && EscapeSimpleQuotedValue(s)[i] == '&' ==>
              "&amp;" <= EscapeSimpleQuotedValue(s)[i..] || "&lt;" <= EscapeSimpleQuotedValue(s)[i..]
              || "&apos;" <= EscapeSimpleQuotedValue(s)[i..]
    ensures multiset(EscapeSimpleQuotedValue(s))['"'] == multiset(s)['"']
    ensures multiset(EscapeSimpleQuotedValue(s))['>'] == multiset(s)['>']
  {
    var r := EscapeSimpleQuotedValue(s);
    assert r == Escape(SimpleQuotedValue, s);
    EscapeNoMarkup(SimpleQuotedValue, s);
    EscapeAmpersands(SimpleQuotedValue, s);
    forall i | 0 <= i < |r| && r[i] == '&'
      ensures "&amp;" <= r[i..] || "&lt;" <= r[i..] || "&apos;" <= r[i..]
    {
      assert EntityAt({'&', '<', '\''}, r[i..]);
      var c :| c in {'&', '<', '\''} && Entity(c) <= r[i..];
    }
    EscapeKeeps(SimpleQuotedValue, s, '"');
    EscapeKeeps(SimpleQuotedValue, s, '>');
  }
}
