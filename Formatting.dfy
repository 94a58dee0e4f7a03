/** `DefaultXMLFormatter`: one text fragment per XML construct, with two
    configuration fields, the line break and the indentation of declarations in
    the internal subset of a DOCTYPE (XML 1.0, sections 2.5-2.8, 3.1, 4.2, 4.7).

    Each fragment is a function of its arguments and the two fields. The
    contracts describe the fragment as a reader of the output would take it
    apart: what it begins and ends with, where an optional part appears, and that
    every escaped value decodes back to the argument. Quirks of the source are
    kept: the version argument of the XML declaration is ignored, external and
    unparsed entity declarations write `SYSTEM` without a leading space, and
    notation and parameter-entity declarations put the line break before `>`. */
module Formatting {
  import opened Common
  import opened Escaping
  import Sorting

  /** Length of `<?xml version="1.0"`. */
  const XmlDeclarationPrefixLength := 19

  /** `ind` begins `r` and `lb` ends it, without overlapping. */
  predicate IsLine(r: string, ind: string, lb: string) {
    |ind| + |lb| <= |r| && ind <= r && HasSuffix(r, lb)
  }

  /** The parts of a declaration line `ind + (a + m + z) + lb`: a fixed start
      `a`, a variable middle `m` and a fixed end `z`. */
  lemma LineParts(ind: string, a: string, m: string, z: string, lb: string)
    ensures var r := ind + (a + m + z) + lb;
            IsLine(r, ind, lb) && HasSuffix(r, z + lb)
            && |ind| + |a| + |m| + |z| + |lb| == |r|
            && r[..|ind| + |a|] == ind + a
            && r[|ind| + |a|..] == m + z + lb
            && r[|ind| + |a|..|r| - |z| - |lb|] == m
  {
    var r := ind + (a + m + z) + lb;
    var p, t := ind + a, z + lb;
    assert r == p + (m + t);
    Halves(p, m + t);
    Halves(ind, a);
    assert r[..|ind|] == ind;
    assert r == (p + m) + t;
    Halves(p + m, t);
    assert r == (p + m + z) + lb;
    Halves(p + m + z, lb);
    Halves(m, t);
    assert r[|p|..|r| - |t|] == (m + t)[..|m|];
  }

  /** Only regroups a concatenation. */
  lemma Regroup3(h: string, a: string, b: string, c: string)
    ensures h + a + b + c == h + (a + (b + c))
  {
  }

  /** `x` and `y` are found again in `x + y` by slicing at `|x|`. */
  lemma Halves(x: string, y: string)
    ensures |x + y| == |x| + |y| && (x + y)[..|x|] == x && (x + y)[|x|..] == y
  {
  }

  /** The parts of a declaration line `ind + (a + m) + lb` without a fixed end. */
  lemma LineParts2(ind: string, a: string, m: string, lb: string)
    ensures var r := ind + (a + m) + lb;
            IsLine(r, ind, lb)
            && |ind| + |a| + |m| + |lb| == |r|
            && r[..|ind| + |a|] == ind + a
            && r[|ind| + |a|..] == m + lb
  {
    var r := ind + (a + m) + lb;
    assert r == (ind + a) + m + lb;
    Split3(ind + a, m, lb);
    assert r[..|ind|] == ind;
  }

  class DefaultXMLFormatter {
    var linebreak: string
    var declarationInInternalSubsetIndentation: string

    /** `init()`: a line feed and one space. */
    constructor ()
      ensures linebreak == "\n" && declarationInInternalSubsetIndentation == " "
    {
      linebreak := "\n";
      declarationInInternalSubsetIndentation := " ";
    }

    /** `setLinebreak(linebreak:)`, and the `linebreak` property setter. */
    method SetLinebreak(linebreak: string)
      modifies this
      ensures this.linebreak == linebreak
      ensures declarationInInternalSubsetIndentation == old(declarationInInternalSubsetIndentation)
    {
      this.linebreak := linebreak;
    }

    /** `setDeclarationInInternalSubsetIndentation(indentation:)`, and the
        `declarationInInternalSubsetIndentation` property setter. */
    method SetDeclarationInInternalSubsetIndentation(indentation: string)
      modifies this
      ensures declarationInInternalSubsetIndentation == indentation
      ensures linebreak == old(linebreak)
    {
      declarationInInternalSubsetIndentation := indentation;
    }

    function DocumentStart(): (r: string)
      ensures r == ""
    {
      ""
    }

    /** `<?xml version="1.0" encoding="…" standalone="…"?>` and a line break;
        `version` is not used. Where the pseudo-attributes appear is stated by
        `XmlDeclarationEncoding` and `XmlDeclarationStandalone`. */
    function XmlDeclaration(version: string, encoding: Option<string>, standalone: Option<string>): (r: string)
      reads this
      ensures |r| >= XmlDeclarationPrefixLength && r[..XmlDeclarationPrefixLength] == "<?xml version=\"1.0\""
      ensures HasSuffix(r, "?>" + linebreak)
    {
      var e := PseudoAttribute(" encoding=\"", encoding);
      var sa := PseudoAttribute(" standalone=\"", standalone);
      Split3(XmlDeclarationHead + e, sa, "?>" + linebreak);
      XmlDeclarationHead + e + sa + ("?>" + linebreak)
    }

    /** `<!DOCTYPE type PUBLIC "…" "…"` or `<!DOCTYPE type SYSTEM "…"`, left open
        for the internal subset; `hasInternalSubset` is not used. The external
        identifier is described by `DoctypeExternalIdentifier`. */
    function DocumentTypeDeclarationBeforeInternalSubset(
      docType: string, publicID: Option<string>, systemID: Option<string>, hasInternalSubset: bool): (r: string)
      ensures |r| >= 10 + |docType| && r[..10 + |docType|] == "<!DOCTYPE " + docType
      ensures systemID.Some? ==> HasSuffix(r, " \"" + systemID.value + "\"")
      ensures publicID.None? && systemID.None? ==> r == "<!DOCTYPE " + docType
    {
      var head := "<!DOCTYPE " + docType;
      var x := ExternalIdentifier(publicID, systemID);
      ExternalIdentifierShape(publicID, systemID);
      SuffixConcatIf(systemID.Some?, head, x, " \"" + systemID.GetOr("") + "\"");
      head + x
    }

    /** Opens the internal subset on a line of its own. */
    function DocumentTypeDeclarationInternalSubsetStart(): (r: string)
      reads this
      ensures r == linebreak + "[" + linebreak
    {
      linebreak + "[" + linebreak
    }

    function DocumentTypeDeclarationInternalSubsetEnd(): (r: string)
      ensures r == "]"
    {
      "]"
    }

    /** Closes the DOCTYPE, whatever its arguments. */
    function DocumentTypeDeclarationAfterInternalSubset(
      docType: string, publicID: Option<string>, systemID: Option<string>, hasInternalSubset: bool): (r: string)
      reads this
      ensures r == ">" + linebreak
    {
      ">" + linebreak
    }

    function ElementStartBeforeAttributes(name: string, hasAttributes: bool, isEmpty: bool): (r: string)
      ensures r == "<" + name
    {
      "<" + name
    }

    /** An attribute value, escaped for a double-quoted literal: no `"` and no `<`
        remain, every `&` begins an entity, and decoding gives the value back. */
    function AttributeValue(value: string): (r: string)
      ensures '"' !in r && '<' !in r
      ensures forall i :: 0 <= i < |r| && r[i] == '&' ==> "&amp;" <= r[i..] || "&lt;" <= r[i..] || "&quot;" <= r[i..]
      ensures Unescape(DoubleQuotedValue, r) == value
    {
      EscapeDoubleQuotedValueShape(value);
      EscapeRoundTrip(DoubleQuotedValue, value);
      EscapeDoubleQuotedValue(value)
    }

    /** The order in which attributes are written: a sorted permutation of the names. */
    function SortedAttributeNames(attributeNames: seq<string>): (r: seq<string>)
      ensures Sorting.Sorted(r)
      ensures multiset(r) == multiset(attributeNames)
    {
      Sorting.Sort(attributeNames)
    }

    /** ` name="value"`: the quoted part is the attribute value, so it holds no
        `"` and no `<`, and decodes to the value. */
    function Attribute(name: string, value: string): (r: string)
      ensures |r| >= |name| + 4
      ensures r[..|name| + 3] == " " + name + "=\"" && r[|r| - 1] == '"'
      ensures r[|name| + 3..|r| - 1] == AttributeValue(value)
      ensures '"' !in r[|name| + 3..|r| - 1] && '<' !in r[|name| + 3..|r| - 1]
      ensures Unescape(DoubleQuotedValue, r[|name| + 3..|r| - 1]) == value
    {
      var r := " " + name + "=\"" + AttributeValue(value) + "\"";
      assert r[|name| + 3..|r| - 1] == AttributeValue(value);
      r
    }

    /** `/>` for an empty element, `>` otherwise. */
    function ElementStartAfterAttributes(name: string, hasAttributes: bool, isEmpty: bool): (r: string)
      ensures r == "/>" <==> isEmpty
      ensures !isEmpty ==> r == ">"
    {
      if isEmpty then "/>" else ">"
    }

    /** Nothing for an empty element (its start tag closed it), `</name>` otherwise. */
    function ElementEnd(name: string, hasAttributes: bool, isEmpty: bool): (r: string)
      ensures isEmpty <==> r == ""
      ensures !isEmpty ==> r == "</" + name + ">"
    {
      if isEmpty then "" else "</" + name + ">"
    }

    /** Character data: no `<` remains, every `&` begins an entity, and decoding
        gives the text back. */
    function Text(text: string): (r: string)
      ensures '<' !in r
      ensures forall i :: 0 <= i < |r| && r[i] == '&' ==> "&amp;" <= r[i..] || "&lt;" <= r[i..]
      ensures Unescape(Escaping.Text, r) == text
    {
      EscapeTextShape(text);
      EscapeRoundTrip(Escaping.Text, text);
      EscapeText(text)
    }

    /** `<![CDATA[text]]>`, with the text as it is. */
    function CdataSection(text: string): (r: string)
      ensures |r| == |text| + 12
      ensures r[..9] == "<![CDATA[" && r[|r| - 3..] == "]]>"
      ensures r[9..|r| - 3] == text
    {
      "<![CDATA[" + text + "]]>"
    }

    /** `<?target "content"?>`, or `<?target?>` without content. */
    function ProcessingInstruction(target: string, content: Option<string>): (r: string)
      ensures |r| >= |target| + 4
      ensures r[..|target| + 2] == "<?" + target && r[|r| - 2..] == "?>"
      ensures content.None? ==> |r| == |target| + 4
      ensures content.Some? ==> r[|target| + 2..|r| - 2] == " \"" + content.value + "\""
    {
      "<?" + target + (if content.Some? then " \"" + content.GetOr("") + "\"" else "") + "?>"
    }

    /** `<!--text-->`, with the text as it is. */
    function Comment(text: string): (r: string)
      ensures |r| == |text| + 7
      ensures r[..4] == "<!--" && r[|r| - 3..] == "-->"
      ensures r[4..|r| - 3] == text
    {
      "<!--" + text + "-->"
    }

    /** An indented line `<!ENTITY name "value">`; `InternalEntityDeclarationValue`
        states that the quoted value decodes to `value`. */
    function InternalEntityDeclaration(name: string, value: string): (r: string)
      reads this
      ensures IsLine(r, declarationInInternalSubsetIndentation, linebreak)
      ensures HasSuffix(r, "\">" + linebreak)
      ensures |r| >= |declarationInInternalSubsetIndentation| + 11 + |name|
      ensures r[..|declarationInInternalSubsetIndentation| + 11 + |name|]
              == declarationInInternalSubsetIndentation + ("<!ENTITY " + name + " \"")
    {
      var ind := declarationInInternalSubsetIndentation;
      var a := "<!ENTITY " + name + " \"";
      var q := EscapeDoubleQuotedValue(value);
      LineParts(ind, a, q, "\">", linebreak);
      ind + (a + q + "\">") + linebreak
    }

    /** An indented line `<!ENTITY name PUBLIC "p" "s">`, or `<!ENTITY nameSYSTEM "s">`
        (no space before `SYSTEM`) when there is no public identifier; see
        `ExternalEntityDeclarationIdentifier`. */
    function ExternalEntityDeclaration(name: string, publicID: Option<string>, systemID: string): (r: string)
      reads this
      ensures IsLine(r, declarationInInternalSubsetIndentation, linebreak)
      ensures HasSuffix(r, " \"" + systemID + "\">" + linebreak)
      ensures |r| >= |declarationInInternalSubsetIndentation| + 9 + |name|
      ensures r[..|declarationInInternalSubsetIndentation| + 9 + |name|]
              == declarationInInternalSubsetIndentation + ("<!ENTITY " + name)
    {
      var ind := declarationInInternalSubsetIndentation;
      var a := "<!ENTITY " + name;
      LineParts(ind, a, EntityIdentifier(publicID), " \"" + systemID + "\">", linebreak);
      ind + (a + EntityIdentifier(publicID) + (" \"" + systemID + "\">")) + linebreak
    }

    /** An indented line `<!ENTITY name PUBLIC "p" "s" NDATA notation>`, with the
        same `SYSTEM` spelling as `ExternalEntityDeclaration`; see
        `UnparsedEntityDeclarationIdentifier`. */
    function UnparsedEntityDeclaration(
      name: string, publicID: Option<string>, systemID: string, notation: string): (r: string)
      reads this
      ensures IsLine(r, declarationInInternalSubsetIndentation, linebreak)
      ensures HasSuffix(r, " \"" + systemID + "\" NDATA " + notation + ">" + linebreak)
      ensures |r| >= |declarationInInternalSubsetIndentation| + 9 + |name|
      ensures r[..|declarationInInternalSubsetIndentation| + 9 + |name|]
              == declarationInInternalSubsetIndentation + ("<!ENTITY " + name)
    {
      var ind := declarationInInternalSubsetIndentation;
      var a := "<!ENTITY " + name;
      var z := " \"" + systemID + "\" NDATA " + notation + ">";
      LineParts(ind, a, EntityIdentifier(publicID), z, linebreak);
      ind + (a + EntityIdentifier(publicID) + z) + linebreak
    }

    /** `<!NOTATION name PUBLIC "p" "s"` or `<!NOTATION name SYSTEM "s"`, indented,
        followed by the line break and only then by `>`; see
        `NotationDeclarationIdentifier`. */
    function NotationDeclaration(name: string, publicID: Option<string>, systemID: Option<string>): (r: string)
      reads this
      ensures IsLine(r, declarationInInternalSubsetIndentation, linebreak + ">")
      ensures |r| >= |declarationInInternalSubsetIndentation| + 11 + |name|
      ensures r[..|declarationInInternalSubsetIndentation| + 11 + |name|]
              == declarationInInternalSubsetIndentation + ("<!NOTATION " + name)
    {
      var ind := declarationInInternalSubsetIndentation;
      var a := "<!NOTATION " + name;
      LineParts2(ind, a, ExternalIdentifier(publicID, systemID), linebreak + ">");
      ind + (a + ExternalIdentifier(publicID, systemID)) + (linebreak + ">")
    }

    /** `<!ENTITY % name "value"`, indented, followed by the line break and then
        `>`; `ParameterEntityDeclarationValue` states that the quoted value
        decodes to `value`. */
    function ParameterEntityDeclaration(name: string, value: string): (r: string)
      reads this
      ensures IsLine(r, declarationInInternalSubsetIndentation, linebreak + ">")
      ensures HasSuffix(r, "\"" + (linebreak + ">"))
      ensures |r| >= |declarationInInternalSubsetIndentation| + 13 + |name|
      ensures r[..|declarationInInternalSubsetIndentation| + 13 + |name|]
              == declarationInInternalSubsetIndentation + ("<!ENTITY % " + name + " \"")
    {
      var ind := declarationInInternalSubsetIndentation;
      var a := "<!ENTITY % " + name + " \"";
      var q := EscapeDoubleQuotedValue(value);
      LineParts(ind, a, q, "\"", linebreak + ">");
      ind + (a + q + "\"") + (linebreak + ">")
    }

    /** The declaration's literal text on an indented line; `name` is not used. */
    function ElementDeclaration(name: string, text: string): (r: string)
      reads this
      ensures IsLine(r, declarationInInternalSubsetIndentation, linebreak)
      ensures r[|declarationInInternalSubsetIndentation|..|r| - |linebreak|] == text
    {
      declarationInInternalSubsetIndentation + text + linebreak
    }

    /** The declaration's literal text on an indented line; `name` is not used. */
    function AttributeListDeclaration(name: string, text: string): (r: string)
      reads this
      ensures IsLine(r, declarationInInternalSubsetIndentation, linebreak)
      ensures r[|declarationInInternalSubsetIndentation|..|r| - |linebreak|] == text
    {
      declarationInInternalSubsetIndentation + text + linebreak
    }

    /** The entity reference `&name;`. */
    function InternalEntity(name: string): (r: string)
      ensures |r| == |name| + 2 && r[0] == '&' && r[|r| - 1] == ';' && r[1..|r| - 1] == name
    {
      "&" + name + ";"
    }

    /** The entity reference `&name;`, written exactly as an internal one. */
    function ExternalEntity(name: string): (r: string)
      ensures r == InternalEntity(name)
    {
      "&" + name + ";"
    }

    function DocumentEnd(): (r: string)
      ensures r == ""
    {
      ""
    }
  }

  /** Beginning of every XML declaration. */
  const XmlDeclarationHead := "<?xml version=\"1.0\""

  /** `key` (such as ` encoding="`), the value and a closing quote when the
      value is present, nothing otherwise. */
  function PseudoAttribute(key: string, v: Option<string>): string {
    if v.Some? then key + v.GetOr("?") + "\"" else ""
  }

  /** A reader can tell from the text whether the pseudo-attribute is present:
      it is, exactly when the text continues with its key. */
  lemma PseudoAttributeStart(key: string, v: Option<string>, rest: string)
    requires |key| >= 2 && |rest| >= 2 && rest[1] != key[1]
    ensures v.Some? <==> key <= PseudoAttribute(key, v) + rest
    ensures v.Some? ==> key + v.value + "\"" <= PseudoAttribute(key, v) + rest
    ensures |PseudoAttribute(key, v)| == if v.Some? then |key| + |v.value| + 1 else 0
    ensures |PseudoAttribute(key, v) + rest| >= 2
    ensures (PseudoAttribute(key, v) + rest)[1] == if v.Some? then key[1] else rest[1]
  {
    if v.None? {
      NotPrefixAt(key, rest, 1);
    }
  }

  /** The external identifier of a DOCTYPE or notation declaration: ` PUBLIC "p"`
      when there is a public identifier, then ` "s"` for a system identifier,
      spelled ` SYSTEM "s"` when it stands alone. */
  function ExternalIdentifier(publicID: Option<string>, systemID: Option<string>): string {
    (if publicID.Some? then " PUBLIC \"" + publicID.GetOr("") + "\"" else "")
    + (if systemID.Some? then (if publicID.None? then " SYSTEM" else "") + " \"" + systemID.GetOr("") + "\"" else "")
  }

  lemma ExternalIdentifierShape(publicID: Option<string>, systemID: Option<string>)
    ensures publicID.Some? ==> " PUBLIC \"" + publicID.value + "\"" <= ExternalIdentifier(publicID, systemID)
    ensures publicID.None? && systemID.Some? ==>
      ExternalIdentifier(publicID, systemID) == " SYSTEM \"" + systemID.value + "\""
    ensures systemID.Some? ==> HasSuffix(ExternalIdentifier(publicID, systemID), " \"" + systemID.value + "\"")
    ensures publicID.None? && systemID.None? ==> ExternalIdentifier(publicID, systemID) == ""
  {
    if publicID.Some? {
      ExternalIdentifierPublic(publicID.value, systemID);
    }
    if systemID.Some? {
      ExternalIdentifierSystem(publicID, systemID.value);
    }
  }

  lemma ExternalIdentifierPublic(publicID: string, systemID: Option<string>)
    ensures " PUBLIC \"" + publicID + "\"" <= ExternalIdentifier(Some(publicID), systemID)
  {
    var p := " PUBLIC \"" + publicID + "\"";
    var q := if systemID.Some? then " \"" + systemID.value + "\"" else "";
    assert ExternalIdentifier(Some(publicID), systemID) == p + q;
    PrefixConcat(p, p, q);
  }

  lemma ExternalIdentifierSystem(publicID: Option<string>, systemID: string)
    ensures HasSuffix(ExternalIdentifier(publicID, Some(systemID)), " \"" + systemID + "\"")
    ensures publicID.None? ==> ExternalIdentifier(publicID, Some(systemID)) == " SYSTEM \"" + systemID + "\""
  {
    var p := if publicID.Some? then " PUBLIC \"" + publicID.value + "\"" else "";
    var k := if publicID.None? then " SYSTEM" else "";
    var t := " \"" + systemID + "\"";
    assert ExternalIdentifier(publicID, Some(systemID)) == p + k + t;
    SuffixOf(p + k, t);
  }

  lemma SuffixOf(a: string, t: string)
    ensures HasSuffix(a + t, t)
  {
    assert (a + t)[|a + t| - |t|..] == t;
  }

  /** The identifier part of an external or unparsed entity declaration:
      ` PUBLIC "p"`, or `SYSTEM` with no space before it. */
  function EntityIdentifier(publicID: Option<string>): string {
    if publicID.Some? then " PUBLIC \"" + publicID.GetOr("") + "\"" else "SYSTEM"
  }

  /** The encoding pseudo-attribute follows `<?xml version="1.0"` exactly when an
      encoding is given, and carries it. */
  lemma XmlDeclarationEncoding(f: DefaultXMLFormatter, version: string, encoding: Option<string>,
                               standalone: Option<string>)
    ensures var r := f.XmlDeclaration(version, encoding, standalone);
            (encoding.Some? <==> " encoding=\"" <= r[XmlDeclarationPrefixLength..])
            && (encoding.Some? ==> " encoding=\"" + encoding.value + "\"" <= r[XmlDeclarationPrefixLength..])
  {
    var e := PseudoAttribute(" encoding=\"", encoding);
    var rest := PseudoAttribute(" standalone=\"", standalone) + ("?>" + f.linebreak);
    var sa := PseudoAttribute(" standalone=\"", standalone);
    var r := f.XmlDeclaration(version, encoding, standalone);
    assert r == XmlDeclarationHead + (e + rest) by {
      Regroup3(XmlDeclarationHead, e, sa, "?>" + f.linebreak);
    }
    assert r[XmlDeclarationPrefixLength..] == e + rest by {
      Halves(XmlDeclarationHead, e + rest);
    }
    EncodingAttributeStart(encoding, standalone, f.linebreak);
  }

  lemma EncodingAttributeStart(encoding: Option<string>, standalone: Option<string>, linebreak: string)
    ensures var rest := PseudoAttribute(" encoding=\"", encoding)
                        + (PseudoAttribute(" standalone=\"", standalone) + ("?>" + linebreak));
            (encoding.Some? <==> " encoding=\"" <= rest)
            && (encoding.Some? ==> " encoding=\"" + encoding.value + "\"" <= rest)
  {
    var tail := "?>" + linebreak;
    var sa := PseudoAttribute(" standalone=\"", standalone);
    PseudoAttributeStart(" standalone=\"", standalone, tail);
    PseudoAttributeStart(" encoding=\"", encoding, sa + tail);
  }

  /** The standalone pseudo-attribute follows the encoding, or the version when
      there is no encoding, exactly when it is given, and carries it. */
  lemma XmlDeclarationStandalone(f: DefaultXMLFormatter, version: string, encoding: Option<string>,
                                 standalone: Option<string>)
    ensures var r := f.XmlDeclaration(version, encoding, standalone);
            var k := if encoding.Some? then 31 + |encoding.value| else XmlDeclarationPrefixLength;
            k <= |r| && (standalone.Some? <==> " standalone=\"" <= r[k..])
            && (standalone.Some? ==> " standalone=\"" + standalone.value + "\"" <= r[k..])
  {
    var e := PseudoAttribute(" encoding=\"", encoding);
    var sa := PseudoAttribute(" standalone=\"", standalone);
    var tail := "?>" + f.linebreak;
    assert f.XmlDeclaration(version, encoding, standalone) == (XmlDeclarationHead + e) + sa + tail;
    Split3(XmlDeclarationHead + e, sa, tail);
    PseudoAttributeStart(" standalone=\"", standalone, tail);
  }

  /** After `<!DOCTYPE type` comes ` PUBLIC "p"` exactly when there is a public
      identifier, and ` SYSTEM` exactly when there is a system identifier only. */
  lemma DoctypeExternalIdentifier(f: DefaultXMLFormatter, docType: string, publicID: Option<string>,
                                  systemID: Option<string>, hasInternalSubset: bool)
    ensures var r := f.DocumentTypeDeclarationBeforeInternalSubset(docType, publicID, systemID, hasInternalSubset);
            var rest := r[10 + |docType|..];
            (publicID.Some? <==> " PUBLIC \"" <= rest)
            && (publicID.Some? ==> " PUBLIC \"" + publicID.value + "\"" <= rest)
            && (systemID.Some? && publicID.None? <==> " SYSTEM" <= rest)
  {
    var head := "<!DOCTYPE " + docType;
    var x := ExternalIdentifier(publicID, systemID);
    assert f.DocumentTypeDeclarationBeforeInternalSubset(docType, publicID, systemID, hasInternalSubset) == head + x;
    assert (head + x)[|head|..] == x;
    ExternalIdentifierShape(publicID, systemID);
    PrefixConcatIf(publicID.Some?, " PUBLIC \"", " PUBLIC \"" + publicID.GetOr("") + "\"", "");
    NotPrefixAtIf(publicID.Some?, " SYSTEM", x, 1);
    NotPrefixAtIf(publicID.None? && systemID.Some?, " PUBLIC \"", x, 1);
  }

  /** A value escaped for a double-quoted literal holds no `"` and decodes back. */
  lemma QuotedValue(value: string)
    ensures '"' !in EscapeDoubleQuotedValue(value)
    ensures Unescape(DoubleQuotedValue, EscapeDoubleQuotedValue(value)) == value
  {
    EscapeDoubleQuotedValueShape(value);
    EscapeRoundTrip(DoubleQuotedValue, value);
  }

  /** The quoted value of an internal entity declaration is the escaped value:
      it holds no `"` and decodes to the entity's value. */
  lemma InternalEntityDeclarationValue(f: DefaultXMLFormatter, name: string, value: string)
    ensures var r := f.InternalEntityDeclaration(name, value);
            var k := |f.declarationInInternalSubsetIndentation| + 11 + |name|;
            k + 2 + |f.linebreak| <= |r|
            && r[k..|r| - |f.linebreak| - 2] == EscapeDoubleQuotedValue(value)
            && '"' !in r[k..|r| - |f.linebreak| - 2]
            && Unescape(DoubleQuotedValue, r[k..|r| - |f.linebreak| - 2]) == value
  {
    var ind, a, q := f.declarationInInternalSubsetIndentation, "<!ENTITY " + name + " \"", EscapeDoubleQuotedValue(value);
    assert f.InternalEntityDeclaration(name, value) == ind + (a + q + "\">") + f.linebreak;
    QuotedMiddle(ind, a, q, "\">", f.linebreak, value);
  }

  /** The quoted value of a parameter entity declaration is the escaped value:
      it holds no `"` and decodes to the entity's value. */
  lemma ParameterEntityDeclarationValue(f: DefaultXMLFormatter, name: string, value: string)
    ensures var r := f.ParameterEntityDeclaration(name, value);
            var k := |f.declarationInInternalSubsetIndentation| + 13 + |name|;
            k + 2 + |f.linebreak| <= |r|
            && r[k..|r| - |f.linebreak| - 2] == EscapeDoubleQuotedValue(value)
            && '"' !in r[k..|r| - |f.linebreak| - 2]
            && Unescape(DoubleQuotedValue, r[k..|r| - |f.linebreak| - 2]) == value
  {
    var ind, a, q := f.declarationInInternalSubsetIndentation, "<!ENTITY % " + name + " \"", EscapeDoubleQuotedValue(value);
    assert f.ParameterEntityDeclaration(name, value) == ind + (a + q + "\"") + (f.linebreak + ">");
    QuotedMiddle(ind, a, q, "\"", f.linebreak + ">", value);
  }

  /** The escaped value in the middle of `ind + (a + q + z) + lb`. */
  lemma QuotedMiddle(ind: string, a: string, q: string, z: string, lb: string, value: string)
    requires q == EscapeDoubleQuotedValue(value)
    ensures var r := ind + (a + q + z) + lb;
            |ind| + |a| + |z| + |lb| <= |r| && r[|ind| + |a|..|r| - |z| - |lb|] == q
            && '"' !in q && Unescape(DoubleQuotedValue, q) == value
  {
    LineParts(ind, a, q, z, lb);
    QuotedValue(value);
  }

  /** What follows the name in an external entity declaration. */
  lemma ExternalEntityDeclarationRest(f: DefaultXMLFormatter, name: string, publicID: Option<string>,
                                      systemID: string)
    ensures var r := f.ExternalEntityDeclaration(name, publicID, systemID);
            |r| >= |f.declarationInInternalSubsetIndentation| + 9 + |name|
            && r[|f.declarationInInternalSubsetIndentation| + 9 + |name|..]
               == EntityIdentifier(publicID) + (" \"" + systemID + "\">" + f.linebreak)
  {
    var ind, a := f.declarationInInternalSubsetIndentation, "<!ENTITY " + name;
    RestAfter(ind, a, EntityIdentifier(publicID), " \"" + systemID + "\">", f.linebreak);
  }

  /** What follows the fixed start of a declaration line. */
  lemma RestAfter(ind: string, a: string, m: string, z: string, lb: string)
    ensures var r := ind + (a + m + z) + lb;
            |r| >= |ind| + |a| && r[|ind| + |a|..] == m + (z + lb)
  {
    var r := ind + (a + m + z) + lb;
    assert r == (ind + a) + (m + (z + lb));
    Halves(ind + a, m + (z + lb));
  }

  /** After the entity name comes ` PUBLIC "p"`, or, without a public identifier,
      `SYSTEM "s">` directly. */
  lemma ExternalEntityDeclarationIdentifier(f: DefaultXMLFormatter, name: string, publicID: Option<string>,
                                            systemID: string)
    ensures var r := f.ExternalEntityDeclaration(name, publicID, systemID);
            var rest := r[|f.declarationInInternalSubsetIndentation| + 9 + |name|..];
            (publicID.Some? ==> " PUBLIC \"" + publicID.value + "\"" <= rest)
            && (publicID.None? ==> "SYSTEM \"" + systemID + "\">" <= rest)
  {
    ExternalEntityDeclarationRest(f, name, publicID, systemID);
    ExternalEntityIdentifierStart(publicID, systemID, f.linebreak);
  }

  lemma ExternalEntityIdentifierStart(publicID: Option<string>, systemID: string, linebreak: string)
    ensures var rest := EntityIdentifier(publicID) + (" \"" + systemID + "\">" + linebreak);
            (publicID.Some? ==> " PUBLIC \"" + publicID.value + "\"" <= rest)
            && (publicID.None? ==> "SYSTEM \"" + systemID + "\">" <= rest)
  {
    var tail := " \"" + systemID + "\">" + linebreak;
    if publicID.Some? {
      PrefixConcat(" PUBLIC \"" + publicID.value + "\"", EntityIdentifier(publicID), tail);
    } else {
      var p := "SYSTEM \"" + systemID + "\">";
      assert "SYSTEM" + tail == p + linebreak;
      PrefixConcat(p, p, linebreak);
    }
  }

  /** What follows the name in an unparsed entity declaration. */
  lemma UnparsedEntityDeclarationRest(f: DefaultXMLFormatter, name: string, publicID: Option<string>,
                                      systemID: string, notation: string)
    ensures var r := f.UnparsedEntityDeclaration(name, publicID, systemID, notation);
            |r| >= |f.declarationInInternalSubsetIndentation| + 9 + |name|
            && r[|f.declarationInInternalSubsetIndentation| + 9 + |name|..]
               == EntityIdentifier(publicID) + (" \"" + systemID + "\" NDATA " + notation + ">" + f.linebreak)
  {
    var ind, a := f.declarationInInternalSubsetIndentation, "<!ENTITY " + name;
    RestAfter(ind, a, EntityIdentifier(publicID), " \"" + systemID + "\" NDATA " + notation + ">", f.linebreak);
  }

  /** After the entity name comes ` PUBLIC "p"`, or, without a public identifier,
      `SYSTEM "s" NDATA ` directly. */
  lemma UnparsedEntityDeclarationIdentifier(f: DefaultXMLFormatter, name: string, publicID: Option<string>,
                                            systemID: string, notation: string)
    ensures var r := f.UnparsedEntityDeclaration(name, publicID, systemID, notation);
            var rest := r[|f.declarationInInternalSubsetIndentation| + 9 + |name|..];
            (publicID.Some? ==> " PUBLIC \"" + publicID.value + "\"" <= rest)
            && (publicID.None? ==> "SYSTEM \"" + systemID + "\" NDATA " <= rest)
  {
    UnparsedEntityDeclarationRest(f, name, publicID, systemID, notation);
    UnparsedEntityIdentifierStart(publicID, systemID, notation, f.linebreak);
  }

  lemma UnparsedEntityIdentifierStart(publicID: Option<string>, systemID: string, notation: string, linebreak: string)
    ensures var rest := EntityIdentifier(publicID) + (" \"" + systemID + "\" NDATA " + notation + ">" + linebreak);
            (publicID.Some? ==> " PUBLIC \"" + publicID.value + "\"" <= rest)
            && (publicID.None? ==> "SYSTEM \"" + systemID + "\" NDATA " <= rest)
  {
    var tail := " \"" + systemID + "\" NDATA " + notation + ">" + linebreak;
    if publicID.Some? {
      PrefixConcat(" PUBLIC \"" + publicID.value + "\"", EntityIdentifier(publicID), tail);
    } else {
      var p := "SYSTEM \"" + systemID + "\" NDATA ";
      assert "SYSTEM" + tail == p + (notation + ">" + linebreak);
      PrefixConcat(p, p, notation + ">" + linebreak);
    }
  }

  /** What follows the name in a notation declaration. */
  lemma NotationDeclarationRest(f: DefaultXMLFormatter, name: string, publicID: Option<string>,
                                systemID: Option<string>)
    ensures var r := f.NotationDeclaration(name, publicID, systemID);
            |r| >= |f.declarationInInternalSubsetIndentation| + 11 + |name|
            && r[|f.declarationInInternalSubsetIndentation| + 11 + |name|..]
               == ExternalIdentifier(publicID, systemID) + (f.linebreak + ">")
  {
    var ind, a, x := f.declarationInInternalSubsetIndentation, "<!NOTATION " + name, ExternalIdentifier(publicID, systemID);
    LineParts2(ind, a, x, f.linebreak + ">");
  }

  /** After the notation name comes ` PUBLIC "p"` when there is a public
      identifier, ` SYSTEM "s"` when there is a system identifier only, and
      otherwise directly the line break and `>`. */
  lemma NotationDeclarationIdentifier(f: DefaultXMLFormatter, name: string, publicID: Option<string>,
                                      systemID: Option<string>)
    ensures var r := f.NotationDeclaration(name, publicID, systemID);
            var rest := r[|f.declarationInInternalSubsetIndentation| + 11 + |name|..];
            (publicID.Some? ==> " PUBLIC \"" + publicID.value + "\"" <= rest)
            && (publicID.None? && systemID.Some? ==> " SYSTEM \"" + systemID.value + "\"" <= rest)
            && (publicID.None? && systemID.None? ==> rest == f.linebreak + ">")
  {
    NotationDeclarationRest(f, name, publicID, systemID);
    ExternalIdentifierShape(publicID, systemID);
    var x := ExternalIdentifier(publicID, systemID);
    if publicID.Some? {
      PrefixConcat(" PUBLIC \"" + publicID.value + "\"", x, f.linebreak + ">");
    } else if systemID.Some? {
      PrefixConcat(" SYSTEM \"" + systemID.value + "\"", x, f.linebreak + ">");
    } else {
      assert x + (f.linebreak + ">") == f.linebreak + ">";
    }
  }

  /** A formatter starts with the defaults, and each setter changes its own
      field only; the fragments built afterwards use the new values. */
  method ConfigurationExample()
  {
    var f := new DefaultXMLFormatter();
    assert f.DocumentTypeDeclarationAfterInternalSubset("root", None, None, false) == ">\n";
    f.SetLinebreak("\r\n");
    assert f.declarationInInternalSubsetIndentation == " ";
    assert f.DocumentTypeDeclarationAfterInternalSubset("root", None, None, false) == ">\r\n";
    f.SetDeclarationInInternalSubsetIndentation("  ");
    assert f.linebreak == "\r\n";
    assert f.ElementDeclaration("a", "<!ELEMENT a ANY>") == "  " + "<!ELEMENT a ANY>" + "\r\n";
  }
}
