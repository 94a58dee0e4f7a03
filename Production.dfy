/** `DefaultXMLProduction`: the same vocabulary as `DefaultXMLFormatter`, but
    each call writes its text to a file handle, piece by piece, instead of
    returning it.

    The file handle is a class whose text only grows. Every output method is
    specified by `Written`, the text that one call appends for a given line break
    and indentation. `Written` is then compared with the formatter: most calls
    append exactly the formatter's fragment, and the remaining ones differ as the
    source has them (no `=` in attributes, no closing quote in internal entity
    declarations, `PUBLIC` without a leading space, and `>` before the line
    break in notation and parameter-entity declarations). */
module Production {
  import opened Common
  import Escaping
  import Sorting
  import Formatting

  /** An output file; `text` is everything written to it so far. */
  class FileHandle {
    var text: string

    constructor (text: string)
      ensures this.text == text
    {
      this.text := text;
    }

    /** `FileHandle.write`: appends. */
    method Write(s: string)
      modifies this
      ensures text == old(text) + s
    {
      text := text + s;
    }
  }

  /** One call of the production vocabulary, with its arguments. */
  datatype Call =
    | DocumentStart
    | XmlDeclaration(version: string, encoding: Option<string>, standalone: Option<string>)
    | DocumentTypeDeclarationBeforeInternalSubset(
        docType: string, publicID: Option<string>, systemID: Option<string>, hasInternalSubset: bool)
    | DocumentTypeDeclarationInternalSubsetStart
    | DocumentTypeDeclarationInternalSubsetEnd
    | DocumentTypeDeclarationAfterInternalSubset(
        docType: string, publicID: Option<string>, systemID: Option<string>, hasInternalSubset: bool)
    | ElementStartBeforeAttributes(name: string, hasAttributes: bool, isEmpty: bool)
    | AttributeValue(value: string)
    | Attribute(name: string, value: string)
    | ElementStartAfterAttributes(name: string, hasAttributes: bool, isEmpty: bool)
    | ElementEnd(name: string, hasAttributes: bool, isEmpty: bool)
    | Text(text: string)
    | CdataSection(text: string)
    | ProcessingInstruction(target: string, content: Option<string>)
    | Comment(text: string)
    | InternalEntityDeclaration(name: string, value: string)
    | ExternalEntityDeclaration(name: string, publicID: Option<string>, systemLiteral: string)
    | UnparsedEntityDeclaration(name: string, publicID: Option<string>, systemLiteral: string, notation: string)
    | NotationDeclaration(name: string, publicID: Option<string>, systemID: Option<string>)
    | ParameterEntityDeclaration(name: string, value: string)
    | ElementDeclaration(name: string, text: string)
    | AttributeListDeclaration(name: string, text: string)
    | InternalEntity(name: string)
    | ExternalEntity(name: string)
    | DocumentEnd
  {
    /** The declarations that go into the internal subset of a DOCTYPE. */
    predicate IsDeclaration() {
      InternalEntityDeclaration? || ExternalEntityDeclaration? || UnparsedEntityDeclaration?
      || NotationDeclaration? || ParameterEntityDeclaration? || ElementDeclaration?
      || AttributeListDeclaration?
    }

    /** The calls whose text is the formatter's fragment, character for character. */
    predicate AgreesWithFormatter() {
      !(Attribute? || InternalEntityDeclaration? || NotationDeclaration? || ParameterEntityDeclaration?
        || ((ExternalEntityDeclaration? || UnparsedEntityDeclaration?) && publicID.Some?))
    }
  }

  /** The text one call appends, the concatenation of its `write`s. */
  function Written(c: Call, linebreak: string, indentation: string): string {
    match c
    case DocumentStart => ""
    case XmlDeclaration(_, encoding, standalone) =>
      "<?xml version=\"1.0\""
      + (if encoding.Some? then " encoding=\"" + encoding.value + "\"" else "")
      + (if standalone.Some? then " standalone=\"" + standalone.value + "\"" else "")
      + "?>" + linebreak
    case DocumentTypeDeclarationBeforeInternalSubset(docType, publicID, systemID, _) =>
      "<!DOCTYPE " + docType
      + (if publicID.Some? then " PUBLIC \"" + publicID.value + "\"" else "")
      + (if systemID.Some? then (if publicID.None? then " SYSTEM" else "") + " \"" + systemID.value + "\"" else "")
    case DocumentTypeDeclarationInternalSubsetStart => linebreak + "[" + linebreak
    case DocumentTypeDeclarationInternalSubsetEnd => "]"
    case DocumentTypeDeclarationAfterInternalSubset(_, _, _, _) => ">" + linebreak
    case ElementStartBeforeAttributes(name, _, _) => "<" + name
    case AttributeValue(value) => Escaping.EscapeDoubleQuotedValue(value)
    case Attribute(name, value) => " " + name + "\"" + Escaping.EscapeDoubleQuotedValue(value) + "\""
    case ElementStartAfterAttributes(_, _, isEmpty) => if isEmpty then "/>" else ">"
    case ElementEnd(name, _, isEmpty) => if !isEmpty then "</" + name + ">" else ""
    case Text(text) => Escaping.EscapeText(text)
    case CdataSection(text) => "<![CDATA[" + text + "]]>"
    case ProcessingInstruction(target, content) =>
      "<?" + target + (if content.Some? then " \"" + content.value + "\"" else "") + "?>"
    case Comment(text) => "<!--" + text + "-->"
    case InternalEntityDeclaration(name, value) =>
      indentation + "<!ENTITY " + name + " \"" + Escaping.EscapeDoubleQuotedValue(value) + ">" + linebreak
    case ExternalEntityDeclaration(name, publicID, systemLiteral) =>
      indentation + "<!ENTITY " + name
      + (if publicID.Some? then "PUBLIC \"" + publicID.value + "\" \"" else "SYSTEM \"")
      + systemLiteral + "\">" + linebreak
    case UnparsedEntityDeclaration(name, publicID, systemLiteral, notation) =>
      indentation + "<!ENTITY " + name
      + (if publicID.Some? then "PUBLIC \"" + publicID.value + "\" \"" else "SYSTEM \"")
      + systemLiteral + "\" NDATA " + notation + ">" + linebreak
    case NotationDeclaration(name, publicID, systemID) =>
      indentation + "<!NOTATION " + name
      + (if publicID.Some? then "PUBLIC \"" + publicID.value + "\"" else "")
      + (if systemID.Some? then (if publicID.None? then " SYSTEM" else "") + " \"" + systemID.value + "\"" else "")
      + ">" + linebreak
    case ParameterEntityDeclaration(name, value) =>
      indentation + "<!ENTITY % " + name + " \"" + Escaping.EscapeDoubleQuotedValue(value) + "\">" + linebreak
    case ElementDeclaration(_, text) => indentation + text + linebreak
    case AttributeListDeclaration(_, text) => indentation + text + linebreak
    case InternalEntity(name) => "&" + name + ";"
    case ExternalEntity(name) => "&" + name + ";"
    case DocumentEnd => ""
  }

  // Regrouping of the successive writes of one call.

  /** Only regroups a concatenation; a hint for the proofs of the output methods and the lemmas below. */
  lemma Assoc2(s: string, a: string, b: string)
    ensures s + a + b == s + (a + b)
  {
  }

  /** Only regroups a concatenation; a hint for the proofs of the output methods and the lemmas below. */
  lemma Assoc3(s: string, a: string, b: string, c: string)
    ensures s + a + b + c == s + (a + b + c)
  {
  }

  /** Only regroups a concatenation; a hint for the proofs of the output methods and the lemmas below. */
  lemma Assoc4(s: string, a: string, b: string, c: string, d: string)
    ensures s + a + b + c + d == s + (a + b + c + d)
  {
  }

  /** Only regroups a concatenation; a hint for the proofs of the output methods and the lemmas below. */
  lemma Assoc5(s: string, a: string, b: string, c: string, d: string, e: string)
    ensures s + a + b + c + d + e == s + (a + b + c + d + e)
  {
  }

  /** Only regroups a concatenation; a hint for the proofs of the output methods and the lemmas below. */
  lemma Assoc6(s: string, a: string, b: string, c: string, d: string, e: string, g: string)
    ensures s + a + b + c + d + e + g == s + (a + b + c + d + e + g)
  {
  }

  /** Only regroups a concatenation; a hint for the proofs of the output methods and the lemmas below. */
  lemma Assoc7(s: string, a: string, b: string, c: string, d: string, e: string, g: string, h: string)
    ensures s + a + b + c + d + e + g + h == s + (a + b + c + d + e + g + h)
  {
  }

  /** Only regroups a concatenation: three more writes extend the text `w` written so far. */
  lemma Extend3(s: string, w: string, a: string, b: string, c: string)
    ensures s + w + a + b + c == s + (w + (a + b + c))
  {
  }

  /** Only regroups a concatenation: four more writes extend the text written so far. */
  lemma Extend4(s: string, w: string, x: string, a: string, b: string, c: string)
    ensures s + w + x + a + b + c == s + (w + (x + a + b + c))
  {
  }

  /** `Written` for an XML declaration, unfolded for the method that writes it. */
  lemma WrittenXmlDeclaration(version: string, encoding: Option<string>, standalone: Option<string>,
                              linebreak: string, indentation: string)
    ensures Written(Call.XmlDeclaration(version, encoding, standalone), linebreak, indentation)
            == "<?xml version=\"1.0\""
               + (if encoding.Some? then " encoding=\"" + encoding.value + "\"" else "")
               + (if standalone.Some? then " standalone=\"" + standalone.value + "\"" else "")
               + "?>" + linebreak
  {
  }

  /** `Written` for an external entity declaration, unfolded for the method that writes it. */
  lemma WrittenExternalEntityDeclaration(name: string, publicID: Option<string>, systemLiteral: string,
                                         linebreak: string, indentation: string)
    ensures Written(Call.ExternalEntityDeclaration(name, publicID, systemLiteral), linebreak, indentation)
            == indentation + "<!ENTITY " + name
               + (if publicID.Some? then "PUBLIC \"" + publicID.value + "\" \"" else "SYSTEM \"")
               + systemLiteral + "\">" + linebreak
  {
  }

  /** `Written` for an unparsed entity declaration, unfolded for the method that writes it. */
  lemma WrittenUnparsedEntityDeclaration(name: string, publicID: Option<string>, systemLiteral: string,
                                         notation: string, linebreak: string, indentation: string)
    ensures Written(Call.UnparsedEntityDeclaration(name, publicID, systemLiteral, notation), linebreak, indentation)
            == indentation + "<!ENTITY " + name
               + (if publicID.Some? then "PUBLIC \"" + publicID.value + "\" \"" else "SYSTEM \"")
               + systemLiteral + "\" NDATA " + notation + ">" + linebreak
  {
  }

  /** `Written` for the start of a DOCTYPE, unfolded for the method that writes it. */
  lemma WrittenDoctype(docType: string, publicID: Option<string>, systemID: Option<string>, hasInternalSubset: bool,
                       linebreak: string, indentation: string)
    ensures Written(Call.DocumentTypeDeclarationBeforeInternalSubset(docType, publicID, systemID, hasInternalSubset),
                    linebreak, indentation)
            == "<!DOCTYPE " + docType
               + (if publicID.Some? then " PUBLIC \"" + publicID.value + "\"" else "")
               + (if systemID.Some? then (if publicID.None? then " SYSTEM" else "") + " \"" + systemID.value + "\"" else "")
  {
  }

  /** `Written` for a notation declaration, unfolded for the method that writes it. */
  lemma WrittenNotation(name: string, publicID: Option<string>, systemID: Option<string>, linebreak: string,
                        indentation: string)
    ensures Written(Call.NotationDeclaration(name, publicID, systemID), linebreak, indentation)
            == indentation + "<!NOTATION " + name
               + (if publicID.Some? then "PUBLIC \"" + publicID.value + "\"" else "")
               + (if systemID.Some? then (if publicID.None? then " SYSTEM" else "") + " \"" + systemID.value + "\"" else "")
               + ">" + linebreak
  {
  }

  class DefaultXMLProduction {
    var file: FileHandle
    var linebreak: string
    var declarationInInternalSubsetIndentation: string

    /** `init(file:)`: writes to `file`, with a line feed and one space. */
    constructor (file: FileHandle)
      ensures this.file == file
      ensures linebreak == "\n" && declarationInInternalSubsetIndentation == " "
    {
      this.file := file;
      linebreak := "\n";
      declarationInInternalSubsetIndentation := " ";
    }

    /** `set(file:)`: later output goes to `file`; the configuration is kept. */
    method SetFile(file: FileHandle)
      modifies this
      ensures this.file == file
      ensures linebreak == old(linebreak)
      ensures declarationInInternalSubsetIndentation == old(declarationInInternalSubsetIndentation)
    {
      this.file := file;
    }

    /** The `linebreak` property setter. */
    method SetLinebreak(linebreak: string)
      modifies this
      ensures this.linebreak == linebreak
      ensures file == old(file)
      ensures declarationInInternalSubsetIndentation == old(declarationInInternalSubsetIndentation)
    {
      this.linebreak := linebreak;
    }

    /** The `declarationInInternalSubsetIndentation` property setter. */
    method SetDeclarationInInternalSubsetIndentation(indentation: string)
      modifies this
      ensures declarationInInternalSubsetIndentation == indentation
      ensures file == old(file)
      ensures linebreak == old(linebreak)
    {
      declarationInInternalSubsetIndentation := indentation;
    }

    /** `write(_:)`: appends `s` to the file and changes nothing else. */
    method Write(s: string)
      modifies file
      ensures file.text == old(file.text) + s
    {
      file.Write(s);
    }

    method DocumentStart()
      modifies file
      ensures file.text == old(file.text) + Written(Call.DocumentStart, linebreak, declarationInInternalSubsetIndentation)
    {
    }

    method XmlDeclaration(version: string, encoding: Option<string>, standalone: Option<string>)
      modifies file
      ensures file.text == old(file.text)
        + Written(Call.XmlDeclaration(version, encoding, standalone), linebreak, declarationInInternalSubsetIndentation)
    {
      ghost var start := file.text;
      Write("<?xml version=\"1.0\"");
      ghost var w := "<?xml version=\"1.0\"";
      if encoding.Some? {
        Write(" encoding=\"");
        Write(encoding.value);
        Write("\"");
        Extend3(start, w, " encoding=\"", encoding.value, "\"");
      } else {
        assert w + "" == w;
      }
      w := w + (if encoding.Some? then " encoding=\"" + encoding.value + "\"" else "");
      if standalone.Some? {
        Write(" standalone=\"");
        Write(standalone.value);
        Write("\"");
        Extend3(start, w, " standalone=\"", standalone.value, "\"");
      } else {
        assert w + "" == w;
      }
      w := w + (if standalone.Some? then " standalone=\"" + standalone.value + "\"" else "");
      Write("?>");
      Write(linebreak);
      Assoc3(start, w, "?>", linebreak);
      assert file.text == start + (w + "?>" + linebreak);
      WrittenXmlDeclaration(version, encoding, standalone, linebreak, declarationInInternalSubsetIndentation);
    }

    method DocumentTypeDeclarationBeforeInternalSubset(
      docType: string, publicID: Option<string>, systemID: Option<string>, hasInternalSubset: bool)
      modifies file
      ensures file.text == old(file.text)
        + Written(Call.DocumentTypeDeclarationBeforeInternalSubset(docType, publicID, systemID, hasInternalSubset),
                  linebreak, declarationInInternalSubsetIndentation)
    {
      ghost var start := file.text;
      Write("<!DOCTYPE ");
      Write(docType);
      Assoc2(start, "<!DOCTYPE ", docType);
      ghost var w := "<!DOCTYPE " + docType;
      if publicID.Some? {
        Write(" PUBLIC \"");
        Write(publicID.value);
        Write("\"");
        Extend3(start, w, " PUBLIC \"", publicID.value, "\"");
      } else {
        assert w + "" == w;
      }
      w := w + (if publicID.Some? then " PUBLIC \"" + publicID.value + "\"" else "");
      if systemID.Some? {
        ghost var x := if publicID.None? then " SYSTEM" else "";
        if publicID.None? {
          Write(" SYSTEM");
        } else {
          assert start + w + x == start + w;
        }
        Write(" \"");
        Write(systemID.value);
        Write("\"");
        Extend4(start, w, x, " \"", systemID.value, "\"");
      } else {
        assert w + "" == w;
      }
      w := w + (if systemID.Some? then (if publicID.None? then " SYSTEM" else "") + " \"" + systemID.value + "\"" else "");
      assert file.text == start + w;
      WrittenDoctype(docType, publicID, systemID, hasInternalSubset, linebreak, declarationInInternalSubsetIndentation);
    }

    method DocumentTypeDeclarationInternalSubsetStart()
      modifies file
      ensures file.text == old(file.text)
        + Written(Call.DocumentTypeDeclarationInternalSubsetStart, linebreak, declarationInInternalSubsetIndentation)
    {
      ghost var start := file.text;
      Write(linebreak);
      Write("[");
      Write(linebreak);
      Assoc3(start, linebreak, "[", linebreak);
    }

    method DocumentTypeDeclarationInternalSubsetEnd()
      modifies file
      ensures file.text == old(file.text)
        + Written(Call.DocumentTypeDeclarationInternalSubsetEnd, linebreak, declarationInInternalSubsetIndentation)
    {
      Write("]");
    }

    method DocumentTypeDeclarationAfterInternalSubset(
      docType: string, publicID: Option<string>, systemID: Option<string>, hasInternalSubset: bool)
      modifies file
      ensures file.text == old(file.text)
        + Written(Call.DocumentTypeDeclarationAfterInternalSubset(docType, publicID, systemID, hasInternalSubset),
                  linebreak, declarationInInternalSubsetIndentation)
    {
      ghost var start := file.text;
      Write(">");
      Write(linebreak);
      Assoc2(start, ">", linebreak);
    }

    method ElementStartBeforeAttributes(name: string, hasAttributes: bool, isEmpty: bool)
      modifies file
      ensures file.text == old(file.text)
        + Written(Call.ElementStartBeforeAttributes(name, hasAttributes, isEmpty),
                  linebreak, declarationInInternalSubsetIndentation)
    {
      ghost var start := file.text;
      Write("<");
      Write(name);
      Assoc2(start, "<", name);
    }

    method AttributeValue(value: string)
      modifies file
      ensures file.text == old(file.text)
        + Written(Call.AttributeValue(value), linebreak, declarationInInternalSubsetIndentation)
    {
      Write(Escaping.EscapeDoubleQuotedValue(value));
    }

    /** The order in which attributes are written: a sorted permutation of the
        names; nothing is written. */
    function SortedAttributeNames(attributeNames: seq<string>): (r: seq<string>)
      ensures Sorting.Sorted(r)
      ensures multiset(r) == multiset(attributeNames)
    {
      Sorting.Sort(attributeNames)
    }

    method Attribute(name: string, value: string)
      modifies file
      ensures file.text == old(file.text)
        + Written(Call.Attribute(name, value), linebreak, declarationInInternalSubsetIndentation)
    {
      ghost var start := file.text;
      Write(" ");
      Write(name);
      Write("\"");
      AttributeValue(value);
      Write("\"");
      Assoc5(start, " ", name, "\"", Escaping.EscapeDoubleQuotedValue(value), "\"");
    }

    method ElementStartAfterAttributes(name: string, hasAttributes: bool, isEmpty: bool)
      modifies file
      ensures file.text == old(file.text)
        + Written(Call.ElementStartAfterAttributes(name, hasAttributes, isEmpty),
                  linebreak, declarationInInternalSubsetIndentation)
    {
      if isEmpty {
        Write("/>");
      } else {
        Write(">");
      }
    }

    method ElementEnd(name: string, hasAttributes: bool, isEmpty: bool)
      modifies file
      ensures file.text == old(file.text)
        + Written(Call.ElementEnd(name, hasAttributes, isEmpty), linebreak, declarationInInternalSubsetIndentation)
    {
      ghost var start := file.text;
      if !isEmpty {
        Write("</");
        Write(name);
        Write(">");
        Assoc3(start, "</", name, ">");
      } else {
        assert start + "" == start;
      }
    }

    method Text(text: string)
      modifies file
      ensures file.text == old(file.text)
        + Written(Call.Text(text), linebreak, declarationInInternalSubsetIndentation)
    {
      Write(Escaping.EscapeText(text));
    }

    method CdataSection(text: string)
      modifies file
      ensures file.text == old(file.text)
        + Written(Call.CdataSection(text), linebreak, declarationInInternalSubsetIndentation)
    {
      ghost var start := file.text;
      Write("<![CDATA[");
      Write(text);
      Write("]]>");
      Assoc3(start, "<![CDATA[", text, "]]>");
    }

    method ProcessingInstruction(target: string, content: Option<string>)
      modifies file
      ensures file.text == old(file.text)
        + Written(Call.ProcessingInstruction(target, content), linebreak, declarationInInternalSubsetIndentation)
    {
      ghost var start := file.text;
      Write("<?");
      Write(target);
      Assoc2(start, "<?", target);
      ghost var w := "<?" + target;
      if content.Some? {
        Write(" \"");
        Write(content.value);
        Write("\"");
        Extend3(start, w, " \"", content.value, "\"");
      }
      w := w + (if content.Some? then " \"" + content.value + "\"" else "");
      Write("?>");
      Assoc2(start, w, "?>");
    }

    method Comment(text: string)
      modifies file
      ensures file.text == old(file.text)
        + Written(Call.Comment(text), linebreak, declarationInInternalSubsetIndentation)
    {
      ghost var start := file.text;
      Write("<!--");
      Write(text);
      Write("-->");
      Assoc3(start, "<!--", text, "-->");
    }

    method InternalEntityDeclaration(name: string, value: string)
      modifies file
      ensures file.text == old(file.text)
        + Written(Call.InternalEntityDeclaration(name, value), linebreak, declarationInInternalSubsetIndentation)
    {
      ghost var start := file.text;
      Write(declarationInInternalSubsetIndentation);
      Write("<!ENTITY ");
      Write(name);
      Write(" \"");
      Write(Escaping.EscapeDoubleQuotedValue(value));
      Write(">");
      Write(linebreak);
      Assoc7(start, declarationInInternalSubsetIndentation, "<!ENTITY ", name, " \"",
             Escaping.EscapeDoubleQuotedValue(value), ">", linebreak);
    }

    method ExternalEntityDeclaration(name: string, publicID: Option<string>, systemID: string)
      modifies file
      ensures file.text == old(file.text)
        + Written(Call.ExternalEntityDeclaration(name, publicID, systemID), linebreak,
                  declarationInInternalSubsetIndentation)
    {
      ghost var start := file.text;
      Write(declarationInInternalSubsetIndentation);
      Write("<!ENTITY ");
      Write(name);
      Assoc3(start, declarationInInternalSubsetIndentation, "<!ENTITY ", name);
      ghost var w := declarationInInternalSubsetIndentation + "<!ENTITY " + name;
      if publicID.Some? {
        Write("PUBLIC \"");
        Write(publicID.value);
        Write("\" \"");
        Extend3(start, w, "PUBLIC \"", publicID.value, "\" \"");
      } else {
        Write("SYSTEM \"");
        Assoc2(start, w, "SYSTEM \"");
      }
      w := w + (if publicID.Some? then "PUBLIC \"" + publicID.value + "\" \"" else "SYSTEM \"");
      Write(systemID);
      Write("\">");
      Write(linebreak);
      Assoc4(start, w, systemID, "\">", linebreak);
      assert file.text == start + (w + systemID + "\">" + linebreak);
      WrittenExternalEntityDeclaration(name, publicID, systemID, linebreak, declarationInInternalSubsetIndentation);
    }

    method UnparsedEntityDeclaration(name: string, publicID: Option<string>, systemID: string, notation: string)
      modifies file
      ensures file.text == old(file.text)
        + Written(Call.UnparsedEntityDeclaration(name, publicID, systemID, notation), linebreak,
                  declarationInInternalSubsetIndentation)
    {
      ghost var start := file.text;
      Write(declarationInInternalSubsetIndentation);
      Write("<!ENTITY ");
      Write(name);
      Assoc3(start, declarationInInternalSubsetIndentation, "<!ENTITY ", name);
      ghost var w := declarationInInternalSubsetIndentation + "<!ENTITY " + name;
      if publicID.Some? {
        Write("PUBLIC \"");
        Write(publicID.value);
        Write("\" \"");
        Extend3(start, w, "PUBLIC \"", publicID.value, "\" \"");
      } else {
        Write("SYSTEM \"");
        Assoc2(start, w, "SYSTEM \"");
      }
      w := w + (if publicID.Some? then "PUBLIC \"" + publicID.value + "\" \"" else "SYSTEM \"");
      Write(systemID);
      Write("\" NDATA ");
      Write(notation);
      Write(">");
      Write(linebreak);
      Assoc6(start, w, systemID, "\" NDATA ", notation, ">", linebreak);
      assert file.text == start + (w + systemID + "\" NDATA " + notation + ">" + linebreak);
      WrittenUnparsedEntityDeclaration(name, publicID, systemID, notation, linebreak,
                                       declarationInInternalSubsetIndentation);
    }

    method NotationDeclaration(name: string, publicID: Option<string>, systemID: Option<string>)
      modifies file
      ensures file.text == old(file.text)
        + Written(Call.NotationDeclaration(name, publicID, systemID), linebreak, declarationInInternalSubsetIndentation)
    {
      ghost var start := file.text;
      Write(declarationInInternalSubsetIndentation);
      Write("<!NOTATION ");
      Write(name);
      Assoc3(start, declarationInInternalSubsetIndentation, "<!NOTATION ", name);
      ghost var w := declarationInInternalSubsetIndentation + "<!NOTATION " + name;
      if publicID.Some? {
        Write("PUBLIC \"");
        Write(publicID.value);
        Write("\"");
        Extend3(start, w, "PUBLIC \"", publicID.value, "\"");
      } else {
        assert w + "" == w;
      }
      w := w + (if publicID.Some? then "PUBLIC \"" + publicID.value + "\"" else "");
      if systemID.Some? {
        ghost var x := if publicID.None? then " SYSTEM" else "";
        if publicID.None? {
          Write(" SYSTEM");
        } else {
          assert start + w + x == start + w;
        }
        Write(" \"");
        Write(systemID.value);
        Write("\"");
        Extend4(start, w, x, " \"", systemID.value, "\"");
      } else {
        assert w + "" == w;
      }
      w := w + (if systemID.Some? then (if publicID.None? then " SYSTEM" else "") + " \"" + systemID.value + "\"" else "");
      Write(">");
      Write(linebreak);
      Assoc3(start, w, ">", linebreak);
      assert file.text == start + (w + ">" + linebreak);
      WrittenNotation(name, publicID, systemID, linebreak, declarationInInternalSubsetIndentation);
    }

    method ParameterEntityDeclaration(name: string, value: string)
      modifies file
      ensures file.text == old(file.text)
        + Written(Call.ParameterEntityDeclaration(name, value), linebreak, declarationInInternalSubsetIndentation)
    {
      ghost var start := file.text;
      Write(declarationInInternalSubsetIndentation);
      Write("<!ENTITY % ");
      Write(name);
      Write(" \"");
      Write(Escaping.EscapeDoubleQuotedValue(value));
      Write("\">");
      Write(linebreak);
      Assoc7(start, declarationInInternalSubsetIndentation, "<!ENTITY % ", name, " \"",
             Escaping.EscapeDoubleQuotedValue(value), "\">", linebreak);
    }

    method ElementDeclaration(name: string, text: string)
      modifies file
      ensures file.text == old(file.text)
        + Written(Call.ElementDeclaration(name, text), linebreak, declarationInInternalSubsetIndentation)
    {
      ghost var start := file.text;
      Write(declarationInInternalSubsetIndentation);
      Write(text);
      Write(linebreak);
      Assoc3(start, declarationInInternalSubsetIndentation, text, linebreak);
    }

    method AttributeListDeclaration(name: string, text: string)
      modifies file
      ensures file.text == old(file.text)
        + Written(Call.AttributeListDeclaration(name, text), linebreak, declarationInInternalSubsetIndentation)
    {
      ghost var start := file.text;
      Write(declarationInInternalSubsetIndentation);
      Write(text);
      Write(linebreak);
      Assoc3(start, declarationInInternalSubsetIndentation, text, linebreak);
    }

    method InternalEntity(name: string)
      modifies file
      ensures file.text == old(file.text)
        + Written(Call.InternalEntity(name), linebreak, declarationInInternalSubsetIndentation)
    {
      ghost var start := file.text;
      Write("&");
      Write(name);
      Write(";");
      Assoc3(start, "&", name, ";");
    }

    method ExternalEntity(name: string)
      modifies file
      ensures file.text == old(file.text)
        + Written(Call.ExternalEntity(name), linebreak, declarationInInternalSubsetIndentation)
    {
      ghost var start := file.text;
      Write("&");
      Write(name);
      Write(";");
      Assoc3(start, "&", name, ";");
    }

    method DocumentEnd()
      modifies file
      ensures file.text == old(file.text) + Written(Call.DocumentEnd, linebreak, declarationInInternalSubsetIndentation)
    {
    }
  }

  /** The formatter's fragment for a call. */
  function FormatterFragment(f: Formatting.DefaultXMLFormatter, c: Call): string
    reads f
  {
    match c
    case DocumentStart => f.DocumentStart()
    case XmlDeclaration(version, encoding, standalone) => f.XmlDeclaration(version, encoding, standalone)
    case DocumentTypeDeclarationBeforeInternalSubset(docType, publicID, systemID, hasInternalSubset) =>
      f.DocumentTypeDeclarationBeforeInternalSubset(docType, publicID, systemID, hasInternalSubset)
    case DocumentTypeDeclarationInternalSubsetStart => f.DocumentTypeDeclarationInternalSubsetStart()
    case DocumentTypeDeclarationInternalSubsetEnd => f.DocumentTypeDeclarationInternalSubsetEnd()
    case DocumentTypeDeclarationAfterInternalSubset(docType, publicID, systemID, hasInternalSubset) =>
      f.DocumentTypeDeclarationAfterInternalSubset(docType, publicID, systemID, hasInternalSubset)
    case ElementStartBeforeAttributes(name, hasAttributes, isEmpty) =>
      f.ElementStartBeforeAttributes(name, hasAttributes, isEmpty)
    case AttributeValue(value) => f.AttributeValue(value)
    case Attribute(name, value) => f.Attribute(name, value)
    case ElementStartAfterAttributes(name, hasAttributes, isEmpty) =>
      f.ElementStartAfterAttributes(name, hasAttributes, isEmpty)
    case ElementEnd(name, hasAttributes, isEmpty) => f.ElementEnd(name, hasAttributes, isEmpty)
    case Text(text) => f.Text(text)
    case CdataSection(text) => f.CdataSection(text)
    case ProcessingInstruction(target, content) => f.ProcessingInstruction(target, content)
    case Comment(text) => f.Comment(text)
    case InternalEntityDeclaration(name, value) => f.InternalEntityDeclaration(name, value)
    case ExternalEntityDeclaration(name, publicID, systemLiteral) =>
      f.ExternalEntityDeclaration(name, publicID, systemLiteral)
    case UnparsedEntityDeclaration(name, publicID, systemLiteral, notation) =>
      f.UnparsedEntityDeclaration(name, publicID, systemLiteral, notation)
    case NotationDeclaration(name, publicID, systemID) => f.NotationDeclaration(name, publicID, systemID)
    case ParameterEntityDeclaration(name, value) => f.ParameterEntityDeclaration(name, value)
    case ElementDeclaration(name, text) => f.ElementDeclaration(name, text)
    case AttributeListDeclaration(name, text) => f.AttributeListDeclaration(name, text)
    case InternalEntity(name) => f.InternalEntity(name)
    case ExternalEntity(name) => f.ExternalEntity(name)
    case DocumentEnd => f.DocumentEnd()
  }

  /** With the same configuration, a call the two serialisers agree on writes
      exactly the formatter's fragment. */
  lemma WrittenAgreesWithFormatter(f: Formatting.DefaultXMLFormatter, c: Call)
    requires c.AgreesWithFormatter()
    ensures Written(c, f.linebreak, f.declarationInInternalSubsetIndentation) == FormatterFragment(f, c)
  {
    match c
    case XmlDeclaration(version, encoding, standalone) => XmlDeclarationAgrees(f, version, encoding, standalone);
    case DocumentTypeDeclarationBeforeInternalSubset(docType, publicID, systemID, hasInternalSubset) =>
      DoctypeAgrees(f, docType, publicID, systemID, hasInternalSubset);
    case ExternalEntityDeclaration(name, _, systemLiteral) => ExternalEntityDeclarationAgrees(f, name, systemLiteral);
    case UnparsedEntityDeclaration(name, _, systemLiteral, notation) =>
      UnparsedEntityDeclarationAgrees(f, name, systemLiteral, notation);
    case DocumentStart => StructureAgrees(f, c);
    case DocumentTypeDeclarationInternalSubsetStart => StructureAgrees(f, c);
    case DocumentTypeDeclarationInternalSubsetEnd => StructureAgrees(f, c);
    case DocumentTypeDeclarationAfterInternalSubset(_, _, _, _) => StructureAgrees(f, c);
    case DocumentEnd => StructureAgrees(f, c);
    case ElementStartBeforeAttributes(_, _, _) => ElementAgrees(f, c);
    case AttributeValue(_) => ElementAgrees(f, c);
    case ElementStartAfterAttributes(_, _, _) => ElementAgrees(f, c);
    case ElementEnd(_, _, _) => ElementAgrees(f, c);
    case Text(_) => ContentAgrees(f, c);
    case CdataSection(_) => ContentAgrees(f, c);
    case ProcessingInstruction(_, _) => ContentAgrees(f, c);
    case Comment(_) => ContentAgrees(f, c);
    case InternalEntity(_) => ContentAgrees(f, c);
    case ExternalEntity(_) => ContentAgrees(f, c);
    case ElementDeclaration(_, _) => ContentAgrees(f, c);
    case AttributeListDeclaration(_, _) => ContentAgrees(f, c);
  }

  /** The document and internal-subset phases write the formatter's fragments. */
  lemma StructureAgrees(f: Formatting.DefaultXMLFormatter, c: Call)
    requires c.DocumentStart? || c.DocumentTypeDeclarationInternalSubsetStart?
             || c.DocumentTypeDeclarationInternalSubsetEnd? || c.DocumentTypeDeclarationAfterInternalSubset?
             || c.DocumentEnd?
    ensures Written(c, f.linebreak, f.declarationInInternalSubsetIndentation) == FormatterFragment(f, c)
  {
  }

  /** The element calls write the formatter's fragments. */
  lemma ElementAgrees(f: Formatting.DefaultXMLFormatter, c: Call)
    requires c.ElementStartBeforeAttributes? || c.AttributeValue? || c.ElementStartAfterAttributes? || c.ElementEnd?
    ensures Written(c, f.linebreak, f.declarationInInternalSubsetIndentation) == FormatterFragment(f, c)
  {
  }

  /** Content, references, and element and attribute-list declarations write the formatter's fragments. */
  lemma ContentAgrees(f: Formatting.DefaultXMLFormatter, c: Call)
    requires c.Text? || c.CdataSection? || c.ProcessingInstruction? || c.Comment? || c.InternalEntity?
             || c.ExternalEntity? || c.ElementDeclaration? || c.AttributeListDeclaration?
    ensures Written(c, f.linebreak, f.declarationInInternalSubsetIndentation) == FormatterFragment(f, c)
  {
  }

  /** The XML declaration written is the formatter's. */
  lemma XmlDeclarationAgrees(f: Formatting.DefaultXMLFormatter, version: string, encoding: Option<string>,
                             standalone: Option<string>)
    ensures Written(Call.XmlDeclaration(version, encoding, standalone), f.linebreak, f.declarationInInternalSubsetIndentation)
            == f.XmlDeclaration(version, encoding, standalone)
  {
    var e := Formatting.PseudoAttribute(" encoding=\"", encoding);
    var sa := Formatting.PseudoAttribute(" standalone=\"", standalone);
    assert e == if encoding.Some? then " encoding=\"" + encoding.value + "\"" else "";
    assert sa == if standalone.Some? then " standalone=\"" + standalone.value + "\"" else "";
    Assoc2(Formatting.XmlDeclarationHead + e + sa, "?>", f.linebreak);
  }

  /** The start of a DOCTYPE written is the formatter's. */
  lemma DoctypeAgrees(f: Formatting.DefaultXMLFormatter, docType: string, publicID: Option<string>,
                      systemID: Option<string>, hasInternalSubset: bool)
    ensures Written(Call.DocumentTypeDeclarationBeforeInternalSubset(docType, publicID, systemID, hasInternalSubset),
                    f.linebreak, f.declarationInInternalSubsetIndentation)
            == f.DocumentTypeDeclarationBeforeInternalSubset(docType, publicID, systemID, hasInternalSubset)
  {
    var p := if publicID.Some? then " PUBLIC \"" + publicID.value + "\"" else "";
    var q := if systemID.Some? then (if publicID.None? then " SYSTEM" else "") + " \"" + systemID.value + "\"" else "";
    assert Formatting.ExternalIdentifier(publicID, systemID) == p + q;
    Assoc2("<!DOCTYPE " + docType, p, q);
  }

  /** Without a public identifier the production's `SYSTEM "` is the
      formatter's `SYSTEM` followed by ` "`. */
  lemma ExternalEntityDeclarationAgrees(f: Formatting.DefaultXMLFormatter, name: string, systemLiteral: string)
    ensures Written(Call.ExternalEntityDeclaration(name, None, systemLiteral), f.linebreak,
                    f.declarationInInternalSubsetIndentation)
            == f.ExternalEntityDeclaration(name, None, systemLiteral)
  {
    var ind, lb := f.declarationInInternalSubsetIndentation, f.linebreak;
    var z := " \"" + systemLiteral + "\">";
    assert f.ExternalEntityDeclaration(name, None, systemLiteral) == ind + ("<!ENTITY " + name + "SYSTEM" + z) + lb by {
      assert Formatting.EntityIdentifier(None) == "SYSTEM";
    }
    ExternalWithoutPublicID(name, systemLiteral, lb, ind);
  }

  /** The production's external entity declaration without a public identifier, in the formatter's parts. */
  lemma ExternalWithoutPublicID(name: string, systemLiteral: string, linebreak: string, indentation: string)
    ensures Written(Call.ExternalEntityDeclaration(name, None, systemLiteral), linebreak, indentation)
            == indentation + ("<!ENTITY " + name + "SYSTEM" + (" \"" + systemLiteral + "\">")) + linebreak
  {
    SystemRegroup(indentation, "<!ENTITY ", name, "SYSTEM \"", "SYSTEM", " \"", systemLiteral, "\">", linebreak);
  }

  /** Only regroups a concatenation, splitting `sq` into `s0` and `c2`. */
  lemma SystemRegroup(ind: string, a: string, name: string, sq: string, s0: string, c2: string, sys: string,
                      e: string, lb: string)
    requires sq == s0 + c2
    ensures ind + a + name + sq + sys + e + lb == ind + (a + name + s0 + (c2 + sys + e)) + lb
  {
  }

  /** Without a public identifier, the unparsed entity declaration written is the formatter's. */
  lemma UnparsedEntityDeclarationAgrees(f: Formatting.DefaultXMLFormatter, name: string, systemLiteral: string,
                                        notation: string)
    ensures Written(Call.UnparsedEntityDeclaration(name, None, systemLiteral, notation), f.linebreak,
                    f.declarationInInternalSubsetIndentation)
            == f.UnparsedEntityDeclaration(name, None, systemLiteral, notation)
  {
    var ind, lb := f.declarationInInternalSubsetIndentation, f.linebreak;
    var z := " \"" + systemLiteral + "\" NDATA " + notation + ">";
    assert f.UnparsedEntityDeclaration(name, None, systemLiteral, notation)
           == ind + ("<!ENTITY " + name + "SYSTEM" + z) + lb by {
      assert Formatting.EntityIdentifier(None) == "SYSTEM";
    }
    UnparsedWithoutPublicID(name, systemLiteral, notation, lb, ind);
  }

  /** The production's unparsed entity declaration without a public identifier, in the formatter's parts. */
  lemma UnparsedWithoutPublicID(name: string, systemLiteral: string, notation: string, linebreak: string,
                                indentation: string)
    ensures Written(Call.UnparsedEntityDeclaration(name, None, systemLiteral, notation), linebreak, indentation)
            == indentation + ("<!ENTITY " + name + "SYSTEM" + (" \"" + systemLiteral + "\" NDATA " + notation + ">"))
               + linebreak
  {
    var e := "\" NDATA " + notation + ">";
    Assoc3(indentation + "<!ENTITY " + name + "SYSTEM \"" + systemLiteral, "\" NDATA ", notation, ">");
    SystemRegroup(indentation, "<!ENTITY ", name, "SYSTEM \"", "SYSTEM", " \"", systemLiteral, e, linebreak);
  }

  /** `s` without its character at position `i`. */
  function RemoveAt(s: string, i: nat): string
    requires i < |s|
  {
    s[..i] + s[i + 1..]
  }

  /** The production writes an attribute as the formatter does, minus its `=`. */
  lemma AttributeLacksEquals(f: Formatting.DefaultXMLFormatter, name: string, value: string)
    ensures var r := f.Attribute(name, value);
            r[|name| + 1] == '='
            && Written(Call.Attribute(name, value), f.linebreak, f.declarationInInternalSubsetIndentation)
               == RemoveAt(r, |name| + 1)
  {
    var q := Escaping.EscapeDoubleQuotedValue(value);
    var r := f.Attribute(name, value);
    assert r == (" " + name) + "=" + ("\"" + q + "\"");
    Split3(" " + name, "=", "\"" + q + "\"");
    Assoc3(" " + name, "\"", q, "\"");
  }

  /** The production writes an internal entity declaration as the formatter
      does, minus the quote that closes the value. */
  lemma InternalEntityDeclarationLacksClosingQuote(f: Formatting.DefaultXMLFormatter, name: string, value: string)
    ensures var r := f.InternalEntityDeclaration(name, value);
            var i := |r| - |f.linebreak| - 2;
            0 <= i && r[i] == '"'
            && Written(Call.InternalEntityDeclaration(name, value), f.linebreak, f.declarationInInternalSubsetIndentation)
               == RemoveAt(r, i)
  {
    var ind, lb := f.declarationInInternalSubsetIndentation, f.linebreak;
    var q := Escaping.EscapeDoubleQuotedValue(value);
    var a := "<!ENTITY " + name + " \"";
    var r := f.InternalEntityDeclaration(name, value);
    assert r == ind + (a + q + "\">") + lb;
    assert r == (ind + a + q) + "\"" + (">" + lb);
    Split3(ind + a + q, "\"", ">" + lb);
    Assoc2(ind + a + q, ">", lb);
    Assoc4(ind, "<!ENTITY ", name, " \"", q);
  }

  /** Removing the one-character middle of `h + sp + t` leaves `h + t`. */
  lemma DropMiddle(h: string, sp: string, t: string)
    requires |sp| == 1
    ensures |h| < |h + sp + t| && (h + sp + t)[|h|] == sp[0] && RemoveAt(h + sp + t, |h|) == h + t
  {
    Split3(h, sp, t);
  }

  /** Only regroups a concatenation. */
  lemma IdentifierRegroup(ind: string, a: string, name: string, pub: string, p: string, c: string, c1: string,
                          c2: string, sys: string, e: string, lb: string)
    requires c == c1 + c2
    ensures ind + a + name + (pub + p + c) + sys + e + lb == (ind + (a + name)) + (pub + p + c1 + (c2 + sys + e) + lb)
  {
  }

  /** Only regroups a concatenation. */
  lemma UnparsedRegroup(ind: string, a: string, name: string, pub: string, p: string, c: string, c1: string,
                        c2: string, sys: string, nd: string, notation: string, g: string, lb: string)
    requires c == c1 + c2
    ensures ind + a + name + (pub + p + c) + sys + nd + notation + g + lb
            == (ind + (a + name)) + (pub + p + c1 + (c2 + sys + nd + notation + g) + lb)
  {
  }

  /** Only regroups a concatenation, isolating the separator `sp`. */
  lemma SpaceRegroup(ind: string, a: string, sp: string, x: string, y: string, lb: string)
    ensures ind + (a + (sp + x) + y) + lb == (ind + a) + sp + (x + y + lb)
  {
  }

  /** With a public identifier, the production writes an external entity
      declaration as the formatter does, minus the space before `PUBLIC`. */
  lemma ExternalEntityDeclarationPublicSpace(f: Formatting.DefaultXMLFormatter, name: string, publicID: string,
                                             systemLiteral: string)
    ensures var r := f.ExternalEntityDeclaration(name, Some(publicID), systemLiteral);
            var k := |f.declarationInInternalSubsetIndentation| + 9 + |name|;
            k < |r| && r[k] == ' '
            && Written(Call.ExternalEntityDeclaration(name, Some(publicID), systemLiteral), f.linebreak,
                       f.declarationInInternalSubsetIndentation)
               == RemoveAt(r, k)
  {
    var h := f.declarationInInternalSubsetIndentation + ("<!ENTITY " + name);
    var t := "PUBLIC \"" + publicID + "\"" + (" \"" + systemLiteral + "\">") + f.linebreak;
    ExternalPublicFormatted(f, name, publicID, systemLiteral);
    ExternalPublicWritten(name, publicID, systemLiteral, f.linebreak, f.declarationInInternalSubsetIndentation);
    DropMiddle(h, " ", t);
  }

  /** The formatter's external entity declaration with a public identifier, split around the space before `PUBLIC`. */
  lemma ExternalPublicFormatted(f: Formatting.DefaultXMLFormatter, name: string, publicID: string,
                                systemLiteral: string)
    ensures f.ExternalEntityDeclaration(name, Some(publicID), systemLiteral)
            == f.declarationInInternalSubsetIndentation + ("<!ENTITY " + name) + " "
               + ("PUBLIC \"" + publicID + "\"" + (" \"" + systemLiteral + "\">") + f.linebreak)
  {
    var x := "PUBLIC \"" + publicID + "\"";
    assert Formatting.EntityIdentifier(Some(publicID)) == " " + x;
    SpaceRegroup(f.declarationInInternalSubsetIndentation, "<!ENTITY " + name, " ", x,
                 " \"" + systemLiteral + "\">", f.linebreak);
  }

  /** The production's external entity declaration with a public identifier, in the same parts without that space. */
  lemma ExternalPublicWritten(name: string, publicID: string, systemLiteral: string, lb: string, ind: string)
    ensures Written(Call.ExternalEntityDeclaration(name, Some(publicID), systemLiteral), lb, ind)
            == ind + ("<!ENTITY " + name) + ("PUBLIC \"" + publicID + "\"" + (" \"" + systemLiteral + "\">") + lb)
  {
    IdentifierRegroup(ind, "<!ENTITY ", name, "PUBLIC \"", publicID, "\" \"", "\"", " \"", systemLiteral, "\">", lb);
  }

  /** With a public identifier, the production writes an unparsed entity
      declaration as the formatter does, minus the space before `PUBLIC`. */
  lemma UnparsedEntityDeclarationPublicSpace(f: Formatting.DefaultXMLFormatter, name: string, publicID: string,
                                             systemLiteral: string, notation: string)
    ensures var r := f.UnparsedEntityDeclaration(name, Some(publicID), systemLiteral, notation);
            var k := |f.declarationInInternalSubsetIndentation| + 9 + |name|;
            k < |r| && r[k] == ' '
            && Written(Call.UnparsedEntityDeclaration(name, Some(publicID), systemLiteral, notation), f.linebreak,
                       f.declarationInInternalSubsetIndentation)
               == RemoveAt(r, k)
  {
    var h := f.declarationInInternalSubsetIndentation + ("<!ENTITY " + name);
    var t := "PUBLIC \"" + publicID + "\"" + (" \"" + systemLiteral + "\" NDATA " + notation + ">") + f.linebreak;
    UnparsedPublicFormatted(f, name, publicID, systemLiteral, notation);
    UnparsedPublicWritten(name, publicID, systemLiteral, notation, f.linebreak, f.declarationInInternalSubsetIndentation);
    DropMiddle(h, " ", t);
  }

  /** The formatter's unparsed entity declaration with a public identifier, split around the space before `PUBLIC`. */
  lemma UnparsedPublicFormatted(f: Formatting.DefaultXMLFormatter, name: string, publicID: string,
                                systemLiteral: string, notation: string)
    ensures f.UnparsedEntityDeclaration(name, Some(publicID), systemLiteral, notation)
            == f.declarationInInternalSubsetIndentation + ("<!ENTITY " + name) + " "
               + ("PUBLIC \"" + publicID + "\"" + (" \"" + systemLiteral + "\" NDATA " + notation + ">") + f.linebreak)
  {
    var x := "PUBLIC \"" + publicID + "\"";
    assert Formatting.EntityIdentifier(Some(publicID)) == " " + x;
    SpaceRegroup(f.declarationInInternalSubsetIndentation, "<!ENTITY " + name, " ", x,
                 " \"" + systemLiteral + "\" NDATA " + notation + ">", f.linebreak);
  }

  /** The production's unparsed entity declaration with a public identifier, in the same parts without that space. */
  lemma UnparsedPublicWritten(name: string, publicID: string, systemLiteral: string, notation: string, lb: string,
                              ind: string)
    ensures Written(Call.UnparsedEntityDeclaration(name, Some(publicID), systemLiteral, notation), lb, ind)
            == ind + ("<!ENTITY " + name)
               + ("PUBLIC \"" + publicID + "\"" + (" \"" + systemLiteral + "\" NDATA " + notation + ">") + lb)
  {
    UnparsedRegroup(ind, "<!ENTITY ", name, "PUBLIC \"", publicID, "\" \"", "\"", " \"", systemLiteral,
                    "\" NDATA ", notation, ">", lb);
  }

  /** Taking off the last `|t|` characters of `b + t` leaves `b`. */
  lemma DropTail(b: string, t: string)
    ensures |b + t| >= |t| && b + t == (b + t)[..|b + t| - |t|] + t && (b + t)[..|b + t| - |t|] == b
  {
  }

  /** Only regroups a concatenation, dropping the empty part `e`. */
  lemma NotationRegroup(ind: string, a: string, name: string, e: string, q: string, g: string, lb: string)
    requires e == []
    ensures ind + a + name + e + q + g + lb == ind + (a + name + q) + g + lb
  {
  }

  /** The production's notation declaration without a public identifier. */
  lemma NotationWithoutPublicID(name: string, systemID: Option<string>, linebreak: string, indentation: string)
    ensures Written(Call.NotationDeclaration(name, None, systemID), linebreak, indentation)
            == indentation + ("<!NOTATION " + name + Formatting.ExternalIdentifier(None, systemID)) + ">" + linebreak
  {
    var q := if systemID.Some? then " SYSTEM" + " \"" + systemID.value + "\"" else "";
    WrittenNotation(name, None, systemID, linebreak, indentation);
    assert Formatting.ExternalIdentifier(None, systemID) == q;
    NotationRegroup(indentation, "<!NOTATION ", name, "", q, ">", linebreak);
  }

  /** The production's notation declaration with a public identifier. */
  lemma NotationWithPublicID(name: string, publicID: string, systemID: Option<string>, linebreak: string,
                             indentation: string)
    ensures var body := indentation + ("<!NOTATION " + name + Formatting.ExternalIdentifier(Some(publicID), systemID));
            var k := |indentation| + 11 + |name|;
            k < |body| && body[k] == ' '
            && Written(Call.NotationDeclaration(name, Some(publicID), systemID), linebreak, indentation)
               == RemoveAt(body, k) + ">" + linebreak
  {
    var p := "PUBLIC \"" + publicID + "\"";
    var q := if systemID.Some? then " \"" + systemID.value + "\"" else "";
    WrittenNotation(name, Some(publicID), systemID, linebreak, indentation);
    assert Formatting.ExternalIdentifier(Some(publicID), systemID) == " " + p + q;
    NotationPublicCase(indentation, "<!NOTATION ", name, p, q, linebreak);
  }

  /** Taking out the space before `p` from a notation body: only regroups a concatenation. */
  lemma NotationPublicCase(ind: string, a: string, name: string, p: string, q: string, lb: string)
    requires |a| == 11
    ensures var body := ind + (a + name + (" " + p + q));
            var k := |ind| + 11 + |name|;
            k < |body| && body[k] == ' ' && ind + a + name + p + q + ">" + lb == RemoveAt(body, k) + ">" + lb
  {
    var h := ind + (a + name);
    assert ind + (a + name + (" " + p + q)) == h + " " + (p + q);
    DropMiddle(h, " ", p + q);
    assert ind + a + name + p + q == h + (p + q);
  }

  /** The production closes a notation declaration with `>` and then the line
      break, where the formatter has the line break first; with a public
      identifier it also leaves out the space before `PUBLIC`. */
  lemma NotationDeclarationDiffers(f: Formatting.DefaultXMLFormatter, name: string, publicID: Option<string>,
                                   systemID: Option<string>)
    ensures var r := f.NotationDeclaration(name, publicID, systemID);
            var body := r[..|r| - |f.linebreak| - 1];
            var k := |f.declarationInInternalSubsetIndentation| + 11 + |name|;
            var w := Written(Call.NotationDeclaration(name, publicID, systemID), f.linebreak,
                             f.declarationInInternalSubsetIndentation);
            |r| >= |f.linebreak| + 1 && r == body + (f.linebreak + ">")
            && (publicID.None? ==> w == body + ">" + f.linebreak)
            && (publicID.Some? ==> k < |body| && body[k] == ' ' && w == RemoveAt(body, k) + ">" + f.linebreak)
  {
    var ind, lb := f.declarationInInternalSubsetIndentation, f.linebreak;
    var body := ind + ("<!NOTATION " + name + Formatting.ExternalIdentifier(publicID, systemID));
    assert f.NotationDeclaration(name, publicID, systemID) == body + (lb + ">");
    DropTail(body, lb + ">");
    if publicID.Some? {
      NotationWithPublicID(name, publicID.value, systemID, lb, ind);
    } else {
      NotationWithoutPublicID(name, systemID, lb, ind);
    }
  }

  /** The production closes a parameter entity declaration with `>` and then
      the line break, where the formatter has the line break first. */
  lemma ParameterEntityDeclarationDiffers(f: Formatting.DefaultXMLFormatter, name: string, value: string)
    ensures var r := f.ParameterEntityDeclaration(name, value);
            var body := r[..|r| - |f.linebreak| - 1];
            |r| >= |f.linebreak| + 1 && r == body + (f.linebreak + ">")
            && Written(Call.ParameterEntityDeclaration(name, value), f.linebreak, f.declarationInInternalSubsetIndentation)
               == body + ">" + f.linebreak
  {
    var ind, lb := f.declarationInInternalSubsetIndentation, f.linebreak;
    var q := Escaping.EscapeDoubleQuotedValue(value);
    var a := "<!ENTITY % " + name + " \"";
    var r := f.ParameterEntityDeclaration(name, value);
    assert r == (ind + (a + q + "\"")) + (lb + ">");
    Split3(ind + (a + q + "\""), lb + ">", "");
    Assoc5(ind, "<!ENTITY % ", name, " \"", q, "\"");
    Assoc2(ind + (a + q + "\""), ">", lb);
  }

  /** `ind + m + lb` is a line. */
  lemma LineOf(ind: string, m: string, lb: string)
    ensures Formatting.IsLine(ind + m + lb, ind, lb)
  {
    Split3(ind, m, lb);
  }

  /** Every declaration the production writes into the internal subset starts
      with the indentation and ends with the line break. */
  lemma DeclarationIsLine(c: Call, linebreak: string, indentation: string)
    requires c.IsDeclaration()
    ensures Formatting.IsLine(Written(c, linebreak, indentation), indentation, linebreak)
  {
    match c
    case InternalEntityDeclaration(name, value) => InternalEntityDeclarationLine(name, value, linebreak, indentation);
    case ExternalEntityDeclaration(name, publicID, systemLiteral) =>
      ExternalEntityDeclarationLine(name, publicID, systemLiteral, linebreak, indentation);
    case UnparsedEntityDeclaration(name, publicID, systemLiteral, notation) =>
      UnparsedEntityDeclarationLine(name, publicID, systemLiteral, notation, linebreak, indentation);
    case NotationDeclaration(name, publicID, systemID) =>
      NotationDeclarationLine(name, publicID, systemID, linebreak, indentation);
    case ParameterEntityDeclaration(name, value) => ParameterEntityDeclarationLine(name, value, linebreak, indentation);
    case ElementDeclaration(name, text) => LineOf(indentation, text, linebreak);
    case AttributeListDeclaration(name, text) => LineOf(indentation, text, linebreak);
  }

  /** The internal entity declaration written is a line of the internal subset. */
  lemma InternalEntityDeclarationLine(name: string, value: string, lb: string, ind: string)
    ensures Formatting.IsLine(Written(Call.InternalEntityDeclaration(name, value), lb, ind), ind, lb)
  {
    var q := Escaping.EscapeDoubleQuotedValue(value);
    Assoc5(ind, "<!ENTITY ", name, " \"", q, ">");
    LineOf(ind, "<!ENTITY " + name + " \"" + q + ">", lb);
  }

  /** The external entity declaration written is a line of the internal subset. */
  lemma ExternalEntityDeclarationLine(name: string, publicID: Option<string>, systemLiteral: string, lb: string,
                                      ind: string)
    ensures Formatting.IsLine(Written(Call.ExternalEntityDeclaration(name, publicID, systemLiteral), lb, ind), ind, lb)
  {
    var x := if publicID.Some? then "PUBLIC \"" + publicID.value + "\" \"" else "SYSTEM \"";
    Assoc5(ind, "<!ENTITY ", name, x, systemLiteral, "\">");
    LineOf(ind, "<!ENTITY " + name + x + systemLiteral + "\">", lb);
  }

  /** The unparsed entity declaration written is a line of the internal subset. */
  lemma UnparsedEntityDeclarationLine(name: string, publicID: Option<string>, systemLiteral: string,
                                      notation: string, lb: string, ind: string)
    ensures Formatting.IsLine(Written(Call.UnparsedEntityDeclaration(name, publicID, systemLiteral, notation), lb, ind),
                              ind, lb)
  {
    var x := if publicID.Some? then "PUBLIC \"" + publicID.value + "\" \"" else "SYSTEM \"";
    Assoc7(ind, "<!ENTITY ", name, x, systemLiteral, "\" NDATA ", notation, ">");
    LineOf(ind, "<!ENTITY " + name + x + systemLiteral + "\" NDATA " + notation + ">", lb);
  }

  /** The notation declaration written is a line of the internal subset. */
  lemma NotationDeclarationLine(name: string, publicID: Option<string>, systemID: Option<string>, lb: string,
                                ind: string)
    ensures Formatting.IsLine(Written(Call.NotationDeclaration(name, publicID, systemID), lb, ind), ind, lb)
  {
    var p := if publicID.Some? then "PUBLIC \"" + publicID.value + "\"" else "";
    var q := if systemID.Some? then (if publicID.None? then " SYSTEM" else "") + " \"" + systemID.value + "\"" else "";
    WrittenNotation(name, publicID, systemID, lb, ind);
    Assoc5(ind, "<!NOTATION ", name, p, q, ">");
    LineOf(ind, "<!NOTATION " + name + p + q + ">", lb);
  }

  /** The parameter entity declaration written is a line of the internal subset. */
  lemma ParameterEntityDeclarationLine(name: string, value: string, lb: string, ind: string)
    ensures Formatting.IsLine(Written(Call.ParameterEntityDeclaration(name, value), lb, ind), ind, lb)
  {
    var q := Escaping.EscapeDoubleQuotedValue(value);
    Assoc5(ind, "<!ENTITY % ", name, " \"", q, "\">");
    LineOf(ind, "<!ENTITY % " + name + " \"" + q + "\">", lb);
  }

  /** A document with an empty root element, written to one file; after
      `set(file:)` the output goes to the second file only. */
  method SwitchFileExample()
  {
    var first := new FileHandle("");
    var p := new DefaultXMLProduction(first);
    p.ElementStartBeforeAttributes("root", false, true);
    p.ElementStartAfterAttributes("root", false, true);
    p.ElementEnd("root", false, true);
    assert first.text == "<root/>";
    var second := new FileHandle("");
    p.SetFile(second);
    p.Comment("c");
    assert second.text == "<!--c-->";
    assert first.text == "<root/>";
  }
}
