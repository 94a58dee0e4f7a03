# SwiftXMLInterfaces: the XML serialisation layer

This project models the serialisation layer of SwiftXMLInterfaces in Dafny:

- **Escaping.** Four escaping functions: `escapeAll`, `escapeText`, `escapeDoubleQuotedValue` and `escapeSimpleQuotedValue`. They implement the predefined-entity escaping of XML 1.0, section 2.4 and section 4.6.
- **`DefaultXMLFormatter`.** It returns one text fragment per XML construct. It is configured by a line break and the indentation of declarations in the internal subset.
- **`DefaultXMLProduction`.** It has the same vocabulary, but writes each construct piece by piece to a file handle.
- **`ConvenienceParser`.** Its entry points turn a path, a URL, a text or data into one call of an underlying parser.
- **Platform helpers.** `Platform.description`, `pathSeparator` and `URL.osPath`.

Modules:

- `Common` holds shared values: `Option`, the `byte` type and the UTF-8 encoding of a string.
- `Strings` holds the two replace operations and their lemmas.
- `Escaping` holds the four chains, defined once. The source copies them into three files, and every copy is cited.
- `Sorting` holds the attribute order.
- `Formatting` holds the formatter class.
- `Production` holds the file handle and the production class.
- `Parser` holds the convenience parser.
- `Utilities` holds the platform helpers.

How each serialiser is modelled:

- **Escaping.** Each chain is proved equal to a per-character map (`EntityEscape`). This holds because `&` is always replaced first. Its properties follow from that map: what cannot appear in the output, behaviour over concatenation, and length. The round trip is proved against `Unescape`, which decodes the same entities with `&amp;` last.
- **Formatter.** A class whose two configuration fields are changed by its setters. Its fragments are functions of the arguments and those fields.
- **Production.** A class writing to a `FileHandle` whose text only grows. Every output method is proved to append exactly `Written(call, linebreak, indentation)`, the text of one call. Lemmas then compare `Written` with the formatter:
  - for most calls, the two are proved equal character for character;
  - for the rest, the lemmas prove exactly how the two texts differ.

Three example methods have no counterpart in the source. They apply the stateful contracts to concrete calls, and they carry no row below:

- `Formatting.ConfigurationExample` applies the formatter's setters;
- `Production.SwitchFileExample` applies the production's `set(file:)`;
- `Parser.ConvenienceParserExample` applies the convenience parser's text and path parses.

The source's quirks are kept as written:

- The version argument of the XML declaration is ignored: the output always says `1.0`.
- The formatter writes `SYSTEM` with no leading space in external and unparsed entity declarations.
- The formatter puts the line break before `>` in notation and parameter-entity declarations.
- The production does the following:
  - writes attributes without `=`;
  - writes internal entity declarations without the quote that closes the value;
  - writes `PUBLIC` without a leading space;
  - puts `>` before the line break in notation and parameter-entity declarations.

## Model

| member | source | states |
|---|---|---|
| Strings.ReplaceChar | Sources/SwiftXMLInterfaces/Util.swift:10-37 | `replacingOccurrences(of:with:)` for a one-character pattern; its contract keeps the length when the replacement is one character, and its other properties are `ReplaceCharConcat`, `ReplaceCharAbsent` and `ReplaceCharPointwise` |
| Strings.ReplaceString | Sources/SwiftXMLInterfaces/Util.swift:10-37 | `replacingOccurrences(of:with:)` for a pattern of several characters, a left-to-right scan replacing non-overlapping occurrences; it builds `Unescape`, the decoder against which the escaping chains are proved to round-trip, and its properties are `ReplaceStringSkip` and `ReplaceStringMatch` |
| Strings.ReplaceCharConcat | Sources/SwiftXMLInterfaces/Util.swift:10-37 | replacing every occurrence of one character distributes over concatenation |
| Strings.ReplaceCharAbsent | Sources/SwiftXMLInterfaces/Util.swift:10-37 | replacing a character that does not occur leaves the string unchanged |
| Strings.ReplaceCharPointwise | Sources/SwiftXMLInterfaces/Utilities.swift:53-57 | replacing a character by one character keeps the length; each position holds the replacement exactly where the original had that character, and is otherwise unchanged |
| Strings.ReplaceStringSkip | Sources/SwiftXMLInterfaces/Util.swift:10-37 | a prefix free of the pattern's first character passes through a replace-all untouched |
| Strings.ReplaceStringMatch | Sources/SwiftXMLInterfaces/Util.swift:10-37 | an occurrence of the pattern at the front is replaced, and the scan resumes after it |
| Escaping.EscapeAll | Sources/SwiftXMLInterfaces/Util.swift:10-17 | `escapeAll`, copied in Formatting.swift:9-16 and Production.swift:9-16; its properties are `EscapeAllIsEntityEscape`, `AllRoundTrip` and `EscapeAllShape` |
| Escaping.EscapeText | Sources/SwiftXMLInterfaces/Util.swift:19-23 | `escapeText`, copied in Formatting.swift:18-22 and Production.swift:18-22; its properties are `EscapeIsEntityEscape`, `TextRoundTrip` and `EscapeTextShape` |
| Escaping.EscapeDoubleQuotedValue | Sources/SwiftXMLInterfaces/Util.swift:25-30 | `escapeDoubleQuotedValue`, copied in Formatting.swift:24-29 and Production.swift:24-29; its properties are `EscapeDoubleQuotedValueIsEntityEscape`, `DoubleQuotedValueRoundTrip` and `EscapeDoubleQuotedValueShape` |
| Escaping.EscapeSimpleQuotedValue | Sources/SwiftXMLInterfaces/Util.swift:32-37 | `escapeSimpleQuotedValue`, copied in Formatting.swift:31-36 and Production.swift:31-36; its properties are `EscapeSimpleQuotedValueIsEntityEscape`, `SimpleQuotedValueRoundTrip` and `EscapeSimpleQuotedValueShape` |
| Escaping.Specials | Sources/SwiftXMLInterfaces/Util.swift:10-37 | every mode escapes `&` and `<`, and only characters that have a predefined entity |
| Escaping.Entity | Sources/SwiftXMLInterfaces/Util.swift:10-37 | each predefined entity starts with `&` and ends with `;`, has neither inside, and contains no other special character |
| Escaping.EntityEscapeEmpty | Sources/SwiftXMLInterfaces/Util.swift:10-37 | escaping no characters is the identity |
| Escaping.ChainStep | Sources/SwiftXMLInterfaces/Util.swift:10-37 | once `&` has been replaced first, one more single-character replacement escapes exactly one more character of the per-character map |
| Escaping.ChainStart | Sources/SwiftXMLInterfaces/Util.swift:19-23 | the common start of every chain, `&` then `<`, escapes `{&, <}` per character |
| Escaping.EscapeAllIsEntityEscape | Sources/SwiftXMLInterfaces/Util.swift:10-17 | `escapeAll` is the per-character escaping of all five predefined characters |
| Escaping.EscapeDoubleQuotedValueIsEntityEscape | Sources/SwiftXMLInterfaces/Util.swift:25-30 | `escapeDoubleQuotedValue` is the per-character escaping of `&`, `<` and `"` |
| Escaping.EscapeSimpleQuotedValueIsEntityEscape | Sources/SwiftXMLInterfaces/Util.swift:32-37 | `escapeSimpleQuotedValue` is the per-character escaping of `&`, `<` and `'` |
| Escaping.EscapeIsEntityEscape | Sources/SwiftXMLInterfaces/Formatting.swift:9-36 | every mode's chain equals the per-character escaping of that mode's special characters |
| Escaping.EntityEscapeConcat | Sources/SwiftXMLInterfaces/Util.swift:10-37 | the per-character escaping distributes over concatenation |
| Escaping.EntityEscapeNoMarkup | Sources/SwiftXMLInterfaces/Util.swift:10-37 | after per-character escaping, the only escaped character left in the text is `&` |
| Escaping.EntityEscapeAmpersands | Sources/SwiftXMLInterfaces/Util.swift:10-37 | every `&` in the escaped text begins one of the escaped entities |
| Escaping.EntityEscapeKeeps | Sources/SwiftXMLInterfaces/Util.swift:10-37 | a predefined character the mode does not escape occurs as often after escaping as before |
| Escaping.EntityEscapeLength | Sources/SwiftXMLInterfaces/Util.swift:10-37 | escaping never shortens; the length is unchanged exactly when no special character occurs, and then the text is returned unchanged |
| Escaping.EntityInjective | Sources/SwiftXMLInterfaces/Util.swift:10-37 | distinct characters have distinct entities |
| Escaping.EntityNotPrefix | Sources/SwiftXMLInterfaces/Util.swift:10-37 | an entity never begins a different entity followed by more text |
| Escaping.TerminatedPrefix | Sources/SwiftXMLInterfaces/Util.swift:10-37 | of two texts that each end with their only `;`, one begins the other followed by anything only when the two are equal |
| Escaping.UnescapePiece | Sources/SwiftXMLInterfaces/Util.swift:10-37 | decoding the entity of `c` takes the escaped form of one character to its form with `c` no longer escaped, and continues with the rest |
| Escaping.UnescapeOtherEntity | Sources/SwiftXMLInterfaces/Util.swift:10-37 | decoding the entity of `c` copies any other entity unchanged |
| Escaping.UnescapeStep | Sources/SwiftXMLInterfaces/Util.swift:10-37 | while `&` is still escaped, decoding the entity of `c` turns the escaping of a character set into the escaping of that set without `c` |
| Escaping.EscapeConcat | Sources/SwiftXMLInterfaces/Util.swift:10-37 | every escaping function distributes over concatenation: `escape(a + b) == escape(a) + escape(b)` |
| Escaping.EscapeRoundTrip | Sources/SwiftXMLInterfaces/Util.swift:10-37 | decoding a mode's entities, `&amp;` last, recovers the input exactly, for every mode |
| Escaping.TextRoundTrip | Sources/SwiftXMLInterfaces/Util.swift:19-23 | the round trip for `escapeText` |
| Escaping.DoubleQuotedValueRoundTrip | Sources/SwiftXMLInterfaces/Util.swift:25-30 | the round trip for `escapeDoubleQuotedValue` |
| Escaping.SimpleQuotedValueRoundTrip | Sources/SwiftXMLInterfaces/Util.swift:32-37 | the round trip for `escapeSimpleQuotedValue` |
| Escaping.AllRoundTrip | Sources/SwiftXMLInterfaces/Util.swift:10-17 | the round trip for `escapeAll` |
| Escaping.EscapeNoMarkup | Sources/SwiftXMLInterfaces/Production.swift:9-36 | the only character of a mode's set left in its output is `&` |
| Escaping.EscapeAmpersands | Sources/SwiftXMLInterfaces/Util.swift:10-37 | every `&` in a mode's output begins one of that mode's entities |
| Escaping.EscapeKeeps | Sources/SwiftXMLInterfaces/Util.swift:25-37 | a predefined character outside a mode's set is kept, occurrence for occurrence |
| Escaping.EscapeLength | Sources/SwiftXMLInterfaces/Util.swift:19-37 | the output is never shorter than the input; the two have the same length exactly when the input has none of the mode's special characters, and then the input is returned unchanged |
| Escaping.EscapeTextShape | Sources/SwiftXMLInterfaces/Util.swift:19-23 | `escapeText` output has no `<`, and each `&` in it begins `&amp;` or `&lt;` |
| Escaping.EscapeAllShape | Sources/SwiftXMLInterfaces/Util.swift:10-17 | `escapeAll` output has none of `<`, `>`, `"`, `'` |
| Escaping.EscapeDoubleQuotedValueShape | Sources/SwiftXMLInterfaces/Util.swift:25-30 | `escapeDoubleQuotedValue` output has no `"` and no `<`, each `&` in it begins `&amp;`, `&lt;` or `&quot;`, and it keeps every `'` and `>` |
| Escaping.EscapeSimpleQuotedValueShape | Sources/SwiftXMLInterfaces/Util.swift:32-37 | `escapeSimpleQuotedValue` output has no `'` and no `<`, each `&` in it begins `&amp;`, `&lt;` or `&apos;`, and it keeps every `"` and `>` |
| Sorting.LexTotal | Sources/SwiftXMLInterfaces/Formatting.swift:157-159 | any two names are ordered one way or the other |
| Sorting.LexAntisymmetric | Sources/SwiftXMLInterfaces/Formatting.swift:157-159 | names ordered both ways are equal |
| Sorting.LexTransitive | Sources/SwiftXMLInterfaces/Formatting.swift:157-159 | the order is transitive |
| Sorting.Insert | Sources/SwiftXMLInterfaces/Formatting.swift:157-159 | inserting into a sorted sequence keeps it sorted and adds exactly the new element |
| Sorting.Sort | Sources/SwiftXMLInterfaces/Formatting.swift:157-159 | `sorted()`: the result is in non-decreasing order and has the same multiset of names |
| Sorting.SortedHead | Sources/SwiftXMLInterfaces/Formatting.swift:157-159 | the head of a sorted sequence is at most each of its elements |
| Sorting.MultisetTail | Sources/SwiftXMLInterfaces/Formatting.swift:157-159 | two permutations with the same head have permuted tails |
| Sorting.SortedUnique | Sources/SwiftXMLInterfaces/Formatting.swift:157-159 | two sorted permutations of each other are equal |
| Sorting.SortIsTheSortedPermutation | Sources/SwiftXMLInterfaces/Formatting.swift:157-159 | any sorted permutation of the names is the result of `Sort` |
| Utilities.Description | Sources/SwiftXMLInterfaces/Utilities.swift:15-23 | `Unknown` gives nil and only `Unknown` does; the four known platforms give `macOS.ARM`, `macOS.Intel`, `RedHat7.Intel` and `Windows.Intel` |
| Utilities.DescriptionInjective | Sources/SwiftXMLInterfaces/Utilities.swift:15-23 | distinct platforms have distinct descriptions |
| Utilities.PathSeparator | Sources/SwiftXMLInterfaces/Utilities.swift:48-50 | one character: `\` exactly on Windows, `/` everywhere else |
| Utilities.OsPath | Sources/SwiftXMLInterfaces/Utilities.swift:52-58 | each `/` becomes the separator and every other character stays, so the length is kept; it is the identity off Windows, and on Windows no `/` remains |
| Utilities.OsPathInverse | Sources/SwiftXMLInterfaces/Utilities.swift:52-58 | on Windows, turning each backslash back into a slash recovers a path that had no backslash |
| Common.Utf8 | Sources/SwiftXMLInterfaces/Parser.swift:51 | the UTF-8 form of a text has between one and four bytes per character |
| Common.Utf8Concat | Sources/SwiftXMLInterfaces/Parser.swift:51 | UTF-8 encoding distributes over concatenation |
| Common.Utf8Ascii | Sources/SwiftXMLInterfaces/Parser.swift:51 | an ASCII text encodes byte for byte |
| Formatting.LineParts | Sources/SwiftXMLInterfaces/Formatting.swift:199-225 | a declaration built as indentation, fixed start, middle, fixed end and line break is a line that ends with its fixed end and the line break |
| Formatting.DefaultXMLFormatter.constructor | Sources/SwiftXMLInterfaces/Formatting.swift:93-115 | the line break defaults to a line feed and the indentation to one space |
| Formatting.DefaultXMLFormatter.SetLinebreak | Sources/SwiftXMLInterfaces/Formatting.swift:95-102 | sets the line break and keeps the indentation |
| Formatting.DefaultXMLFormatter.SetDeclarationInInternalSubsetIndentation | Sources/SwiftXMLInterfaces/Formatting.swift:106-123 | sets the indentation and keeps the line break |
| Formatting.DefaultXMLFormatter.DocumentStart | Sources/SwiftXMLInterfaces/Formatting.swift:125-127 | the document start is empty |
| Formatting.DefaultXMLFormatter.XmlDeclaration | Sources/SwiftXMLInterfaces/Formatting.swift:129-131 | whatever the version argument, the declaration begins `<?xml version="1.0"` and ends with `?>` and the line break |
| Formatting.DefaultXMLFormatter.DocumentTypeDeclarationBeforeInternalSubset | Sources/SwiftXMLInterfaces/Formatting.swift:133-135 | begins `<!DOCTYPE type`; with a system identifier it ends with that identifier in double quotes; with neither identifier it is just `<!DOCTYPE type` |
| Formatting.DefaultXMLFormatter.DocumentTypeDeclarationInternalSubsetStart | Sources/SwiftXMLInterfaces/Formatting.swift:137-139 | `[` between two line breaks |
| Formatting.DefaultXMLFormatter.DocumentTypeDeclarationInternalSubsetEnd | Sources/SwiftXMLInterfaces/Formatting.swift:141-143 | `]` |
| Formatting.DefaultXMLFormatter.DocumentTypeDeclarationAfterInternalSubset | Sources/SwiftXMLInterfaces/Formatting.swift:145-147 | `>` and the line break, whatever the arguments |
| Formatting.DefaultXMLFormatter.ElementStartBeforeAttributes | Sources/SwiftXMLInterfaces/Formatting.swift:149-151 | `<` and the name, whatever the flags |
| Formatting.DefaultXMLFormatter.AttributeValue | Sources/SwiftXMLInterfaces/Formatting.swift:153-155 | the value holds no `"` or `<`, every `&` in it begins `&amp;`, `&lt;` or `&quot;`, and it decodes back to the argument |
| Formatting.DefaultXMLFormatter.SortedAttributeNames | Sources/SwiftXMLInterfaces/Formatting.swift:157-159 | a sorted permutation of the names |
| Formatting.DefaultXMLFormatter.Attribute | Sources/SwiftXMLInterfaces/Formatting.swift:161-163 | begins with a space, the name, `=` and `"`, and ends with `"`; between the quotes is exactly the attribute value of `attributeValue`, so it holds no `"` or `<` and decodes to the value |
| Formatting.DefaultXMLFormatter.ElementStartAfterAttributes | Sources/SwiftXMLInterfaces/Formatting.swift:165-172 | `/>` exactly when the element is empty, otherwise `>` |
| Formatting.DefaultXMLFormatter.ElementEnd | Sources/SwiftXMLInterfaces/Formatting.swift:174-181 | empty exactly when the element is empty, otherwise `</name>` |
| Formatting.DefaultXMLFormatter.Text | Sources/SwiftXMLInterfaces/Formatting.swift:183-185 | character data holds no `<`, every `&` in it begins `&amp;` or `&lt;`, and it decodes back to the text |
| Formatting.DefaultXMLFormatter.CdataSection | Sources/SwiftXMLInterfaces/Formatting.swift:187-189 | the text, unescaped, between `<![CDATA[` and `]]>` |
| Formatting.DefaultXMLFormatter.ProcessingInstruction | Sources/SwiftXMLInterfaces/Formatting.swift:191-193 | `<?target`, then the content in double quotes after a space if there is content, then `?>` |
| Formatting.DefaultXMLFormatter.Comment | Sources/SwiftXMLInterfaces/Formatting.swift:195-197 | the text, unescaped, between `<!--` and `-->` |
| Formatting.DefaultXMLFormatter.InternalEntityDeclaration | Sources/SwiftXMLInterfaces/Formatting.swift:199-201 | a line of the internal subset that begins `<!ENTITY name "` after the indentation and ends with `">` and the line break; `InternalEntityDeclarationValue` shows that the quoted part is the escaped value |
| Formatting.DefaultXMLFormatter.ExternalEntityDeclaration | Sources/SwiftXMLInterfaces/Formatting.swift:203-205 | a line that begins `<!ENTITY name` after the indentation and ends with the system literal in double quotes, `>` and the line break |
| Formatting.DefaultXMLFormatter.UnparsedEntityDeclaration | Sources/SwiftXMLInterfaces/Formatting.swift:207-209 | a line that begins `<!ENTITY name` and ends with the quoted system literal, ` NDATA `, the notation, `>` and the line break |
| Formatting.DefaultXMLFormatter.NotationDeclaration | Sources/SwiftXMLInterfaces/Formatting.swift:211-213 | begins `<!NOTATION name` after the indentation, and ends with the line break and then `>` |
| Formatting.DefaultXMLFormatter.ParameterEntityDeclaration | Sources/SwiftXMLInterfaces/Formatting.swift:215-217 | begins `<!ENTITY % name "` after the indentation, and ends with `"`, the line break and then `>`; `ParameterEntityDeclarationValue` shows that the quoted part is the escaped value |
| Formatting.DefaultXMLFormatter.ElementDeclaration | Sources/SwiftXMLInterfaces/Formatting.swift:219-221 | the text as given, between the indentation and the line break |
| Formatting.DefaultXMLFormatter.AttributeListDeclaration | Sources/SwiftXMLInterfaces/Formatting.swift:223-225 | the text as given, between the indentation and the line break |
| Formatting.DefaultXMLFormatter.InternalEntity | Sources/SwiftXMLInterfaces/Formatting.swift:227-229 | the name between `&` and `;` |
| Formatting.DefaultXMLFormatter.ExternalEntity | Sources/SwiftXMLInterfaces/Formatting.swift:231-233 | the same reference as an internal entity |
| Formatting.DefaultXMLFormatter.DocumentEnd | Sources/SwiftXMLInterfaces/Formatting.swift:235-237 | the document end is empty |
| Formatting.PseudoAttributeStart | Sources/SwiftXMLInterfaces/Formatting.swift:130 | an optional pseudo-attribute is present exactly when its value is given, and then carries it followed by `"` |
| Formatting.ExternalIdentifierShape | Sources/SwiftXMLInterfaces/Formatting.swift:134 | the external identifier starts with ` PUBLIC "p"` when there is a public identifier, is ` SYSTEM "s"` when there is only a system identifier, ends with the quoted system identifier when there is one, and is empty when there is neither |
| Formatting.ExternalIdentifierPublic | Sources/SwiftXMLInterfaces/Formatting.swift:134 | with a public identifier, the external identifier starts with ` PUBLIC "p"` |
| Formatting.ExternalIdentifierSystem | Sources/SwiftXMLInterfaces/Formatting.swift:134 | with a system identifier, the external identifier ends with it in double quotes, and without a public identifier it is ` SYSTEM "s"` |
| Formatting.XmlDeclarationEncoding | Sources/SwiftXMLInterfaces/Formatting.swift:129-131 | ` encoding="` follows `<?xml version="1.0"` exactly when an encoding is given, and then carries that encoding |
| Formatting.EncodingAttributeStart | Sources/SwiftXMLInterfaces/Formatting.swift:130 | after the version, the text starts with ` encoding="` exactly when an encoding is given |
| Formatting.XmlDeclarationStandalone | Sources/SwiftXMLInterfaces/Formatting.swift:129-131 | ` standalone="` follows the encoding, or the version if there is no encoding, exactly when standalone is given, and then carries that value |
| Formatting.DoctypeExternalIdentifier | Sources/SwiftXMLInterfaces/Formatting.swift:133-135 | after `<!DOCTYPE type`, ` PUBLIC "p"` appears exactly when there is a public identifier, and ` SYSTEM` exactly when there is a system identifier and no public one |
| Formatting.QuotedValue | Sources/SwiftXMLInterfaces/Formatting.swift:200 | a value escaped for double quotes holds no `"` and decodes back |
| Formatting.InternalEntityDeclarationValue | Sources/SwiftXMLInterfaces/Formatting.swift:199-201 | the quoted part of an internal entity declaration is exactly `escapeDoubleQuotedValue(value)`, so it holds no `"` and decodes to the entity's value |
| Formatting.ParameterEntityDeclarationValue | Sources/SwiftXMLInterfaces/Formatting.swift:215-217 | the quoted part of a parameter entity declaration is exactly `escapeDoubleQuotedValue(value)`, so it holds no `"` and decodes to the entity's value |
| Formatting.ExternalEntityDeclarationRest | Sources/SwiftXMLInterfaces/Formatting.swift:203-205 | after the name comes ` PUBLIC "p"` or `SYSTEM`, then the quoted system literal, `>` and the line break |
| Formatting.ExternalEntityDeclarationIdentifier | Sources/SwiftXMLInterfaces/Formatting.swift:203-205 | after the name comes ` PUBLIC "p"` with a public identifier, and otherwise `SYSTEM "s">` with no space before `SYSTEM` |
| Formatting.UnparsedEntityDeclarationRest | Sources/SwiftXMLInterfaces/Formatting.swift:207-209 | after the name comes ` PUBLIC "p"` or `SYSTEM`, then the quoted system literal, ` NDATA `, the notation, `>` and the line break |
| Formatting.UnparsedEntityDeclarationIdentifier | Sources/SwiftXMLInterfaces/Formatting.swift:207-209 | after the name comes ` PUBLIC "p"` with a public identifier, and otherwise `SYSTEM "s" NDATA ` with no space before `SYSTEM` |
| Formatting.NotationDeclarationRest | Sources/SwiftXMLInterfaces/Formatting.swift:211-213 | after the name comes the external identifier, then the line break, then `>` |
| Formatting.NotationDeclarationIdentifier | Sources/SwiftXMLInterfaces/Formatting.swift:211-213 | after the name comes ` PUBLIC "p"`, or ` SYSTEM "s"` with a system identifier only, or directly the line break and `>` with neither |
| Production.FileHandle.constructor | Sources/SwiftXMLInterfaces/Production.swift:101 | a file handle holds the text given to it |
| Production.FileHandle.Write | Sources/SwiftXMLInterfaces/Production.swift:133-135 | writing appends exactly the string |
| Production.DefaultXMLProduction.constructor | Sources/SwiftXMLInterfaces/Production.swift:107-131 | writes to the given file, with a line feed as line break and one space as indentation |
| Production.DefaultXMLProduction.SetFile | Sources/SwiftXMLInterfaces/Production.swift:103-105 | replaces the file only; the configuration is kept, and no file is written |
| Production.DefaultXMLProduction.SetLinebreak | Sources/SwiftXMLInterfaces/Production.swift:107-116 | sets the line break, keeps the file and the indentation |
| Production.DefaultXMLProduction.SetDeclarationInInternalSubsetIndentation | Sources/SwiftXMLInterfaces/Production.swift:118-127 | sets the indentation, keeps the file and the line break |
| Production.DefaultXMLProduction.Write | Sources/SwiftXMLInterfaces/Production.swift:133-135 | appends exactly `s` to the current file, and may change nothing but that file |
| Production.DefaultXMLProduction.DocumentStart | Sources/SwiftXMLInterfaces/Production.swift:137-139 | appends nothing |
| Production.DefaultXMLProduction.XmlDeclaration | Sources/SwiftXMLInterfaces/Production.swift:141-155 | appends `<?xml version="1.0"`, the encoding and standalone parts when given, then `?>` and the line break; the version is ignored |
| Production.DefaultXMLProduction.DocumentTypeDeclarationBeforeInternalSubset | Sources/SwiftXMLInterfaces/Production.swift:157-173 | appends `<!DOCTYPE type`, ` PUBLIC "p"` when given, then ` SYSTEM` (only without a public identifier) and the quoted system identifier when given |
| Production.DefaultXMLProduction.DocumentTypeDeclarationInternalSubsetStart | Sources/SwiftXMLInterfaces/Production.swift:175-179 | appends the line break, `[` and the line break |
| Production.DefaultXMLProduction.DocumentTypeDeclarationInternalSubsetEnd | Sources/SwiftXMLInterfaces/Production.swift:181-183 | appends `]` |
| Production.DefaultXMLProduction.DocumentTypeDeclarationAfterInternalSubset | Sources/SwiftXMLInterfaces/Production.swift:185-188 | appends `>` and the line break |
| Production.DefaultXMLProduction.ElementStartBeforeAttributes | Sources/SwiftXMLInterfaces/Production.swift:190-193 | appends `<` and the name |
| Production.DefaultXMLProduction.AttributeValue | Sources/SwiftXMLInterfaces/Production.swift:196-198 | appends the value escaped for double quotes |
| Production.DefaultXMLProduction.SortedAttributeNames | Sources/SwiftXMLInterfaces/Production.swift:200-202 | a sorted permutation of the names; being a function, it writes nothing |
| Production.DefaultXMLProduction.Attribute | Sources/SwiftXMLInterfaces/Production.swift:204-210 | appends a space, the name, `"`, the escaped value and `"`, with no `=` |
| Production.DefaultXMLProduction.ElementStartAfterAttributes | Sources/SwiftXMLInterfaces/Production.swift:212-219 | appends `/>` for an empty element, otherwise `>` |
| Production.DefaultXMLProduction.ElementEnd | Sources/SwiftXMLInterfaces/Production.swift:221-227 | appends `</name>` unless the element is empty, and nothing if it is |
| Production.DefaultXMLProduction.Text | Sources/SwiftXMLInterfaces/Production.swift:229-231 | appends the text escaped as character data |
| Production.DefaultXMLProduction.CdataSection | Sources/SwiftXMLInterfaces/Production.swift:233-237 | appends the text between `<![CDATA[` and `]]>` |
| Production.DefaultXMLProduction.ProcessingInstruction | Sources/SwiftXMLInterfaces/Production.swift:239-248 | appends `<?target`, the quoted content after a space when given, then `?>` |
| Production.DefaultXMLProduction.Comment | Sources/SwiftXMLInterfaces/Production.swift:250-254 | appends the text between `<!--` and `-->` |
| Production.DefaultXMLProduction.InternalEntityDeclaration | Sources/SwiftXMLInterfaces/Production.swift:256-264 | appends the indentation, `<!ENTITY name "`, the escaped value, `>` and the line break, with no closing quote |
| Production.DefaultXMLProduction.ExternalEntityDeclaration | Sources/SwiftXMLInterfaces/Production.swift:266-281 | appends the indentation, `<!ENTITY name`, then `PUBLIC "p" "` (no leading space) or `SYSTEM "`, the system literal, `">` and the line break |
| Production.DefaultXMLProduction.UnparsedEntityDeclaration | Sources/SwiftXMLInterfaces/Production.swift:283-300 | as the external entity declaration, with ` NDATA ` and the notation before `>` |
| Production.DefaultXMLProduction.NotationDeclaration | Sources/SwiftXMLInterfaces/Production.swift:302-321 | appends the indentation, `<!NOTATION name`, `PUBLIC "p"` (no leading space) when given, ` SYSTEM` (only without a public identifier) and the quoted system identifier when given, then `>` and the line break |
| Production.DefaultXMLProduction.ParameterEntityDeclaration | Sources/SwiftXMLInterfaces/Production.swift:323-331 | appends the indentation, `<!ENTITY % name "`, the escaped value, `">` and the line break |
| Production.DefaultXMLProduction.ElementDeclaration | Sources/SwiftXMLInterfaces/Production.swift:333-337 | appends the indentation, the text and the line break |
| Production.DefaultXMLProduction.AttributeListDeclaration | Sources/SwiftXMLInterfaces/Production.swift:339-343 | appends the indentation, the text and the line break |
| Production.DefaultXMLProduction.InternalEntity | Sources/SwiftXMLInterfaces/Production.swift:345-349 | appends `&`, the name and `;` |
| Production.DefaultXMLProduction.ExternalEntity | Sources/SwiftXMLInterfaces/Production.swift:351-355 | appends `&`, the name and `;` |
| Production.DefaultXMLProduction.DocumentEnd | Sources/SwiftXMLInterfaces/Production.swift:357-359 | appends nothing |
| Production.Written | Sources/SwiftXMLInterfaces/Production.swift:137-359 | the text each call of `DefaultXMLProduction` appends to the file; each writing method's contract says it appends exactly this, and `WrittenAgreesWithFormatter`, `DeclarationIsLine` and the difference lemmas relate it to the formatter's fragments |
| Production.WrittenAgreesWithFormatter | Sources/SwiftXMLInterfaces/Production.swift:137-254 | with the same configuration, a call outside attributes and four of the declaration kinds writes exactly the formatter's fragment. The exceptions are attributes; internal, notation and parameter-entity declarations; and external or unparsed declarations with a public identifier |
| Production.StructureAgrees | Sources/SwiftXMLInterfaces/Production.swift:137-188 | document start and end and the three internal-subset phases write the formatter's fragments |
| Production.ElementAgrees | Sources/SwiftXMLInterfaces/Production.swift:190-227 | element start, attribute value, end of start tag and element end write the formatter's fragments |
| Production.ContentAgrees | Sources/SwiftXMLInterfaces/Production.swift:229-254 | text, CDATA, processing instructions, comments, entity references and element and attribute-list declarations write the formatter's fragments |
| Production.XmlDeclarationAgrees | Sources/SwiftXMLInterfaces/Production.swift:141-155 | the XML declaration written equals the formatter's |
| Production.DoctypeAgrees | Sources/SwiftXMLInterfaces/Production.swift:157-173 | the DOCTYPE start written equals the formatter's |
| Production.ExternalEntityDeclarationAgrees | Sources/SwiftXMLInterfaces/Production.swift:266-281 | without a public identifier, the external entity declaration written equals the formatter's |
| Production.ExternalWithoutPublicID | Sources/SwiftXMLInterfaces/Production.swift:266-281 | without a public identifier, the production's text read as the formatter's parts |
| Production.UnparsedEntityDeclarationAgrees | Sources/SwiftXMLInterfaces/Production.swift:283-300 | without a public identifier, the unparsed entity declaration written equals the formatter's |
| Production.UnparsedWithoutPublicID | Sources/SwiftXMLInterfaces/Production.swift:283-300 | without a public identifier, the production's text read as the formatter's parts |
| Production.AttributeLacksEquals | Sources/SwiftXMLInterfaces/Production.swift:204-210 | the attribute written is the formatter's attribute with its `=` removed, and exactly that |
| Production.InternalEntityDeclarationLacksClosingQuote | Sources/SwiftXMLInterfaces/Production.swift:256-264 | the internal entity declaration written is the formatter's with the quote that closes the value removed, and exactly that |
| Production.ExternalEntityDeclarationPublicSpace | Sources/SwiftXMLInterfaces/Production.swift:266-281 | with a public identifier, the external entity declaration written is the formatter's with the space before `PUBLIC` removed |
| Production.ExternalPublicFormatted | Sources/SwiftXMLInterfaces/Formatting.swift:203-205 | with a public identifier, the formatter's external entity declaration split around the space before `PUBLIC` |
| Production.ExternalPublicWritten | Sources/SwiftXMLInterfaces/Production.swift:266-281 | with a public identifier, the production's external entity declaration in the same parts, without that space |
| Production.UnparsedEntityDeclarationPublicSpace | Sources/SwiftXMLInterfaces/Production.swift:283-300 | with a public identifier, the unparsed entity declaration written is the formatter's with the space before `PUBLIC` removed |
| Production.UnparsedPublicFormatted | Sources/SwiftXMLInterfaces/Formatting.swift:207-209 | with a public identifier, the formatter's unparsed entity declaration split around the space before `PUBLIC` |
| Production.UnparsedPublicWritten | Sources/SwiftXMLInterfaces/Production.swift:283-300 | with a public identifier, the production's unparsed entity declaration in the same parts, without that space |
| Production.NotationWithoutPublicID | Sources/SwiftXMLInterfaces/Production.swift:302-321 | without a public identifier, the production writes the formatter's notation text up to the identifier, then `>` and the line break |
| Production.NotationWithPublicID | Sources/SwiftXMLInterfaces/Production.swift:302-321 | with a public identifier, the production writes the same text without the space before `PUBLIC`, then `>` and the line break |
| Production.NotationDeclarationDiffers | Sources/SwiftXMLInterfaces/Production.swift:302-321 | the formatter ends a notation declaration with the line break and `>`, and the production writes the same body followed by `>` and the line break. With a public identifier, the production also leaves out the space before `PUBLIC` |
| Production.ParameterEntityDeclarationDiffers | Sources/SwiftXMLInterfaces/Production.swift:323-331 | the formatter ends a parameter entity declaration with the line break and `>`, and the production writes the same body followed by `>` and the line break |
| Production.DeclarationIsLine | Sources/SwiftXMLInterfaces/Production.swift:256-343 | every declaration the production writes into the internal subset starts with the indentation and ends with the line break |
| Production.InternalEntityDeclarationLine | Sources/SwiftXMLInterfaces/Production.swift:256-264 | an internal entity declaration written starts with the indentation and ends with the line break |
| Production.ExternalEntityDeclarationLine | Sources/SwiftXMLInterfaces/Production.swift:266-281 | an external entity declaration written starts with the indentation and ends with the line break |
| Production.UnparsedEntityDeclarationLine | Sources/SwiftXMLInterfaces/Production.swift:283-300 | an unparsed entity declaration written starts with the indentation and ends with the line break |
| Production.NotationDeclarationLine | Sources/SwiftXMLInterfaces/Production.swift:302-321 | a notation declaration written starts with the indentation and ends with the line break |
| Production.ParameterEntityDeclarationLine | Sources/SwiftXMLInterfaces/Production.swift:323-331 | a parameter entity declaration written starts with the indentation and ends with the line break |
| Parser.RecordingParser.constructor | Sources/SwiftXMLInterfaces/Parser.swift:9-11 | a stand-in for the `Parser` protocol that starts with no recorded calls and a fixed failure |
| Parser.RecordingParser.Parse | Sources/SwiftXMLInterfaces/Parser.swift:10 | records the call with its arguments unchanged and throws the fixed failure, if any |
| Parser.HandlerList | Sources/SwiftXMLInterfaces/Parser.swift:65-71 | the handlers passed on are the main handler followed by the extra handlers in their order, so there are one more of them than extras |
| Parser.HandlerListWithoutExtras | Sources/SwiftXMLInterfaces/Parser.swift:69-70 | without extra handlers only the main handler is passed on |
| Parser.HandlerListEmptyExtras | Sources/SwiftXMLInterfaces/Parser.swift:65-71 | an empty list of extras passes on the same handlers as no list |
| Parser.HandlerListInjective | Sources/SwiftXMLInterfaces/Parser.swift:66-68 | the handler list determines the extras it was built from |
| Parser.TextData | Sources/SwiftXMLInterfaces/Parser.swift:51 | the UTF-8 data of a text has between one and four bytes per character |
| Parser.TextDataTotal | Sources/SwiftXMLInterfaces/Parser.swift:51-53 | every text has UTF-8 data, and the data of a concatenation is the concatenation of the data |
| Parser.ConvenienceParser.constructor | Sources/SwiftXMLInterfaces/Parser.swift:18-21 | keeps the parser and the main event handler |
| Parser.ConvenienceParser.ParseFromData | Sources/SwiftXMLInterfaces/Parser.swift:60-73 | calls the underlying parser exactly once, with the data and source information unchanged and the main handler before the extras, and passes its failure on |
| Parser.ConvenienceParser.ParseFromText | Sources/SwiftXMLInterfaces/Parser.swift:46-58 | a text without UTF-8 data throws `ParseError` with the source's message and reaches no parser; otherwise its UTF-8 data goes to the parser once, with the source information unchanged |
| Parser.ConvenienceParser.ParseFromURL | Sources/SwiftXMLInterfaces/Parser.swift:35-44 | a file that cannot be read fails before any parse call; otherwise its contents go to the parser once, with the given source information or else the URL's platform path |
| Parser.ConvenienceParser.ParseFromPath | Sources/SwiftXMLInterfaces/Parser.swift:23-33 | as a URL parse of the path, with the given source information or else the path itself |

## Left out

- The production's file handle holds characters, not the UTF-8 bytes that `FileHandle.write` sends. `Common.Utf8Concat` shows that encoding each written piece gives the encoding of the whole text.
- Real I/O is not modelled: `FileHandle`, `Data(contentsOf:)` and `autoreleasepool`. The file handle is a class with a growing text. The files a URL parse can read are a map from paths to their contents, and a path missing from the map is the read error.
- `URL(fileURLWithPath:)` is not modelled beyond its path: a URL is modelled by that path, with no normalisation.
- `platform()` is left out because it detects the platform at compile time. The platform is an argument of `PathSeparator`, `OsPath` and the URL and path parses.
- The `Parser`, `XMLFormatter` and `XMLProduction` protocols are not modelled as protocols. `RecordingParser` is a concrete class that records each call and answers with a failure fixed when it is made. It stands in for any parser's outcome on a single call, but not for a parser whose outcome depends on the data or on earlier calls. The formatter and production classes are modelled directly, without subclassing.
- Parser.TextData: a Swift string, like a Dafny string, always has a UTF-8 form, so the `nil` branch of `parse(fromText:)` cannot be reached. `ParseFromText` still states what it does there.
- Event handlers are modelled by identity only, because what they do is not part of this layer. `Events.swift`, `Parsing.swift`, `Sources/XMLInterfaces/XMLInterfaces.swift` and `Package.swift` are protocol declarations, no-op handlers and build metadata; they are not part of this model.
- `Errors.swift` is modelled only as the `ParseError` case of `Parser.Error`, which carries the message.
- Sorting.Sort uses Dafny's code-point order on characters. Swift orders strings by grapheme clusters under Unicode canonical equivalence, which is not modelled. For the same reason, `replacingOccurrences` is modelled character by character.
