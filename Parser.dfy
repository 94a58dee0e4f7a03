/** `ConvenienceParser`: the entry points that turn a path, a URL or a text
    into data and hand it, with a source description and the list of event
    handlers, to an underlying parser.

    The underlying parser is a protocol in the source. Here it is a class that
    records every call it receives and answers each one with a failure fixed
    when it is made (or with none). File reading is a map from paths to file
    contents, and the platform is an explicit argument. */
module Parser {
  import opened Common
  import Utilities

  /** What a parse can throw: the source's `ParseError` with its message, or a
      failure to read the file behind a URL. */
  datatype Error = ParseError(message: string) | ReadError(path: string)

  /** An event handler, known only by its identity. */
  datatype EventHandler = EventHandler(id: nat)

  /** The arguments of one call of the underlying parser. */
  datatype ParseCall = ParseCall(data: seq<byte>, sourceInfo: Option<string>, eventHandlers: seq<EventHandler>)

  /** The message thrown when a text has no UTF-8 representation. */
  const TextEncodingMessage := "fatal error: could not get binary data from text"

  /** An implementation of the `Parser` protocol that records its calls. */
  class RecordingParser {
    var calls: seq<ParseCall>
    const failure: Option<Error>

    constructor (failure: Option<Error>)
      ensures calls == [] && this.failure == failure
    {
      calls := [];
      this.failure := failure;
    }

    /** `parse(fromData:sourceInfo:eventHandlers:)`: records the call and throws
        `failure`, if any. */
    method Parse(data: seq<byte>, sourceInfo: Option<string>, eventHandlers: seq<EventHandler>)
      returns (error: Option<Error>)
      modifies this
      ensures calls == old(calls) + [ParseCall(data, sourceInfo, eventHandlers)]
      ensures error == failure
    {
      calls := calls + [ParseCall(data, sourceInfo, eventHandlers)];
      error := failure;
    }
  }

  /** The handlers passed on: the main handler, then the extra ones if any. */
  function HandlerList(main: EventHandler, extra: Option<seq<EventHandler>>): (r: seq<EventHandler>)
    ensures |r| == 1 + |extra.GetOr([])|
    ensures r[0] == main
    ensures r[1..] == extra.GetOr([])
    ensures forall i :: 0 <= i < |extra.GetOr([])| ==> r[i + 1] == extra.GetOr([])[i]
  {
    if extra.Some? then [main] + extra.value else [main]
  }

  /** Without extra handlers, only the main one is passed on. */
  lemma HandlerListWithoutExtras(main: EventHandler)
    ensures HandlerList(main, None) == [main]
  {
    assert HandlerList(main, None)[1..] == [];
  }

  /** Without extra handlers the list is the same as with an empty list of them. */
  lemma HandlerListEmptyExtras(main: EventHandler)
    ensures HandlerList(main, Some([])) == HandlerList(main, None)
  {
    HandlerListWithoutExtras(main);
    assert HandlerList(main, Some([]))[1..] == [];
  }

  /** The handler list determines the extra handlers it was built from. */
  lemma HandlerListInjective(main: EventHandler, a: seq<EventHandler>, b: seq<EventHandler>)
    requires HandlerList(main, Some(a)) == HandlerList(main, Some(b))
    ensures a == b
  {
    assert a == HandlerList(main, Some(a))[1..];
  }

  /** `text.data(using: .utf8)`. Every string of Unicode scalar values has a
      UTF-8 form, so this is never `None`; see `TextDataTotal`. */
  function TextData(text: string): (r: Option<seq<byte>>)
    ensures r.Some? ==> |text| <= |r.value| <= 4 * |text|
  {
    Some(Utf8(text))
  }

  /** The text always encodes, piece by piece. */
  lemma TextDataTotal(a: string, b: string)
    ensures TextData(a).Some? && TextData(b).Some? && TextData(a + b).Some?
    ensures TextData(a + b).value == TextData(a).value + TextData(b).value
  {
    Utf8Concat(a, b);
  }

  class ConvenienceParser {
    const parser: RecordingParser
    const mainEventHandler: EventHandler

    /** `init(parser:mainEventHandler:)`. */
    constructor (parser: RecordingParser, mainEventHandler: EventHandler)
      ensures this.parser == parser && this.mainEventHandler == mainEventHandler
    {
      this.parser := parser;
      this.mainEventHandler := mainEventHandler;
    }

    /** `parse(fromData:)`: one call of the underlying parser with the data and
        the source information as given, the main handler first; its failure is
        passed on. */
    method ParseFromData(data: seq<byte>, sourceInfo: Option<string>, eventHandlers: Option<seq<EventHandler>>)
      returns (error: Option<Error>)
      modifies parser
      ensures parser.calls == old(parser.calls) + [ParseCall(data, sourceInfo, HandlerList(mainEventHandler, eventHandlers))]
      ensures error == parser.failure
    {
      var handlers: seq<EventHandler>;
      if eventHandlers.Some? {
        handlers := [mainEventHandler] + eventHandlers.value;
      } else {
        handlers := [mainEventHandler];
      }
      error := parser.Parse(data, sourceInfo, handlers);
    }

    /** `parse(fromText:)`: the text's UTF-8 form goes to `parse(fromData:)`; a
        text without one fails with `ParseError` and reaches no parser. */
    method ParseFromText(text: string, sourceInfo: Option<string>, eventHandlers: Option<seq<EventHandler>>)
      returns (error: Option<Error>)
      modifies parser
      ensures TextData(text).None? ==>
                parser.calls == old(parser.calls) && error == Some(ParseError(TextEncodingMessage))
      ensures TextData(text).Some? ==>
                parser.calls == old(parser.calls)
                  + [ParseCall(TextData(text).value, sourceInfo, HandlerList(mainEventHandler, eventHandlers))]
                && error == parser.failure
    {
      var data := TextData(text);
      if data.Some? {
        error := ParseFromData(data.value, sourceInfo, eventHandlers);
      } else {
        error := Some(ParseError(TextEncodingMessage));
      }
    }

    /** `parse(fromURL:)`: reads the file behind `url`, then goes on as
        `parse(fromData:)` with the URL's platform path as the default source
        information. A file that cannot be read fails before any parsing. */
    method ParseFromURL(url: Utilities.URL, sourceInfo: Option<string>, eventHandlers: Option<seq<EventHandler>>,
                        files: map<string, seq<byte>>, platform: Utilities.Platform)
      returns (error: Option<Error>)
      modifies parser
      ensures url.path !in files ==> parser.calls == old(parser.calls) && error == Some(ReadError(url.path))
      ensures url.path in files ==>
                parser.calls == old(parser.calls)
                  + [ParseCall(files[url.path], Some(sourceInfo.GetOr(Utilities.OsPath(url, platform))),
                               HandlerList(mainEventHandler, eventHandlers))]
                && error == parser.failure
    {
      if url.path in files {
        var data := files[url.path];
        var info := if sourceInfo.Some? then sourceInfo.value else Utilities.OsPath(url, platform);
        error := ParseFromData(data, Some(info), eventHandlers);
      } else {
        error := Some(ReadError(url.path));
      }
    }

    /** `parse(fromPath:)`: as `parse(fromURL:)` on the file URL of `path`, with
        `path` itself as the default source information. */
    method ParseFromPath(path: string, sourceInfo: Option<string>, eventHandlers: Option<seq<EventHandler>>,
                         files: map<string, seq<byte>>, platform: Utilities.Platform)
      returns (error: Option<Error>)
      modifies parser
      ensures path !in files ==> parser.calls == old(parser.calls) && error == Some(ReadError(path))
      ensures path in files ==>
                parser.calls == old(parser.calls)
                  + [ParseCall(files[path], Some(sourceInfo.GetOr(path)), HandlerList(mainEventHandler, eventHandlers))]
                && error == parser.failure
    {
      var info := if sourceInfo.Some? then sourceInfo.value else path;
      error := ParseFromURL(Utilities.FileURL(path), Some(info), eventHandlers, files, platform);
    }
  }

  /** A text parse with one extra handler, then a path parse on Windows whose
      failure is the parser's own. */
  method ConvenienceParserExample()
  {
    var main, extra := EventHandler(0), EventHandler(1);
    var ok := new RecordingParser(None);
    var p := new ConvenienceParser(ok, main);
    assert HandlerList(main, Some([extra])) == [main, extra];
    var error := p.ParseFromText("<a/>", None, Some([extra]));
    assert error == None;
    assert ok.calls == [ParseCall(Utf8("<a/>"), None, [main, extra])];

    var failing := new RecordingParser(Some(ParseError("bad")));
    var q := new ConvenienceParser(failing, main);
    var files := map["/tmp/a.xml" := [60 as byte, 97, 47, 62]];
    HandlerListWithoutExtras(main);
    error := q.ParseFromPath("/tmp/a.xml", None, None, files, Utilities.WindowsIntel);
    assert error == Some(ParseError("bad"));
    assert failing.calls == [ParseCall([60 as byte, 97, 47, 62], Some("/tmp/a.xml"), [main])];
    error := q.ParseFromPath("/tmp/b.xml", Some("b"), None, files, Utilities.WindowsIntel);
    assert error == Some(ReadError("/tmp/b.xml"));
    assert |failing.calls| == 1;
  }
}
