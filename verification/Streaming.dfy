/** Newline-delimited JSON: the batch parser, the fold over chunks, and the line buffer that is fed in fragments. */
module Streaming {
  import opened Wrappers
  import opened Text
  import opened Lines
  import opened AgentRuns

  /** One streamed piece of a response. */
  datatype Chunk = Chunk(
    contentDelta: string, toolCalls: seq<ToolCall>, done: bool, finishReason: Option<string>,
    usage: Option<Usage>, model: Option<string>)

  /** What a JSON text means, if it is an object at all. */
  type Decoder = string -> Option<Chunk>

  /** The empty text is no JSON, and a carriage return behind a JSON text is white space (section 2 of RFC 8259). */
  ghost predicate IsJson(decode: Decoder) {
    decode("") == None && forall s: string :: decode(s + "\r") == decode(s)
  }

  function StripBlanks(line: string): string {
    if line != "" && (line[0] == ' ' || line[0] == '\t') then StripBlanks(line[1..]) else line
  }

  /** parse_stream_line */
  function ParseLine(decode: Decoder, line: string): Option<Chunk> {
    if StripBlanks(line) == "" then None else decode(StripBlanks(line))
  }

  /** Blanks in front of a line do not matter; a line of nothing else holds no chunk. */
  lemma {:induction false} LineIsDecoded(decode: Decoder, blanks: string, rest: string)
    requires forall i :: 0 <= i < |blanks| ==> blanks[i] == ' ' || blanks[i] == '\t'
    requires rest != "" ==> rest[0] != ' ' && rest[0] != '\t'
    ensures ParseLine(decode, blanks + rest) == if rest == "" then None else decode(rest)
    decreases |blanks|
  {
    if blanks == "" {
      assert blanks + rest == rest;
    } else {
      assert (blanks + rest)[1..] == blanks[1..] + rest;
      LineIsDecoded(decode, blanks[1..], rest);
    }
  }

  /** The chunk of a line, if it parses. */
  function LineChunks(decode: Decoder, line: string): seq<Chunk> {
    if ParseLine(decode, line).Some? then [ParseLine(decode, line).value] else []
  }

  function ParseLines(decode: Decoder, lines: seq<string>): seq<Chunk> {
    if lines == [] then [] else LineChunks(decode, lines[0]) + ParseLines(decode, lines[1..])
  }

  /** A line that parse_stream reports as an error: not empty, and no JSON object. */
  function LineErrors(decode: Decoder, line: string): seq<string> {
    if DropCr(line) != "" && ParseLine(decode, DropCr(line)).None? then [DropCr(line)] else []
  }

  function BadLines(decode: Decoder, lines: seq<string>): seq<string> {
    if lines == [] then [] else LineErrors(decode, lines[0]) + BadLines(decode, lines[1..])
  }

  lemma {:induction false} StripThenCr(line: string)
    ensures StripBlanks(line + "\r") == StripBlanks(line) + "\r"
    decreases |line|
  {
    if line != "" && (line[0] == ' ' || line[0] == '\t') {
      assert (line + "\r")[1..] == line[1..] + "\r";
      StripThenCr(line[1..]);
    }
  }

  /** The carriage return that the batch parser drops makes no difference. */
  lemma CrIsInsignificant(decode: Decoder, line: string)
    requires IsJson(decode)
    ensures ParseLine(decode, DropCr(line)) == ParseLine(decode, line)
  {
    if line != "" && line[|line| - 1] == '\r' {
      var l := DropCr(line);
      assert line == l + "\r";
      StripThenCr(l);
      assert decode(StripBlanks(l) + "\r") == decode(StripBlanks(l));
    }
  }

  lemma {:induction false} ParseLinesConcat(decode: Decoder, a: seq<string>, b: seq<string>)
    ensures ParseLines(decode, a + b) == ParseLines(decode, a) + ParseLines(decode, b)
    decreases |a|
  {
    hide LineChunks;
    if a == [] {
      assert a + b == b;
    } else {
      assert (a + b)[1..] == a[1..] + b;
      ParseLinesConcat(decode, a[1..], b);
      Regrouped(LineChunks(decode, a[0]), ParseLines(decode, a[1..]), ParseLines(decode, b));
    }
  }

  // ----- the batch parser

  datatype ParseResult = ParseResult(chunks: seq<Chunk>, errors: seq<string>)

  /** What the batch parser is to find in a text. */
  function Batch(decode: Decoder, text: string): ParseResult {
    ParseResult(ParseLines(decode, GetLines(text)), BadLines(decode, GetLines(text)))
  }

  /** parse_stream */
  method ParseStream(decode: Decoder, ndjson: string) returns (result: ParseResult)
    requires IsJson(decode)
    ensures result == Batch(decode, ndjson)
  {
    hide Find, ParseLine, DropCr, Batch, ParseLines, BadLines, GetLines;
    result := ParseResult([], []);
    var rest := ndjson;
    while rest != ""
      invariant Joined(result, Batch(decode, rest)) == Batch(decode, ndjson)
      decreases |rest|
    {
      BatchStep(decode, rest, result);
      var n := Find(rest, "\n", 0);
      FindFits(rest, n);
      var line := if n == NPOS then rest else rest[..n];
      rest := if n == NPOS then "" else rest[n + 1..];
      line := DropCr(line);
      if line == "" {
        continue;
      }
      var chunk := ParseLine(decode, line);
      if chunk.Some? {
        result := result.(chunks := result.chunks + [chunk.value]);
      } else {
        result := result.(errors := result.errors + [line]);
      }
    }
    EmptyBatch(decode, result);
  }

  function Joined(a: ParseResult, b: ParseResult): ParseResult {
    ParseResult(a.chunks + b.chunks, a.errors + b.errors)
  }

  lemma EmptyBatch(decode: Decoder, result: ParseResult)
    ensures Joined(result, Batch(decode, "")) == result
  {
    NoSplit("");
  }

  lemma FindFits(s: string, n: int)
    requires n == Find(s, "\n", 0)
    ensures n == NPOS || 0 <= n < |s|
    ensures Complete("") == [] && Leftover("") == ""
  {
  }

  /** One turn of the loop: the first line yields a chunk, an error, or nothing if it is empty. */
  lemma BatchStep(decode: Decoder, rest: string, result: ParseResult)
    requires IsJson(decode) && rest != ""
    ensures var n := Find(rest, "\n", 0);
            var line := DropCr(if n == NPOS then rest else rest[..n]);
            var next := if line == "" then result
                        else if ParseLine(decode, line).Some? then
                          result.(chunks := result.chunks + [ParseLine(decode, line).value])
                        else result.(errors := result.errors + [line]);
            Joined(result, Batch(decode, rest)) == Joined(next, Batch(decode, if n == NPOS then "" else rest[n + 1..]))
  {
    hide ParseLine, Complete, Leftover, IsJson, DropCr;
    NextLine(rest);
    EmptyBatch(decode, result);
    NoSplit("");
    var n := Find(rest, "\n", 0);
    var line := if n == NPOS then rest else rest[..n];
    var lines := if n == NPOS then [] else GetLines(rest[n + 1..]);
    assert GetLines(rest) == [line] + lines;
    assert ([line] + lines)[1..] == lines;
    CrIsInsignificant(decode, line);
    LastLineParses(decode, "");
    Regrouped(result.chunks, LineChunks(decode, line), ParseLines(decode, lines));
    Regrouped(result.errors, LineErrors(decode, line), BadLines(decode, lines));
  }

  predicate IsVisible(line: string) { DropCr(line) != "" }

  function Visible(lines: seq<string>): nat {
    if lines == [] then 0 else (if IsVisible(lines[0]) then 1 else 0) + Visible(lines[1..])
  }

  /** Every line that is not empty becomes one chunk or one error. */
  lemma {:induction false} LinesAreAccounted(decode: Decoder, lines: seq<string>)
    requires IsJson(decode)
    ensures |ParseLines(decode, lines)| + |BadLines(decode, lines)| == Visible(lines)
    decreases |lines|
  {
    if lines != [] {
      CrIsInsignificant(decode, lines[0]);
      LinesAreAccounted(decode, lines[1..]);
    }
  }

  // ----- the fold over chunks

  datatype ChatResponse = ChatResponse(content: string, toolCalls: seq<ToolCall>, usage: Option<Usage>, model: string)

  const NO_RESPONSE := ChatResponse("", [], None, "")

  function Contents(chunks: seq<Chunk>): string {
    if chunks == [] then "" else chunks[0].contentDelta + Contents(chunks[1..])
  }

  function AllCalls(chunks: seq<Chunk>): seq<ToolCall> {
    if chunks == [] then [] else chunks[0].toolCalls + AllCalls(chunks[1..])
  }

  /** The last chunk that has a usage decides. */
  function LastUsage(chunks: seq<Chunk>): Option<Usage> {
    if chunks == [] then None
    else if chunks[|chunks| - 1].usage.Some? then chunks[|chunks| - 1].usage
    else LastUsage(chunks[..|chunks| - 1])
  }

  function LastModel(chunks: seq<Chunk>): string {
    if chunks == [] then ""
    else if chunks[|chunks| - 1].model.Some? then chunks[|chunks| - 1].model.value
    else LastModel(chunks[..|chunks| - 1])
  }

  function Aggregated(chunks: seq<Chunk>): ChatResponse {
    ChatResponse(Contents(chunks), AllCalls(chunks), LastUsage(chunks), LastModel(chunks))
  }

  lemma {:induction false} ContentsConcat(a: seq<Chunk>, b: seq<Chunk>)
    ensures Contents(a + b) == Contents(a) + Contents(b) && AllCalls(a + b) == AllCalls(a) + AllCalls(b)
    decreases |a|
  {
    if a == [] {
      assert a + b == b;
    } else {
      assert (a + b)[1..] == a[1..] + b;
      ContentsConcat(a[1..], b);
    }
  }

  lemma AggregatedNext(chunks: seq<Chunk>, k: nat)
    requires k < |chunks|
    ensures var before, after, c := Aggregated(chunks[..k]), Aggregated(chunks[..k + 1]), chunks[k];
            && after.content == before.content + c.contentDelta
            && after.toolCalls == before.toolCalls + c.toolCalls
            && after.usage == (if c.usage.Some? then c.usage else before.usage)
            && after.model == (if c.model.Some? then c.model.value else before.model)
  {
    assert chunks[..k + 1] == chunks[..k] + [chunks[k]];
    ContentsConcat(chunks[..k], [chunks[k]]);
    assert chunks[..k + 1][..k] == chunks[..k];
  }

  /** aggregate_chunks */
  method AggregateChunks(chunks: seq<Chunk>) returns (response: ChatResponse)
    ensures response == Aggregated(chunks)
  {
    hide Contents, AllCalls, LastUsage, LastModel;
    response := NO_RESPONSE;
    assert chunks[..0] == [] && chunks[..|chunks|] == chunks;
    NothingAggregated();
    for k := 0 to |chunks|
      invariant response == Aggregated(chunks[..k])
    {
      AggregatedNext(chunks, k);
      var chunk := chunks[k];
      response := response.(content := response.content + chunk.contentDelta);
      if chunk.model.Some? {
        response := response.(model := chunk.model.value);
      }
      for j := 0 to |chunk.toolCalls|
        invariant response.toolCalls == Aggregated(chunks[..k]).toolCalls + chunk.toolCalls[..j]
        invariant response.content == Aggregated(chunks[..k + 1]).content &&
                  response.model == Aggregated(chunks[..k + 1]).model
        invariant response.usage == Aggregated(chunks[..k]).usage
      {
        response := response.(toolCalls := response.toolCalls + [chunk.toolCalls[j]]);
      }
      assert chunk.toolCalls[..|chunk.toolCalls|] == chunk.toolCalls;
      if chunk.usage.Some? {
        response := response.(usage := chunk.usage);
      }
    }
  }

  lemma NothingAggregated()
    ensures Aggregated([]) == NO_RESPONSE
  {
  }

  // ----- the line buffer

  function Concat(fragments: seq<string>): string {
    if fragments == [] then "" else fragments[0] + Concat(fragments[1..])
  }

  /** What the buffer holds and has produced once it has been fed a text. */
  datatype Fed = Fed(buffered: string, chunks: seq<Chunk>)

  function Feed(decode: Decoder, fed: Fed, data: string): Fed {
    Fed(Leftover(fed.buffered + data), fed.chunks + ParseLines(decode, Complete(fed.buffered + data)))
  }

  function FeedAll(decode: Decoder, fed: Fed, fragments: seq<string>): Fed
    decreases |fragments|
  {
    if fragments == [] then fed else FeedAll(decode, Feed(decode, fed, fragments[0]), fragments[1..])
  }

  lemma FeedTwice(decode: Decoder, fed: Fed, a: string, b: string)
    ensures Feed(decode, Feed(decode, fed, a), b) == Feed(decode, fed, a + b)
  {
    hide Complete, Leftover, ParseLines;
    var s := fed.buffered + a;
    assert fed.buffered + (a + b) == s + b;
    SplitGoesOn(s, b);
    ParseLinesConcat(decode, Complete(s), Complete(Leftover(s) + b));
  }

  /** A state the buffer can be in between two fragments: no complete line is waiting. */
  predicate Settled(fed: Fed) { OneLine(fed.buffered) }

  lemma {:induction false} LeftoverIsOneLine(s: string)
    ensures OneLine(Leftover(s))
    decreases |s|
  {
    var n := Find(s, "\n", 0);
    if n == NPOS {
      NoNewline(s);
    } else {
      LeftoverIsOneLine(s[n + 1..]);
    }
  }

  /** However the text is cut into fragments, the buffer ends up the same. */
  lemma {:induction false} FragmentsDoNotMatter(decode: Decoder, fed: Fed, fragments: seq<string>)
    requires Settled(fed)
    ensures FeedAll(decode, fed, fragments) == Feed(decode, fed, Concat(fragments))
    decreases |fragments|
  {
    hide Leftover, Complete;
    if fragments == [] {
      assert fed.buffered + "" == fed.buffered;
      NoSplit(fed.buffered);
    } else {
      LeftoverIsOneLine(fed.buffered + fragments[0]);
      FragmentsDoNotMatter(decode, Feed(decode, fed, fragments[0]), fragments[1..]);
      FeedTwice(decode, fed, fragments[0], Concat(fragments[1..]));
    }
  }

  /** What the streamed chat ends with, once the transport has delivered the text and returned the body. */
  function Streamed(decode: Decoder, text: string, body: string): seq<Chunk> {
    var fed := Feed(decode, Fed("", []), text);
    if fed.chunks == [] then Batch(decode, body).chunks
    else fed.chunks + ParseLines(decode, [fed.buffered])
  }

  /**
   * Streamed lines count if a terminated one of them parses, and then the body does not; otherwise only the lines of
   * the body count.
   */
  lemma StreamedLines(decode: Decoder, text: string, body: string)
    ensures Feed(decode, Fed("", []), text) == Fed(Leftover(text), ParseLines(decode, Complete(text)))
    ensures Streamed(decode, text, body) ==
            ParseLines(decode, if ParseLines(decode, Complete(text)) == [] then GetLines(body)
                               else Complete(text) + [Leftover(text)])
  {
    hide ParseLine, Leftover, Complete, ParseLines;
    assert "" + text == text;
    EmptyAround(ParseLines(decode, Complete(text)));
    ParseLinesConcat(decode, Complete(text), [Leftover(text)]);
  }

  /**
   * Streaming a text with an empty body yields what parsing it at once yields, unless its only JSON is an unterminated
   * last line.
   */
  lemma StreamingAgreesWithBatch(decode: Decoder, text: string)
    requires IsJson(decode)
    ensures Streamed(decode, text, "") == Batch(decode, text).chunks <==>
            || ParseLines(decode, Complete(text)) != []
            || ParseLine(decode, Leftover(text)) == None
  {
    hide ParseLine, Leftover, Complete;
    assert "" + text == text;
    assert [] + ParseLines(decode, Complete(text)) == ParseLines(decode, Complete(text));
    NoSplit("");
    var last := if Leftover(text) == "" then [] else [Leftover(text)];
    ParseLinesConcat(decode, Complete(text), last);
    LastLineParses(decode, Leftover(text));
  }

  /** A text without the carriage returns at its end. */
  function WithoutEnd(s: string): string
    decreases |s|
  {
    if s != "" && s[|s| - 1] == '\r' then WithoutEnd(s[..|s| - 1]) else s
  }

  const NO_DELTA := Chunk("", [], false, None, None, None)

  /** A decoder that knows one JSON text. */
  function BracesOnly(): Decoder {
    s => if WithoutEnd(s) == "{}" then Some(NO_DELTA) else None
  }

  lemma BracesAreJson()
    ensures IsJson(BracesOnly())
  {
    forall s: string ensures WithoutEnd(s + "\r") == WithoutEnd(s) {
      assert (s + "\r")[..|s|] == s;
    }
  }

  /** The same line as the body of a response that is not streamed is read. */
  lemma SoleBodyIsRead()
    ensures Streamed(BracesOnly(), "", "{}") == [NO_DELTA]
  {
    hide ParseLines, IsJson, Complete, Leftover, ParseLine;
    NoSplit("{}");
    NoSplit("");
    StreamedLines(BracesOnly(), "", "{}");
    assert [] + ["{}"] == ["{}"];
    LastLineParses(BracesOnly(), "{}");
    LastLineParses(BracesOnly(), "");
    BracesParse();
  }

  /** A response of one line without a newline is dropped when it is streamed with an empty body, and read otherwise. */
  lemma SoleLineIsDropped()
    ensures IsJson(BracesOnly())
    ensures Streamed(BracesOnly(), "{}", "") == [] && Batch(BracesOnly(), "{}").chunks == [NO_DELTA]
  {
    hide ParseLines, IsJson, Complete, Leftover, ParseLine;
    BracesAreJson();
    NoSplit("{}");
    NoSplit("");
    assert "" + "{}" == "{}";
    assert [] + ["{}"] == ["{}"] && GetLines("") == [];
    LastLineParses(BracesOnly(), "{}");
    BracesParse();
  }

  lemma BracesParse()
    ensures ParseLine(BracesOnly(), "{}") == Some(NO_DELTA)
  {
    assert StripBlanks("{}") == "{}" && WithoutEnd("{}") == "{}";
  }

  lemma LastLineParses(decode: Decoder, line: string)
    ensures ParseLines(decode, [line]) == LineChunks(decode, line)
    ensures ParseLine(decode, "") == None && ParseLines(decode, []) == []
  {
    assert [line][1..] == [];
  }

  // ----- chat as it runs

  datatype HttpResponse = HttpResponse(status: int, body: string, error: string)

  datatype ChatResult = ChatOk(response: ChatResponse) | ChatError

  /** The local variables of chat that its data callback works on. */
  class StreamAssembly {
    const decode: Decoder
    const hasCallback: bool
    var buffered: string
    var chunks: seq<Chunk>
    var delivered: seq<Chunk>  // what the caller's stream callback was called with

    constructor (decode: Decoder, hasCallback: bool)
      ensures this.decode == decode && this.hasCallback == hasCallback
      ensures buffered == "" && chunks == [] && delivered == []
    {
      this.decode, this.hasCallback := decode, hasCallback;
      buffered, chunks, delivered := "", [], [];
    }

    function Contents(): Fed
      reads this
    {
      Fed(buffered, chunks)
    }

    /** A chunk is handed to the caller, if there is one, and kept. */
    method Accept(chunk: Chunk)
      modifies this`chunks, this`delivered
      ensures chunks == old(chunks) + [chunk]
      ensures delivered == if hasCallback then old(delivered) + [chunk] else old(delivered)
    {
      if hasCallback {
        delivered := delivered + [chunk];
      }
      chunks := chunks + [chunk];
    }

    /** What the caller has been given is what has been kept. */
    predicate InStep()
      reads this
    {
      delivered == if hasCallback then chunks else []
    }

    /** on_data */
    method OnData(data: string)
      requires InStep()
      modifies this
      ensures Contents() == Feed(decode, old(Contents()), data) && InStep()
    {
      hide Find, ParseLine, Feed;
      ghost var goal := Feed(decode, Contents(), data);
      FeedBuffered(decode, buffered, chunks, data);
      buffered := buffered + data;
      while true
        invariant InStep()
        invariant Feed(decode, Contents(), "") == goal
        decreases |buffered|
      {
        var pos := Find(buffered, "\n", 0);
        if pos == NPOS {
          FeedDone(decode, buffered, chunks);
          break;
        }
        FindFits(buffered, pos);
        var line := buffered[..pos];
        BufferStep(decode, buffered, chunks);
        var chunk := ParseLine(decode, line);
        if chunk.Some? {
          Accept(chunk.value);
        }
        EmptyAround(chunks);
        buffered := buffered[pos + 1..];
      }
    }

    /** The end of chat: the body if no chunk has come, or else the line that is left in the buffer. */
    method FinishStream(body: string)
      requires InStep() && IsJson(decode)
      modifies this
      ensures chunks == if old(chunks) == [] then Batch(decode, body).chunks
                        else old(chunks) + ParseLines(decode, [old(buffered)])
      ensures InStep()
    {
      hide Batch, ParseLine, ParseLines, IsJson;
      if chunks == [] {
        var parsed := ParseStream(decode, body);
        chunks := parsed.chunks;
        if hasCallback {
          for k := 0 to |parsed.chunks|
            invariant delivered == parsed.chunks[..k] && chunks == parsed.chunks
          {
            delivered := delivered + [parsed.chunks[k]];
          }
          assert parsed.chunks[..|parsed.chunks|] == parsed.chunks;
        }
      } else {
        LastLineParses(decode, buffered);
        if buffered != "" {
          var chunk := ParseLine(decode, buffered);
          if chunk.Some? {
            Accept(chunk.value);
          }
        }
      }
    }
  }

  /** Feeding is appending to the buffer and feeding nothing. */
  lemma FeedBuffered(decode: Decoder, buffered: string, chunks: seq<Chunk>, data: string)
    ensures Feed(decode, Fed(buffered, chunks), data) == Feed(decode, Fed(buffered + data, chunks), "")
  {
    EmptyAround(buffered + data);
  }

  lemma FeedDone(decode: Decoder, buffered: string, chunks: seq<Chunk>)
    requires Find(buffered, "\n", 0) == NPOS
    ensures Feed(decode, Fed(buffered, chunks), "") == Fed(buffered, chunks)
  {
    NoNewline(buffered);
    NoSplit(buffered);
    EmptyAround(buffered);
    EmptyAround(chunks);
  }

  /** Taking the first line off the buffer. */
  lemma BufferStep(decode: Decoder, buffered: string, chunks: seq<Chunk>)
    requires Find(buffered, "\n", 0) != NPOS
    ensures var n := Find(buffered, "\n", 0);
            var line, rest := buffered[..n], buffered[n + 1..];
            Feed(decode, Fed(buffered, chunks), "") ==
            Feed(decode, Fed(rest, chunks + LineChunks(decode, line)), "")
  {
    hide Find, Complete, Leftover, LineChunks;
    FirstNewline(buffered);
    FindFits(buffered, Find(buffered, "\n", 0));
    var n := Find(buffered, "\n", 0);
    var line, rest := buffered[..n], buffered[n + 1..];
    SplitFirst(line, rest);
    assert buffered + "" == buffered && rest + "" == rest;
    assert ([line] + Complete(rest))[1..] == Complete(rest);
  }

  /** OllamaBackend::chat: what is returned, and what the caller's callback has seen. */
  method Chat(decode: Decoder, fragments: seq<string>, http: HttpResponse, requestStream: bool, hasCallback: bool,
              requestModel: string)
    returns (result: ChatResult, delivered: seq<Chunk>)
    requires IsJson(decode)
    ensures result.ChatError? <==> http.error != "" || http.status < 200 || 300 <= http.status
    ensures result.ChatOk? ==>
              var text := if hasCallback || requestStream then Concat(fragments) else "";
              var lines := if ParseLines(decode, Complete(text)) == [] then GetLines(http.body)
                           else Complete(text) + [Leftover(text)];
              var chunks := ParseLines(decode, lines);
              && result.response.content == Contents(chunks)
              && result.response.toolCalls == AllCalls(chunks)
              && result.response.usage == LastUsage(chunks)
              && result.response.model == (if LastModel(chunks) == "" then requestModel else LastModel(chunks))
              && delivered == (if hasCallback then chunks else [])
    ensures result.ChatError? ==>
              delivered == if hasCallback then ParseLines(decode, Complete(Concat(fragments))) else []
  {
    hide Feed, Batch, IsJson, ParseLines, Complete, Leftover, GetLines, Contents, AllCalls, LastUsage, LastModel;
    var streaming := hasCallback || requestStream;
    var a := new StreamAssembly(decode, hasCallback);
    ghost var all := if streaming then Concat(fragments) else "";
    StartOfFeed(decode, fragments);
    if streaming {
      var k := 0;
      while k < |fragments|
        invariant k <= |fragments| && a.InStep()
        invariant FeedAll(decode, a.Contents(), fragments[k..]) == FeedAll(decode, Fed("", []), fragments)
      {
        assert fragments[k..][0] == fragments[k] && fragments[k..][1..] == fragments[k + 1..];
        a.OnData(fragments[k]);
        k := k + 1;
      }
    }
    assert a.Contents() == Feed(decode, Fed("", []), all);
    StreamedLines(decode, all, http.body);
    if http.error != "" || http.status < 200 || 300 <= http.status {
      return ChatError, a.delivered;
    }
    a.FinishStream(http.body);
    var response := AggregateChunks(a.chunks);
    if response.model == "" {
      response := response.(model := requestModel);
    }
    return ChatOk(response), a.delivered;
  }

  lemma StartOfFeed(decode: Decoder, fragments: seq<string>)
    ensures fragments[0..] == fragments
    ensures FeedAll(decode, Fed("", []), fragments) == Feed(decode, Fed("", []), Concat(fragments))
    ensures Feed(decode, Fed("", []), "") == Fed("", [])
    ensures forall fed :: FeedAll(decode, fed, []) == fed
  {
    FragmentsDoNotMatter(decode, Fed("", []), fragments);
    NoSplit("");
    assert "" + "" == "";
  }
}
