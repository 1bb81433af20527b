/** The client's view of the proxy: `sendMessage`, which turns the proxy's
    reply into a sequence of text fragments, and `fetchModels`, which turns a
    model listing into a list of names. JSON decoding is not modelled; it is
    passed in as a function from a payload to what the code reads out of it. */
module Api {
  import opened Common
  import opened Strings
  import opened Providers

  /** What the code reads out of a JSON payload: `Unparseable` when
      parsing the payload or reading the field throws (a payload such as
      `null` parses, and then reading `choices` throws), otherwise the text field it looks at
      (`choices[0].delta.content` of a streamed event, `text` of a
      single-shot reply), `None` when that field is missing. */
  datatype Parsed = Unparseable | Parsed(text: Option<string>)

  const DataPrefix := "data: "
  const DoneSentinel := "[DONE]"

  /** The payload of an event line: the trimmed line after `data: `. */
  function Payload(line: string): string
    requires StartsWith(Trim(line), DataPrefix)
  {
    Trim(line)[|DataPrefix|..]
  }

  /** What one complete line yields: never an empty fragment. */
  function LineFragment(line: string, extractDelta: string -> Parsed): (r: Option<string>)
    ensures r.Some? ==> r.value != ""
  {
    var trimmed := Trim(line);
    if trimmed == "" || !StartsWith(trimmed, DataPrefix) then None
    else
      var data := trimmed[|DataPrefix|..];
      if data == DoneSentinel then None
      else
        match extractDelta(data)
        case Unparseable => None
        case Parsed(content) => if Truthy(content) then Some(content.value) else None
  }

  /** A line yields a fragment exactly when the trimmed line starts with
      `data: `, its payload is not `[DONE]`, and the payload parses to a
      non-empty delta, which is then the fragment. */
  lemma LineFragmentMeaning(line: string, extractDelta: string -> Parsed)
    ensures var r := LineFragment(line, extractDelta);
      && (r.Some? <==>
            && StartsWith(Trim(line), DataPrefix)
            && Payload(line) != DoneSentinel
            && extractDelta(Payload(line)).Parsed?
            && Truthy(extractDelta(Payload(line)).text))
      && (r.Some? ==> r.value != "" && extractDelta(Payload(line)) == Parsed(Some(r.value)))
  {
  }

  function OptionToSeq(o: Option<string>): seq<string> {
    if o.Some? then [o.value] else []
  }

  /** The fragments a list of complete lines yields, in line order: at
      most one per line. */
  function Fragments(lines: seq<string>, extractDelta: string -> Parsed): (r: seq<string>)
    ensures |r| <= |lines|
  {
    if |lines| == 0 then []
    else Fragments(AllButLast(lines), extractDelta) + OptionToSeq(LineFragment(Last(lines), extractDelta))
  }

  /** Fragments come out in line order: those of `a + b` are those of `a`
      followed by those of `b`. */
  lemma {:induction false} FragmentsAppend(a: seq<string>, b: seq<string>, extractDelta: string -> Parsed)
    ensures Fragments(a + b, extractDelta) == Fragments(a, extractDelta) + Fragments(b, extractDelta)
    decreases |b|
  {
    if |b| == 0 {
      assert a + b == a;
    } else {
      assert AllButLast(a + b) == a + AllButLast(b);
      assert Last(a + b) == Last(b);
      FragmentsAppend(a, AllButLast(b), extractDelta);
    }
  }

  /** One more line adds what that line yields. */
  lemma FragmentsSnoc(a: seq<string>, line: string, extractDelta: string -> Parsed)
    ensures Fragments(a + [line], extractDelta) == Fragments(a, extractDelta) + OptionToSeq(LineFragment(line, extractDelta))
  {
    AllButLastAppend(a, [line]);
  }

  /** No fragment is ever empty. */
  lemma {:induction false} FragmentsNonEmpty(lines: seq<string>, extractDelta: string -> Parsed)
    ensures forall i :: 0 <= i < |Fragments(lines, extractDelta)| ==> Fragments(lines, extractDelta)[i] != ""
  {
    if |lines| > 0 {
      FragmentsNonEmpty(AllButLast(lines), extractDelta);
    }
  }

  /** A line that yields nothing (blank, not an event line, the `[DONE]`
      sentinel, an unparseable payload or an empty delta) does not stop the
      lines after it from being processed. */
  lemma SkippedLineKeepsGoing(a: seq<string>, line: string, b: seq<string>, extractDelta: string -> Parsed)
    requires LineFragment(line, extractDelta).None?
    ensures Fragments(a + [line] + b, extractDelta) == Fragments(a, extractDelta) + Fragments(b, extractDelta)
  {
    var none := OptionToSeq(LineFragment(line, extractDelta));
    assert none == [];
    FragmentsAppend(a + [line], b, extractDelta);
    FragmentsSnoc(a, line, extractDelta);
    var fa := Fragments(a, extractDelta);
    assert fa + none == fa;
  }

  /** In particular the sentinel is skipped with `continue`, not `break`. */
  lemma DoneIsSkipped(a: seq<string>, b: seq<string>, extractDelta: string -> Parsed)
    ensures Fragments(a + ["data: [DONE]"] + b, extractDelta) == Fragments(a, extractDelta) + Fragments(b, extractDelta)
  {
    var line := "data: [DONE]";
    TrimUnchanged(line);
    assert line[..|DataPrefix|] == DataPrefix;
    assert line[|DataPrefix|..] == DoneSentinel;
    SkippedLineKeepsGoing(a, line, b, extractDelta);
  }

  /** The lines of a body that a newline has terminated. */
  function CompleteLines(body: string): seq<string> {
    AllButLast(Split(body, '\n'))
  }

  /** The unterminated tail of a body, left in the buffer. */
  function Pending(body: string): string {
    Last(Split(body, '\n'))
  }

  /** The fragments a streamed body yields, however it was cut into chunks. */
  function StreamedFragments(chunks: seq<string>, extractDelta: string -> Parsed): seq<string> {
    Fragments(CompleteLines(Concat(chunks)), extractDelta)
  }

  /** The body is its complete lines and its pending tail joined by
      newlines, and the tail holds no newline. */
  lemma BodyIsLinesAndTail(body: string)
    ensures '\n' !in Pending(body)
    ensures Join(CompleteLines(body) + [Pending(body)], '\n') == body
  {
    var s := Split(body, '\n');
    SplitJoinsBack(body, '\n');
    AllButLastThenLast(s);
    assert Pending(body) == s[|s| - 1];
  }

  /** Appending text with no newline never completes a line: an
      unterminated tail is never processed. */
  lemma UnterminatedTailIgnored(body: string, tail: string)
    requires '\n' !in tail
    ensures CompleteLines(body + tail) == CompleteLines(body)
  {
    SplitAppend(body, tail, '\n');
    SplitFree(tail, '\n');
  }

  /** How the lines of a body grow when a chunk arrives: the pending tail
      and the chunk are split together, and all but the last piece are new
      complete lines. */
  lemma LinesAfterChunk(body: string, chunk: string)
    ensures var joined := Split(Pending(body) + chunk, '\n');
      && CompleteLines(body + chunk) == CompleteLines(body) + AllButLast(joined)
      && Pending(body + chunk) == Last(joined)
  {
    var tail := Pending(body);
    SplitAppend(body, chunk, '\n');
    SplitAppend(tail, chunk, '\n');
    BodyIsLinesAndTail(body);
    SplitFree(tail, '\n');
    FuseOntoLast(Split(body, '\n'), Split(chunk, '\n'));
  }

  lemma {:induction false} ConcatAppend(a: seq<string>, b: seq<string>)
    ensures Concat(a + b) == Concat(a) + Concat(b)
    decreases |b|
  {
    if |b| == 0 {
      assert a + b == a;
    } else {
      assert (a + b)[..|a + b| - 1] == a + b[..|b| - 1];
      ConcatAppend(a, b[..|b| - 1]);
    }
  }

  /** Because of the buffering, cutting one chunk in two anywhere changes
      nothing that is yielded: the fragments depend on the body only. */
  lemma ChunkBoundaryIrrelevant(before: seq<string>, x: string, y: string, after: seq<string>, extractDelta: string -> Parsed)
    ensures StreamedFragments(before + [x, y] + after, extractDelta) == StreamedFragments(before + [x + y] + after, extractDelta)
  {
    ConcatAppend(before + [x, y], after);
    ConcatAppend(before, [x, y]);
    ConcatAppend(before + [x + y], after);
    ConcatAppend(before, [x + y]);
    assert Concat([x, y]) == x + y by {
      assert [x, y][..1] == [x];
      assert Concat([x]) == x by { assert [x][..0] == []; }
    }
    assert Concat([x + y]) == x + y by { assert [x + y][..0] == []; }
  }

  /** How the reading state moves when chunk `i` arrives. */
  lemma StreamStep(chunks: seq<string>, i: nat, extractDelta: string -> Parsed)
    requires i < |chunks|
    ensures var body := Concat(chunks[..i]);
      var joined := Split(Pending(body) + chunks[i], '\n');
      && Fragments(CompleteLines(Concat(chunks[..i + 1])), extractDelta)
         == Fragments(CompleteLines(body), extractDelta) + Fragments(AllButLast(joined), extractDelta)
      && Pending(Concat(chunks[..i + 1])) == Last(joined)
  {
    var body := Concat(chunks[..i]);
    assert chunks[..i + 1][..i] == chunks[..i];
    assert Concat(chunks[..i + 1]) == body + chunks[i];
    LinesAfterChunk(body, chunks[i]);
    var joined := Split(Pending(body) + chunks[i], '\n');
    FragmentsAppend(CompleteLines(body), AllButLast(joined), extractDelta);
  }

  /** The inner loop of the reader: each complete line is trimmed, lines
      that are blank or not `data: ` events are skipped, the `[DONE]`
      sentinel is skipped, unparseable payloads are skipped, and a
      non-empty delta is yielded. */
  method ProcessLines(lines: seq<string>, extractDelta: string -> Parsed) returns (yielded: seq<string>)
    ensures yielded == Fragments(lines, extractDelta)
  {
    yielded := [];
    for j := 0 to |lines|
      invariant yielded == Fragments(lines[..j], extractDelta)
    {
      assert lines[..j + 1] == lines[..j] + [lines[j]];
      FragmentsSnoc(lines[..j], lines[j], extractDelta);
      ghost var step := LineFragment(lines[j], extractDelta);
      var trimmed := Trim(lines[j]);
      if trimmed == "" || !StartsWith(trimmed, DataPrefix) {
        assert step.None?;
        continue;
      }
      var data := trimmed[|DataPrefix|..];
      if data == DoneSentinel {
        assert step.None?;
        continue;
      }
      match extractDelta(data) {
        case Unparseable =>
          assert step.None?;
        case Parsed(content) =>
          if Truthy(content) {
            assert step == Some(content.value);
            yielded := yielded + [content.value];
          } else {
            assert step.None?;
          }
      }
    }
    assert lines[..|lines|] == lines;
  }

  /** The read loop of `sendMessage` for a streamed reply: each chunk is
      appended to the buffer, the buffer is split on newlines, the last
      piece goes back into the buffer, and each complete line is
      processed. The fragments are those of the complete lines of the whole
      body, and the buffer is left holding its unterminated tail. */
  method ReadEventStream(chunks: seq<string>, extractDelta: string -> Parsed) returns (fragments: seq<string>, buffer: string)
    ensures fragments == StreamedFragments(chunks, extractDelta)
    ensures buffer == Pending(Concat(chunks))
  {
    fragments, buffer := [], "";
    var i := 0;
    while i < |chunks|
      invariant 0 <= i <= |chunks|
      invariant buffer == Pending(Concat(chunks[..i]))
      invariant fragments == Fragments(CompleteLines(Concat(chunks[..i])), extractDelta)
    {
      StreamStep(chunks, i, extractDelta);
      buffer := buffer + chunks[i];
      var pieces := Split(buffer, '\n');
      var lines := AllButLast(pieces);
      buffer := Last(pieces);
      var yielded := ProcessLines(lines, extractDelta);
      fragments := fragments + yielded;
      i := i + 1;
    }
    assert chunks[..i] == chunks;
  }

  /** The proxy's reply as the client sees it: the status, and the body as
      the sequence of decoded chunks the reader delivers (`None` when the
      response has no body). */
  datatype Response = Response(ok: bool, status: int, body: Option<seq<string>>)

  datatype SendError = ApiError(status: int) | NoResponseBody | MalformedReply

  /** `sendMessage`: a non-ok status or a missing body fails before any
      fragment; a streaming provider yields the fragments of the event
      stream, none of them empty; `gemini` yields exactly one fragment, the
      reply's `text` or `''`. */
  method SendMessage(provider: Provider, response: Response, extractDelta: string -> Parsed,
                     parseReply: string -> Parsed) returns (r: Result<seq<string>, SendError>)
    ensures !response.ok ==> r == Failure(ApiError(response.status))
    ensures response.ok && response.body.None? ==> r == Failure(NoResponseBody)
    ensures response.ok && response.body.Some? && Streams(provider) ==>
      r == Success(StreamedFragments(response.body.value, extractDelta))
    ensures r.Success? && Streams(provider) ==> forall i :: 0 <= i < |r.value| ==> r.value[i] != ""
    ensures response.ok && response.body.Some? && !Streams(provider) ==>
      match parseReply(Concat(response.body.value))
      case Unparseable => r == Failure(MalformedReply)
      case Parsed(text) => r == Success([text.GetOr("")])
  {
    if !response.ok {
      return Failure(ApiError(response.status));
    }
    if response.body.None? {
      return Failure(NoResponseBody);
    }
    if Streams(provider) {
      var fragments, _ := ReadEventStream(response.body.value, extractDelta);
      FragmentsNonEmpty(CompleteLines(Concat(response.body.value)), extractDelta);
      r := Success(fragments);
    } else {
      match parseReply(Concat(response.body.value)) {
        case Unparseable => r := Failure(MalformedReply);
        case Parsed(text) => r := Success([if Truthy(text) then text.value else ""]);
      }
    }
  }

  /** The listing a model-discovery reply carries, already decoded: the
      `name` of each entry of `models` and the `id` of each entry of `data`,
      `None` when that field is missing or not an array. */
  datatype ModelsReply = ModelsReply(ok: bool, statusText: string,
                                     models: Option<seq<string>>, data: Option<seq<string>>)

  const GeminiNamePrefix := "models/"

  /** `fetchModels`: one name per listed entry, in order; for `gemini` each
      name loses its first `models/`, for the others it is the entry's id;
      a missing or non-array listing gives no names. */
  function FetchModels(provider: Provider, reply: ModelsReply): (r: Result<seq<string>, string>)
    ensures !reply.ok <==> r.Failure?
    ensures !reply.ok ==> r.error == "Failed to fetch models: " + reply.statusText
    ensures reply.ok && provider == Gemini ==>
      if reply.models.Some? then
        |r.value| == |reply.models.value| &&
        forall i :: 0 <= i < |r.value| ==> r.value[i] == RemoveFirst(reply.models.value[i], GeminiNamePrefix)
      else r.value == []
    ensures reply.ok && provider != Gemini ==> r.value == reply.data.GetOr([])
  {
    if !reply.ok then Failure("Failed to fetch models: " + reply.statusText)
    else if provider == Gemini then
      if reply.models.Some? then
        var names := reply.models.value;
        Success(seq(|names|, i requires 0 <= i < |names| => RemoveFirst(names[i], GeminiNamePrefix)))
      else Success([])
    else if reply.data.Some? then Success(reply.data.value)
    else Success([])
  }

  /** A Gemini model named `models/<id>` is listed as `<id>`. */
  lemma GeminiNamesLosePrefix(ids: seq<string>, names: seq<string>)
    requires |names| == |ids|
    requires forall i :: 0 <= i < |ids| ==> names[i] == GeminiNamePrefix + ids[i]
    ensures FetchModels(Gemini, ModelsReply(true, "", Some(names), None)) == Success(ids)
  {
    forall i | 0 <= i < |ids|
      ensures RemoveFirst(names[i], GeminiNamePrefix) == ids[i]
    {
      RemoveFirstOfPrefixed(GeminiNamePrefix, ids[i]);
    }
    var r := FetchModels(Gemini, ModelsReply(true, "", Some(names), None));
    assert r.value == ids;
  }
}
