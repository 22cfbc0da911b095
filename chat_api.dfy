/**
 * The API client of the chat front end: the expansion of the server's
 * history into messages, and the progress-event scanner that turns the
 * growing response text of the chat request into `onChunk` calls.
 *
 * HTTP calls are replaced by their outcome (a `Response`); `JSON.parse`
 * of a frame payload is a parameter `parse` whose result is one of three
 * outcomes.
 */
module ChatApi {
  import opened JsString

  datatype Role = User | Assistant

  datatype Message = Message(role: Role, text: string)

  /** One `{query, answer}` pair of the server's history. */
  datatype HistoryEntry = HistoryEntry(query: string, answer: string)

  /** The outcome of one HTTP call: its payload, or a rejection (network failure or non-success status). */
  datatype Response<T> = Ok(body: T) | TransportError

  // ---------------------------------------------------------------------
  // fetchHistory

  /** The messages of a history: each pair becomes a user message and then an assistant message. */
  function Expand(history: seq<HistoryEntry>): (r: seq<Message>)
    ensures |r| == 2 * |history|
  {
    if history == [] then []
    else
      var last := history[|history| - 1];
      Expand(history[..|history| - 1]) + [Message(User, last.query), Message(Assistant, last.answer)]
  }

  /** Message 2i is the i-th query from the user and message 2i+1 the i-th answer from the assistant. */
  lemma {:induction false} ExpandAt(history: seq<HistoryEntry>, i: nat)
    requires i < |history|
    ensures Expand(history)[2 * i] == Message(User, history[i].query)
    ensures Expand(history)[2 * i + 1] == Message(Assistant, history[i].answer)
  {
    if i < |history| - 1 {
      ExpandAt(history[..|history| - 1], i);
    }
  }

  /**
   * `fetchHistory`: a rejected request rejects; otherwise the pairs are
   * pushed in server order, two messages per pair.
   */
  method FetchHistory(response: Response<seq<HistoryEntry>>) returns (r: Response<seq<Message>>)
    ensures response.TransportError? <==> r.TransportError?
    ensures response.Ok? ==> r == Ok(Expand(response.body))
    ensures response.Ok? ==> |r.body| == 2 * |response.body|
    ensures response.Ok? ==> forall i :: 0 <= i < |response.body| ==>
      r.body[2 * i] == Message(User, response.body[i].query) &&
      r.body[2 * i + 1] == Message(Assistant, response.body[i].answer)
  {
    if response.TransportError? {
      return TransportError;
    }
    var history := response.body;
    var messages: seq<Message> := [];
    var i := 0;
    while i < |history|
      invariant 0 <= i <= |history|
      invariant messages == Expand(history[..i])
    {
      assert history[..i + 1][..i] == history[..i];
      messages := messages + [Message(User, history[i].query)];
      messages := messages + [Message(Assistant, history[i].answer)];
      i := i + 1;
    }
    assert history[..|history|] == history;
    forall i | 0 <= i < |history|
      ensures messages[2 * i] == Message(User, history[i].query)
      ensures messages[2 * i + 1] == Message(Assistant, history[i].answer)
    {
      ExpandAt(history, i);
    }
    r := Ok(messages);
  }

  // ---------------------------------------------------------------------
  // The frame scanner of streamChatResponse

  /** What `JSON.parse` of a payload yields: a failure, an object without a text, or a text. */
  datatype ParseOutcome = ParseError | NoText | Text(text: string)

  type Parser = string -> ParseOutcome

  /** The prefix a segment must start with to be parsed. */
  const DataPrefix: string := "data: "

  /** The payload of a segment: everything after its first six characters. */
  function Payload(segment: string): string
    requires StartsWith(segment, DataPrefix)
  {
    segment[|DataPrefix|..]
  }

  /**
   * The `onChunk` calls one segment makes: one call with the parsed text when
   * the segment starts with the prefix and its payload parses to a non-empty
   * (truthy) text, none otherwise.
   */
  function SegmentCalls(segment: string, parse: Parser): seq<string> {
    if StartsWith(segment, DataPrefix) then
      match parse(Payload(segment))
      case Text(t) => if t != "" then [t] else []
      case _ => []
    else []
  }

  /** The `onChunk` calls of a list of segments, in segment order. */
  function Dispatched(segments: seq<string>, parse: Parser): seq<string> {
    if segments == [] then []
    else Dispatched(segments[..|segments| - 1], parse) + SegmentCalls(segments[|segments| - 1], parse)
  }

  /** Every call carries a non-empty (truthy) text, and no segment makes more than one call. */
  lemma {:induction false} DispatchedCalls(segments: seq<string>, parse: Parser)
    ensures |Dispatched(segments, parse)| <= |segments|
    ensures forall k :: 0 <= k < |Dispatched(segments, parse)| ==> Dispatched(segments, parse)[k] != ""
  {
    if segments != [] {
      DispatchedCalls(segments[..|segments| - 1], parse);
    }
  }

  /** The calls of two lists of segments one after the other are the calls of the first list, then of the second. */
  lemma {:induction false} DispatchedAppend(a: seq<string>, b: seq<string>, parse: Parser)
    ensures Dispatched(a + b, parse) == Dispatched(a, parse) + Dispatched(b, parse)
  {
    if b != [] {
      var b' := b[..|b| - 1];
      assert (a + b)[..|a + b| - 1] == a + b';
      DispatchedAppend(a, b', parse);
    } else {
      assert a + b == a;
    }
  }

  /**
   * A segment whose payload fails to parse is skipped and the segments after
   * it are still processed; so is a segment whose payload carries no text.
   */
  lemma UnparsableSegmentIsSkipped(before: seq<string>, segment: string, after: seq<string>, parse: Parser)
    requires StartsWith(segment, DataPrefix)
    requires parse(Payload(segment)).ParseError? || parse(Payload(segment)).NoText?
    ensures Dispatched(before + [segment] + after, parse) == Dispatched(before, parse) + Dispatched(after, parse)
  {
    var withSegment := before + [segment];
    assert SegmentCalls(segment, parse) == [];
    assert Dispatched(withSegment, parse) == Dispatched(before, parse) by {
      assert withSegment[..|withSegment| - 1] == before;
      assert Dispatched(before, parse) + [] == Dispatched(before, parse);
    }
    DispatchedAppend(withSegment, after, parse);
  }

  /** The calls one progress event makes for the text it scans. */
  function ChunkCalls(newChunk: string, parse: Parser): seq<string> {
    Dispatched(Split(newChunk), parse)
  }

  /**
   * The loop of `onDownloadProgress` over the segments of the newly arrived
   * text: returns the `onChunk` calls it makes, in order.
   */
  method ScanChunk(newChunk: string, parse: Parser) returns (calls: seq<string>)
    ensures calls == ChunkCalls(newChunk, parse)
  {
    var lines := Split(newChunk);
    calls := [];
    for i := 0 to |lines|
      invariant calls == Dispatched(lines[..i], parse)
    {
      assert lines[..i + 1][..i] == lines[..i];
      var line := lines[i];
      if StartsWith(line, DataPrefix) {
        match parse(line[6..]) {
          case Text(t) =>
            if t != "" {
              calls := calls + [t];
            }
          case _ =>
        }
      }
    }
    assert lines[..|lines|] == lines;
  }

  /** The state `streamChatResponse` keeps across progress events: the cursor into the response text. */
  class StreamScanner {
    var lastProcessedPosition: nat

    constructor ()
      ensures lastProcessedPosition == 0
    {
      lastProcessedPosition := 0;
    }

    /**
     * `onDownloadProgress`: scans exactly the text past the old cursor, then
     * moves the cursor to the length of the response text seen.
     */
    method OnDownloadProgress(responseText: string, parse: Parser) returns (calls: seq<string>)
      modifies this
      ensures lastProcessedPosition == |responseText|
      ensures calls == ChunkCalls(Substring(responseText, old(lastProcessedPosition)), parse)
    {
      var newChunk := Substring(responseText, lastProcessedPosition);
      lastProcessedPosition := |responseText|;
      calls := ScanChunk(newChunk, parse);
    }
  }

  // ---------------------------------------------------------------------
  // A whole response: the sequence of progress events

  /** The cursor after a sequence of progress events: the length of the last response text seen. */
  function CursorAfter(progress: seq<string>): nat {
    if progress == [] then 0 else |progress[|progress| - 1]|
  }

  /** The text each event of `progress` scans, the texts concatenated. */
  function Scanned(progress: seq<string>): string {
    if progress == [] then ""
    else
      var before := progress[..|progress| - 1];
      Scanned(before) + Substring(progress[|progress| - 1], CursorAfter(before))
  }

  /** All `onChunk` calls of a response whose progress events saw the texts `progress`, in order. */
  function Streamed(progress: seq<string>, parse: Parser): seq<string> {
    if progress == [] then []
    else
      var before := progress[..|progress| - 1];
      Streamed(before, parse) + ChunkCalls(Substring(progress[|progress| - 1], CursorAfter(before)), parse)
  }

  /** The response text only grows: each event sees an extension of the text of the event before. */
  predicate Grows(progress: seq<string>) {
    forall i :: 0 < i < |progress| ==> progress[i - 1] <= progress[i]
  }

  /**
   * `streamChatResponse`: a fresh cursor at 0, then one `onDownloadProgress`
   * per event; returns every `onChunk` call made, and the texts the events
   * scanned, put together. While the response text grows that is the final
   * text: every character is scanned by exactly one event.
   */
  method StreamChatResponse(progress: seq<string>, parse: Parser) returns (calls: seq<string>, scanned: string)
    ensures calls == Streamed(progress, parse)
    ensures scanned == Scanned(progress)
    ensures Grows(progress) && progress != [] ==> scanned == progress[|progress| - 1]
  {
    var scanner := new StreamScanner();
    calls, scanned := [], "";
    for i := 0 to |progress|
      invariant scanner.lastProcessedPosition == CursorAfter(progress[..i])
      invariant calls == Streamed(progress[..i], parse)
      invariant scanned == Scanned(progress[..i])
    {
      assert progress[..i + 1][..i] == progress[..i];
      scanned := scanned + Substring(progress[i], scanner.lastProcessedPosition);
      var more := scanner.OnDownloadProgress(progress[i], parse);
      calls := calls + more;
    }
    assert progress[..|progress|] == progress;
    if Grows(progress) && progress != [] {
      ScannedOnce(progress);
    }
  }

  /** While the text grows, the cursor never moves back. */
  lemma {:induction false} CursorMonotone(progress: seq<string>, i: nat, j: nat)
    requires Grows(progress) && i <= j <= |progress|
    ensures CursorAfter(progress[..i]) <= CursorAfter(progress[..j])
  {
    if i < j {
      CursorMonotone(progress, i, j - 1);
      if j >= 2 {
        assert progress[j - 2] <= progress[j - 1];
      }
    }
  }

  /**
   * While the text grows, every character is scanned exactly once: the texts
   * the events scanned, put together, are the last response text.
   */
  lemma {:induction false} ScannedOnce(progress: seq<string>)
    requires Grows(progress) && progress != []
    ensures Scanned(progress) == progress[|progress| - 1]
  {
    var before := progress[..|progress| - 1];
    var last := progress[|progress| - 1];
    if before != [] {
      assert Grows(before);
      ScannedOnce(before);
      assert before[|before| - 1] <= last;
    }
  }

  /** An event that sees the same text as the event before scans nothing and makes no call. */
  lemma {:induction false} ReplayIsSilent(progress: seq<string>, parse: Parser)
    requires progress != []
    ensures Streamed(progress + [progress[|progress| - 1]], parse) == Streamed(progress, parse)
  {
    var again := progress + [progress[|progress| - 1]];
    assert again[..|again| - 1] == progress;
    assert Substring(progress[|progress| - 1], CursorAfter(progress)) == "";
    assert Split("") == [""] by {
      assert !HasDelim("");
    }
    assert SegmentCalls("", parse) == [];
    assert Dispatched([""], parse) == [] by {
      assert [""][..0] == [];
    }
  }

  // ---------------------------------------------------------------------
  // Frames

  predicate NoNewline(s: string) {
    forall k :: 0 <= k < |s| ==> s[k] != '\n'
  }

  /** A complete frame: the prefix, a single-line payload and the delimiter. */
  function Frame(payload: string): string {
    DataPrefix + payload + Delimiter
  }

  /** A text without newlines followed by the delimiter splits into that text and an empty tail. */
  lemma SplitTerminated(body: string)
    requires NoNewline(body)
    ensures Split(body + Delimiter) == [body, ""]
  {
    var s := body + Delimiter;
    var k := |body|;
    assert DelimAt(s, k);
    forall j | 0 <= j < k ensures !DelimAt(s, j) {
      assert s[j] == body[j];
    }
    FirstDelimIs(s, k);
    assert s[..k] == body;
    assert s[k + 2..] == "";
    assert Split("") == [""];
  }

  lemma DispatchedSingle(segment: string, parse: Parser)
    ensures Dispatched([segment], parse) == SegmentCalls(segment, parse)
  {
    assert [segment][..0] == [];
  }

  /** A text without newlines followed by the delimiter makes the calls of that text, as one segment. */
  lemma TerminatedCalls(body: string, parse: Parser)
    requires NoNewline(body)
    ensures ChunkCalls(body + Delimiter, parse) == SegmentCalls(body, parse)
  {
    SplitTerminated(body);
    assert [body, ""][..1] == [body];
    DispatchedSingle(body, parse);
    assert SegmentCalls("", parse) == [];
  }

  /** The calls a well-formed payload yields: its text when that is non-empty, nothing otherwise. */
  function TextCalls(outcome: ParseOutcome): seq<string> {
    if outcome.Text? && outcome.text != "" then [outcome.text] else []
  }

  /** A frame splits into its prefixed payload and the empty text after the delimiter. */
  lemma SplitFrame(payload: string)
    requires NoNewline(payload)
    ensures Split(Frame(payload)) == [DataPrefix + payload, ""]
  {
    var body := DataPrefix + payload;
    assert NoNewline(body) by {
      forall k | 0 <= k < |body| ensures body[k] != '\n' {
        if k >= 6 { assert body[k] == payload[k - 6]; }
      }
    }
    assert Frame(payload) == body + Delimiter;
    SplitTerminated(body);
  }

  /** A frame delivered whole dispatches the text of its payload. */
  lemma FrameCalls(payload: string, parse: Parser)
    requires NoNewline(payload)
    ensures ChunkCalls(Frame(payload), parse) == TextCalls(parse(payload))
  {
    var body := DataPrefix + payload;
    SplitFrame(payload);
    assert [body, ""][..1] == [body];
    DispatchedSingle(body, parse);
    assert SegmentCalls("", parse) == [];
    assert body[..6] == DataPrefix;
    assert Payload(body) == payload;
  }

  lemma StreamedSingle(b: string, parse: Parser)
    ensures Streamed([b], parse) == ChunkCalls(b, parse)
  {
    assert [b][..0] == [];
  }

  lemma StreamedPair(b1: string, b2: string, parse: Parser)
    ensures Streamed([b1, b2], parse) == ChunkCalls(b1, parse) + ChunkCalls(Substring(b2, |b1|), parse)
  {
    assert [b1, b2][..1] == [b1];
    StreamedSingle(b1, parse);
  }

  /**
   * Two frames, each delivered whole in its own event, call `onChunk` with
   * their texts in order: `data: {"text":"Hel"}` then `data: {"text":"lo"}`
   * gives the calls "Hel" and "lo".
   */
  lemma TwoFrameStream(p1: string, p2: string, t1: string, t2: string, parse: Parser)
    requires NoNewline(p1) && NoNewline(p2)
    requires parse(p1) == Text(t1) && parse(p2) == Text(t2) && t1 != "" && t2 != ""
    ensures Streamed([Frame(p1), Frame(p1) + Frame(p2)], parse) == [t1, t2]
  {
    var f1, f2 := Frame(p1), Frame(p2);
    SubstringOfAppend(f1, f2);
    StreamedPair(f1, f1 + f2, parse);
    FrameCalls(p1, parse);
    FrameCalls(p2, parse);
    calc {
      Streamed([f1, f1 + f2], parse);
      ChunkCalls(f1, parse) + ChunkCalls(f2, parse);
      [t1] + [t2];
    }
  }

  lemma SubstringOfAppend(a: string, b: string)
    ensures Substring(a + b, |a|) == b
  {
    assert (a + b)[|a|..] == b;
  }

  /** A cut inside the prefix of a frame: the head, scanned alone, makes no call. */
  lemma FrameHeadCallsNothing(payload: string, c: nat, parse: Parser)
    requires 0 < c < |DataPrefix|
    ensures ChunkCalls(Frame(payload)[..c], parse) == []
  {
    var head := Frame(payload)[..c];
    assert head == DataPrefix[..c];
    FirstDelimSpec(head);
    assert NoNewline(head);
    assert FirstDelim(head).None?;
    assert Split(head) == [head];
    DispatchedSingle(head, parse);
    assert !StartsWith(head, DataPrefix);
  }

  /** A cut inside the prefix of a frame: the rest, scanned alone, makes no call. */
  lemma FrameTailCallsNothing(payload: string, c: nat, parse: Parser)
    requires NoNewline(payload) && 0 < c < |DataPrefix|
    ensures ChunkCalls(Substring(Frame(payload), c), parse) == []
  {
    var tail := DataPrefix[c..] + payload;
    assert Substring(Frame(payload), c) == tail + Delimiter;
    assert NoNewline(tail) by {
      forall k | 0 <= k < |tail| ensures tail[k] != '\n' {
        if k >= |DataPrefix| - c { assert tail[k] == payload[k - (|DataPrefix| - c)]; }
      }
    }
    TerminatedCalls(tail, parse);
    assert !StartsWith(tail, DataPrefix) by { assert tail[0] == DataPrefix[c] != DataPrefix[0]; }
  }

  /**
   * A frame whose first `c` characters, a part of its `data: ` prefix, arrive
   * in one event and the rest in the next is never dispatched, whatever its
   * payload parses to, although the same frame delivered in one event is.
   */
  lemma FrameSplitAcrossEventsIsDropped(payload: string, c: nat, parse: Parser)
    requires NoNewline(payload) && 0 < c < |DataPrefix|
    ensures Streamed([Frame(payload)], parse) == TextCalls(parse(payload))
    ensures Streamed([Frame(payload)[..c], Frame(payload)], parse) == []
  {
    var f := Frame(payload);
    StreamedSingle(f, parse);
    FrameCalls(payload, parse);
    StreamedPair(f[..c], f, parse);
    FrameHeadCallsNothing(payload, c, parse);
    FrameTailCallsNothing(payload, c, parse);
  }
}
