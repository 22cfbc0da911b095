/**
 * A frame scanner that keeps the unfinished last segment of each event and
 * puts it in front of the text the next event brings, so that a frame cut
 * by an event boundary is completed instead of dropped. It dispatches, over
 * a whole response, exactly the complete frames of the final response text,
 * however that text was cut into events; where every event ends on a frame
 * boundary it makes the same calls as the scanner of `ChatApi`.
 */
module BufferedStream {
  import opened JsString
  import opened ChatApi

  /** The parts of a split that a delimiter closes: all but the last. */
  function Closed(parts: seq<string>): seq<string>
    requires |parts| >= 1
  {
    parts[..|parts| - 1]
  }

  /** The part of a split after the last delimiter, still open. */
  function Open(parts: seq<string>): string
    requires |parts| >= 1
  {
    parts[|parts| - 1]
  }

  /** The open segment after a sequence of progress events. */
  function PendingAfter(progress: seq<string>): string {
    if progress == [] then ""
    else
      var before := progress[..|progress| - 1];
      Open(Split(PendingAfter(before) + Substring(progress[|progress| - 1], CursorAfter(before))))
  }

  /** All calls the buffering scanner makes over a sequence of progress events. */
  function BufferedStreamed(progress: seq<string>, parse: Parser): seq<string> {
    if progress == [] then []
    else
      var before := progress[..|progress| - 1];
      var parts := Split(PendingAfter(before) + Substring(progress[|progress| - 1], CursorAfter(before)));
      BufferedStreamed(before, parse) + Dispatched(Closed(parts), parse)
  }

  class BufferedScanner {
    var lastProcessedPosition: nat
    var pending: string

    constructor ()
      ensures lastProcessedPosition == 0 && pending == ""
    {
      lastProcessedPosition := 0;
      pending := "";
    }

    /**
     * Scans the kept segment followed by the text past the cursor, dispatches
     * the segments a delimiter closes and keeps the last one.
     */
    method OnDownloadProgress(responseText: string, parse: Parser) returns (calls: seq<string>)
      modifies this
      ensures lastProcessedPosition == |responseText|
      ensures pending == Open(Split(old(pending) + Substring(responseText, old(lastProcessedPosition))))
      ensures calls == Dispatched(Closed(Split(old(pending) + Substring(responseText, old(lastProcessedPosition)))), parse)
    {
      var text := pending + Substring(responseText, lastProcessedPosition);
      lastProcessedPosition := |responseText|;
      var parts := Split(text);
      calls := ScanClosed(parts, parse);
      pending := Open(parts);
    }
  }

  /** The dispatch loop over every part but the last, which is kept. */
  method ScanClosed(parts: seq<string>, parse: Parser) returns (calls: seq<string>)
    requires |parts| >= 1
    ensures calls == Dispatched(Closed(parts), parse)
  {
    calls := [];
    for i := 0 to |parts| - 1
      invariant calls == Dispatched(parts[..i], parse)
    {
      assert parts[..i + 1][..i] == parts[..i];
      calls := calls + SegmentCalls(parts[i], parse);
    }
  }

  /** A whole response read through the buffering scanner. */
  method BufferedStreamChatResponse(progress: seq<string>, parse: Parser) returns (calls: seq<string>)
    ensures calls == BufferedStreamed(progress, parse)
  {
    var scanner := new BufferedScanner();
    calls := [];
    for i := 0 to |progress|
      invariant scanner.lastProcessedPosition == CursorAfter(progress[..i])
      invariant scanner.pending == PendingAfter(progress[..i])
      invariant calls == BufferedStreamed(progress[..i], parse)
    {
      assert progress[..i + 1][..i] == progress[..i];
      var more := scanner.OnDownloadProgress(progress[i], parse);
      calls := calls + more;
    }
    assert progress[..|progress|] == progress;
  }

  /**
   * Extending a text `a` by `y`: its open part is the open part of the
   * extension of `a`'s open part, and its closed parts dispatch `a`'s
   * closed parts and then the closed parts of that extension.
   */
  lemma ExtendOpen(a: string, y: string, parse: Parser)
    ensures Open(Split(a + y)) == Open(Split(Open(Split(a)) + y))
    ensures Dispatched(Closed(Split(a + y)), parse) ==
      Dispatched(Closed(Split(a)), parse) + Dispatched(Closed(Split(Open(Split(a)) + y)), parse)
  {
    SplitAppend(a, y);
    var pa := Split(a);
    var py := Split(Open(pa) + y);
    assert Split(a + y) == Closed(pa) + py;
    assert Closed(Split(a + y)) == Closed(pa) + Closed(py);
    DispatchedAppend(Closed(pa), Closed(py), parse);
  }

  /** One more event, spelled out: the text it scans is the kept segment and then the new text. */
  lemma BufferedStep(progress: seq<string>, parse: Parser)
    requires progress != []
    ensures var before := progress[..|progress| - 1];
      var text := PendingAfter(before) + Substring(progress[|progress| - 1], CursorAfter(before));
      PendingAfter(progress) == Open(Split(text)) &&
      BufferedStreamed(progress, parse) == BufferedStreamed(before, parse) + Dispatched(Closed(Split(text)), parse)
  {
  }

  /**
   * While the response text grows, the buffering scanner keeps the open
   * segment of the text seen so far and has dispatched exactly its closed
   * segments: every complete frame once, in order, however the text was cut
   * into events.
   */
  lemma {:induction false} BufferedMatchesWholeText(progress: seq<string>, parse: Parser)
    requires Grows(progress) && progress != []
    ensures PendingAfter(progress) == Open(Split(progress[|progress| - 1]))
    ensures BufferedStreamed(progress, parse) == Dispatched(Closed(Split(progress[|progress| - 1])), parse)
  {
    if |progress| == 1 {
      BufferedFirst(progress, parse);
    } else {
      GrowsPrefix(progress);
      BufferedMatchesWholeText(progress[..|progress| - 1], parse);
      BufferedNext(progress, parse);
    }
  }

  /** The first event scans its whole text. */
  lemma BufferedFirst(progress: seq<string>, parse: Parser)
    requires |progress| == 1
    ensures PendingAfter(progress) == Open(Split(progress[0]))
    ensures BufferedStreamed(progress, parse) == Dispatched(Closed(Split(progress[0])), parse)
  {
    BufferedStep(progress, parse);
    assert progress[..0] == [];
    assert "" + Substring(progress[0], 0) == progress[0];
  }

  /** A later event of a growing text extends what the events before it kept and dispatched. */
  lemma BufferedNext(progress: seq<string>, parse: Parser)
    requires |progress| >= 2 && progress[|progress| - 2] <= progress[|progress| - 1]
    requires PendingAfter(progress[..|progress| - 1]) == Open(Split(progress[|progress| - 2]))
    requires BufferedStreamed(progress[..|progress| - 1], parse) == Dispatched(Closed(Split(progress[|progress| - 2])), parse)
    ensures PendingAfter(progress) == Open(Split(progress[|progress| - 1]))
    ensures BufferedStreamed(progress, parse) == Dispatched(Closed(Split(progress[|progress| - 1])), parse)
  {
    var before := progress[..|progress| - 1];
    BufferedStep(progress, parse);
    ExtendStep(progress[|progress| - 2], progress[|progress| - 1], PendingAfter(progress),
      BufferedStreamed(before, parse), BufferedStreamed(progress, parse), parse);
  }

  /**
   * The step of `BufferedNext`, over the values involved: the text `b` extends
   * `a`, and the event scans `a`'s open part followed by the text past `a`.
   */
  lemma ExtendStep(a: string, b: string, pending: string, streamedBefore: seq<string>, streamed: seq<string>, parse: Parser)
    requires a <= b
    requires pending == Open(Split(Open(Split(a)) + Substring(b, |a|)))
    requires streamedBefore == Dispatched(Closed(Split(a)), parse)
    requires streamed == streamedBefore + Dispatched(Closed(Split(Open(Split(a)) + Substring(b, |a|))), parse)
    ensures pending == Open(Split(b))
    ensures streamed == Dispatched(Closed(Split(b)), parse)
  {
    var y := Substring(b, |a|);
    assert b == a + y;
    ExtendOpen(a, y, parse);
  }

  lemma GrowsPrefix(progress: seq<string>)
    requires Grows(progress) && |progress| >= 2
    ensures Grows(progress[..|progress| - 1])
    ensures progress[|progress| - 2] <= progress[|progress| - 1]
  {
  }

  /** Every event of `progress` ends on a frame boundary: nothing is left open. */
  predicate Aligned(progress: seq<string>) {
    forall i :: 0 <= i < |progress| ==> Open(Split(progress[i])) == ""
  }

  /** The calls of a split whose open part is empty are those of its closed parts. */
  lemma ClosedCallsAll(parts: seq<string>, parse: Parser)
    requires |parts| >= 1 && Open(parts) == ""
    ensures Dispatched(parts, parse) == Dispatched(Closed(parts), parse)
  {
    assert SegmentCalls("", parse) == [];
  }

  /**
   * When every event ends on a frame boundary and the text grows, the scanner
   * as written makes the same calls as the buffering one, so the frames are
   * lost only when an event boundary falls inside a frame.
   */
  lemma {:induction false} AlignedEventsAgree(progress: seq<string>, parse: Parser)
    requires Grows(progress) && Aligned(progress)
    ensures Streamed(progress, parse) == BufferedStreamed(progress, parse)
    ensures progress != [] ==> PendingAfter(progress) == ""
  {
    if progress != [] {
      var before := progress[..|progress| - 1];
      var b := progress[|progress| - 1];
      var y := Substring(b, CursorAfter(before));
      assert Open(Split(y)) == "" by {
        assert Open(Split(b)) == "";
        if before == [] {
          assert y == b;
        } else {
          var a := before[|before| - 1];
          assert Open(Split(a)) == "";
          GrowsPrefix(progress);
          assert b == a + y;
          ExtendOpen(a, y, parse);
          assert "" + y == y;
        }
      }
      assert Streamed(before, parse) == BufferedStreamed(before, parse) && PendingAfter(before) == "" by {
        if before != [] {
          GrowsPrefix(progress);
          assert Aligned(before);
          AlignedEventsAgree(before, parse);
        }
      }
      assert Streamed(progress, parse) == Streamed(before, parse) + ChunkCalls(y, parse);
      assert PendingAfter(progress) == Open(Split(y)) &&
        BufferedStreamed(progress, parse) == BufferedStreamed(before, parse) + Dispatched(Closed(Split(y)), parse) by {
        BufferedStep(progress, parse);
        assert PendingAfter(before) + y == y;
      }
      ClosedCallsAll(Split(y), parse);
    }
  }

  /**
   * The frame that `ChatApi.FrameSplitAcrossEventsIsDropped` shows lost is
   * delivered by the buffering scanner, just as when it arrives whole, and
   * so it is wherever the event boundary falls.
   */
  lemma BufferedDeliversSplitFrame(payload: string, c: nat, parse: Parser)
    requires NoNewline(payload) && c <= |Frame(payload)|
    ensures BufferedStreamed([Frame(payload)[..c], Frame(payload)], parse) == TextCalls(parse(payload))
  {
    var f := Frame(payload);
    var progress := [f[..c], f];
    assert Grows(progress) by { assert f[..c] <= f; }
    BufferedMatchesWholeText(progress, parse);
    SplitFrame(payload);
    ClosedCallsAll(Split(f), parse);
    FrameCalls(payload, parse);
  }
}
