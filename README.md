# RagChatBoot front end: a Dafny model of the chat client core

This project models the browser client of a streaming question-answering
chat. The client must do five things:

- keep one session id in the browser's storage;
- load the conversation history of that session;
- send a query;
- feed the server's event stream into the last assistant message as it
  arrives;
- reset the session.

While a reply is awaited it shows a loader with rotating hints.

The model has six modules, one file each.

- `Wrappers` (`wrappers.dfy`) holds the `Option` type.
- `JsString` (`js_string.dfy`) holds the JavaScript string built-ins the
  client relies on, stated on `seq<char>`:
  - `split("\n\n")`, which cuts at the leftmost non-overlapping
    delimiters;
  - `join`;
  - `startsWith`;
  - `substring(start)`, which gives the empty string for a start past the
    end;
  - `trim`, with the white-space and line-terminator set of ECMAScript.
- `ChatApi` (`chat_api.dfy`) covers the API client:
  - `fetchHistory`, a loop that expands query/answer pairs into messages;
  - the progress-event scanner of `streamChatResponse`. This is a class
    holding the cursor `lastProcessedPosition`. Each event scans the text
    past the cursor, splits it on blank lines, and makes one `onChunk`
    call per `data: ` segment whose payload parses to a non-empty text.
  - A fold `Streamed` states what a whole response does: every call it
    makes, in order.
- `BufferedStream` (`buffered_stream.dfy`) is the corrected scanner of the
  finding below.
- `ChatView` (`chat.dfy`) covers the `Chat` component:
  - its state (session id, messages, input, loading flag) as a class;
  - its handlers as methods;
  - the list updaters it passes to `setMessages`, as functions;
  - its two render rules (message bubble, loader) as predicates.
- `Loader` (`loader.dfy`) covers the hint list selection and the modular
  `hintIndex` rotation, as a class with a `Tick` method.

`JSON.parse` of a payload is a parameter `parse` that yields one of three
outcomes:

- a parse failure;
- an object without a (truthy) `text`;
- a text.

A truthy text is a non-empty string. Other parts of the client are also
parameters:

- the outcome of each HTTP call (a `Response`, or for the delete a
  success flag);
- the stored session id (a `SessionStorage` cell);
- the freshly generated v4 UUID;
- the `onChunk` calls a request produced.

The fallback message in `Chat.jsx` is spelled as the file stores it:
"Sorry " followed by U+00E2 U+20AC U+201D, which is a UTF-8 em dash read
as Windows-1252.

Reset rotates the session id only when the server-side delete succeeds.
When it fails, the id and the messages stay as they were
(src/components/Chat.jsx:79-87).

## Model

| member | source | states |
|---|---|---|
| JsString.FirstDelimSpec | src/api/chatApi.js:36 | the delimiter found is a blank line with none before it; none is found only when the text has no blank line |
| JsString.FirstDelimIs | src/api/chatApi.js:36 | a blank line with none before it is exactly the one the split cuts at |
| JsString.FirstDelimAppend | src/api/chatApi.js:36 | appending text never moves the leftmost delimiter of a text that has one |
| JsString.SplitJoin | src/api/chatApi.js:36 | joining the parts of `split("\n\n")` with the delimiter gives the text back |
| JsString.SplitPartsClean | src/api/chatApi.js:36 | no part holds a delimiter; no part but the last ends with a newline (the cuts are leftmost) |
| JsString.SplitAppend | src/api/chatApi.js:36 | splitting an extended text keeps every part but the last and re-splits the last part with the extension |
| JsString.Split | src/api/chatApi.js:36 | `split("\n\n")`: cuts at the leftmost delimiter and splits the rest; always at least one part (its meaning is fixed by the lemmas below) |
| JsString.StartsWith | src/api/chatApi.js:38 | `startsWith`: the text is at least as long as the prefix and begins with it |
| JsString.Substring | src/api/chatApi.js:34 | `substring(start)` is the text after `start`; past the end it is empty |
| JsString.Trim | src/components/Chat.jsx:45 | `trim()`: the leading, then the trailing white space dropped (its properties are the lemmas below) |
| JsString.TrimStartSpec | src/components/Chat.jsx:45 | the leading characters dropped are all white space, and the result does not start with white space |
| JsString.TrimEndSpec | src/components/Chat.jsx:45 | the trailing characters dropped are all white space, and the result does not end with white space |
| JsString.TrimIsInfix | src/components/Chat.jsx:45 | `trim()` is a part of the text: a prefix of the suffix after the leading white space |
| JsString.TrimSpec | src/components/Chat.jsx:45 | `trim()` neither starts nor ends with white space; it is empty exactly when the text is all white space |
| ChatApi.Expand | src/api/chatApi.js:5-10 | the history gives two messages per pair |
| ChatApi.ExpandAt | src/api/chatApi.js:6-9 | message 2i is the i-th query (user) and message 2i+1 the i-th answer (assistant) |
| ChatApi.FetchHistory | src/api/chatApi.js:3-11 | rejects exactly when the request is rejected; otherwise returns the pairs in server order, user then assistant, length twice the history |
| ChatApi.SegmentCalls | src/api/chatApi.js:38-46 | one segment makes one call with its parsed text when it starts with `data: ` and the payload parses to a non-empty text, and none otherwise |
| ChatApi.Dispatched | src/api/chatApi.js:37-48 | the calls of the segments, in segment order |
| ChatApi.DispatchedCalls | src/api/chatApi.js:37-48 | every `onChunk` call carries a non-empty text, and each segment makes at most one call |
| ChatApi.DispatchedAppend | src/api/chatApi.js:37-48 | the segments are processed independently and in order: the calls of a concatenation are the calls of each part |
| ChatApi.UnparsableSegmentIsSkipped | src/api/chatApi.js:39-46 | a segment whose payload fails to parse or has no text is skipped, and the segments after it are still processed |
| ChatApi.ScanChunk | src/api/chatApi.js:36-48 | the loop over the segments of the new text makes exactly the calls `ChunkCalls` specifies |
| ChatApi.StreamScanner.constructor | src/api/chatApi.js:21 | the cursor starts at 0 |
| ChatApi.StreamScanner.OnDownloadProgress | src/api/chatApi.js:32-49 | scans exactly the text past the old cursor, then moves the cursor to the response length |
| ChatApi.StreamChatResponse | src/api/chatApi.js:20-51 | a whole response makes the calls `Streamed` specifies for its progress events; the texts its events scan, put together, are `Scanned`, and while the response text grows they are the final text, each character scanned once |
| ChatApi.Streamed | src/api/chatApi.js:20-51 | every call of a response: for each event in turn, the calls of the text past the cursor of the event before |
| ChatApi.CursorMonotone | src/api/chatApi.js:34-35 | while the response text grows, the cursor never moves back |
| ChatApi.ScannedOnce | src/api/chatApi.js:34-35 | while the text grows, the texts the events scan, put together, are the final text: each character is scanned once |
| ChatApi.ReplayIsSilent | src/api/chatApi.js:34-36 | an event that sees no new text makes no call |
| ChatApi.SplitTerminated | src/api/chatApi.js:36 | one line followed by the delimiter splits into that line and an empty tail |
| ChatApi.TerminatedCalls | src/api/chatApi.js:36-43 | one line followed by the delimiter makes the calls of that line |
| ChatApi.SplitFrame | src/api/chatApi.js:36 | a `data: ` frame splits into its prefixed payload and an empty tail |
| ChatApi.FrameCalls | src/api/chatApi.js:36-43 | a whole frame makes one call with its payload's text when that text is non-empty, and none otherwise |
| ChatApi.TwoFrameStream | src/api/chatApi.js:32-48 | two frames arriving in two events make two calls, with their texts in order |
| ChatApi.FrameHeadCallsNothing | src/api/chatApi.js:34-38 | a frame cut inside its `data: ` prefix: the head, scanned alone, makes no call |
| ChatApi.FrameTailCallsNothing | src/api/chatApi.js:34-38 | a frame cut inside its `data: ` prefix: the rest, scanned alone, makes no call, since it lacks the prefix |
| ChatApi.FrameSplitAcrossEventsIsDropped | src/api/chatApi.js:32-48 | a frame delivered whole makes its call; the same frame cut by an event boundary anywhere inside its `data: ` prefix makes none, whatever its payload parses to |
| BufferedStream.PendingAfter | src/api/chatApi.js:32-48 | the open segment the buffering scanner keeps after a sequence of events |
| BufferedStream.BufferedStreamed | src/api/chatApi.js:32-48 | every call of the buffering scanner: for each event, the closed segments of the kept segment followed by the new text |
| BufferedStream.BufferedScanner.constructor | src/api/chatApi.js:21 | the cursor starts at 0, with nothing kept |
| BufferedStream.BufferedScanner.OnDownloadProgress | src/api/chatApi.js:32-49 | scans the kept segment followed by the new text, dispatches only the segments a delimiter closes, and keeps the last segment |
| BufferedStream.ScanClosed | src/api/chatApi.js:37-48 | the dispatch loop over every part but the last makes exactly their calls |
| BufferedStream.BufferedStreamChatResponse | src/api/chatApi.js:20-51 | a whole response through the buffering scanner makes the calls `BufferedStreamed` specifies |
| BufferedStream.ExtendOpen | src/api/chatApi.js:36 | growing a text re-splits only its open last part; the closed parts keep their calls |
| BufferedStream.BufferedMatchesWholeText | src/api/chatApi.js:32-48 | however the growing text is cut into events, the buffering scanner calls for every complete frame of the final text, once and in order, and keeps the open rest |
| BufferedStream.ClosedCallsAll | src/api/chatApi.js:37-48 | when the last part is empty, the closed parts make all of a split's calls |
| BufferedStream.AlignedEventsAgree | src/api/chatApi.js:32-48 | when every event ends on a frame boundary, the scanner as written and the buffering scanner make the same calls |
| BufferedStream.BufferedDeliversSplitFrame | src/api/chatApi.js:32-48 | a frame cut by an event boundary at any position is delivered by the buffering scanner, as when it arrives whole |
| ChatView.GetOrCreateSessionId | src/components/Chat.jsx:15-19 | a stored, non-empty id is reused; otherwise the fresh id is taken |
| ChatView.SessionIdSurvivesReload | src/components/Chat.jsx:15-19 | after the id is stored, the next startup reuses it and ignores its own fresh id |
| ChatView.ExtendLast | src/components/Chat.jsx:61-66 | an empty list, or one not ending with an assistant message, is unchanged; otherwise only the last message changes, its text extended by the chunk |
| ChatView.ApplyChunksAccumulates | src/components/Chat.jsx:60-67 | chunks delivered to a list ending with an assistant message extend that message by all chunks in order; to any other list they do nothing |
| ChatView.PlaceholderCollectsChunks | src/components/Chat.jsx:54-67 | chunks a, b, c delivered to the empty placeholder leave its text a + b + c |
| ChatView.IsBubbleShown | src/components/Chat.jsx:123-125 | a message is drawn unless it is from the assistant and its text is empty or blank after `trim()` |
| ChatView.ShowLoader | src/components/Chat.jsx:144 | the loader is drawn while loading when the last message is from the assistant with an empty text |
| ChatView.BubbleRule | src/components/Chat.jsx:123-125 | a user message always gets a bubble; an assistant message gets one exactly when its text holds a character that is not white space |
| ChatView.LoaderReplacesPlaceholder | src/components/Chat.jsx:123-146 | when the loader shows, the placeholder it stands for gets no bubble |
| ChatView.BlankReplyShowsNothing | src/components/Chat.jsx:123-146 | a last assistant message of white space only gets neither a bubble nor the loader |
| ChatView.Chat.constructor | src/components/Chat.jsx:8-11 | the initial state: empty id, no messages, empty input, not loading |
| ChatView.Chat.Startup | src/components/Chat.jsx:14-35 | gets or creates the id, storing a new one; the messages are the expanded history, or empty on failure; loading ends off |
| ChatView.Chat.SetInput | src/components/Chat.jsx:155 | the input becomes the typed value |
| ChatView.Chat.CanSend | src/components/Chat.jsx:45 | the send guard: the trimmed input is non-empty and no reply is pending |
| ChatView.Chat.BeginSend | src/components/Chat.jsx:44-54 | blank input or a pending reply sends nothing and changes nothing; otherwise appends the user's message and an empty placeholder, clears the input, starts loading (the loader then shows) |
| ChatView.Chat.OnChunk | src/components/Chat.jsx:60-67 | the messages go through the extend-last updater |
| ChatView.Chat.Settle | src/components/Chat.jsx:70-75 | on failure exactly one fallback message is appended; loading stops either way |
| ChatView.Chat.SendMessage | src/components/Chat.jsx:43-76 | guarded send: either nothing changes, or the conversation gains the user's message and an assistant message holding all chunks in order, then the fallback on failure; the input is cleared and loading has stopped |
| ChatView.Chat.FinishSend | src/components/Chat.jsx:56-75 | the placeholder ends up holding all chunks in order, the fallback follows on failure, loading stops |
| ChatView.Chat.DeliverChunks | src/components/Chat.jsx:57-69 | the `onChunk` calls of one response, in order, each through the updater |
| ChatView.Chat.Reset | src/components/Chat.jsx:78-88 | when the delete succeeds the list is cleared and the fresh id is stored and used; when it fails nothing changes |
| Loader.SelectHints | src/components/Loader.jsx:5-11 | a given non-empty list is used as it is; a missing or empty one gives the four defaults; the result is never empty |
| Loader.NextHint | src/components/Loader.jsx:16 | the next index is in bounds: one more, or 0 after the last hint |
| Loader.AfterTicksIsModular | src/components/Loader.jsx:16 | after any number of ticks the index is the start plus the ticks, modulo the list length |
| Loader.FullCycleReturns | src/components/Loader.jsx:16 | after as many ticks as there are hints, the same hint shows again |
| Loader.HintRotator.constructor | src/components/Loader.jsx:11-12 | the selected list, and the index starting at 0 |
| Loader.HintRotator.Tick | src/components/Loader.jsx:15-17 | the index steps modulo the list length and stays in bounds |
| Loader.HintRotator.DisplayedHint | src/components/Loader.jsx:36 | the rendered hint is always one of the selected hints (the index is in bounds) |

## Left out

- HTTP transport is left out. This covers axios, the base URL from the
  build environment, request bodies and headers, and `resetSession`
  (src/api/chatApi.js:14-17). Each call is replaced by its outcome.
- A history payload without a `history` array is not modelled. The code
  would throw, which the caller treats like a rejection; the model takes
  the history as a well-formed list.
- `JSON.parse` is not modelled. It is the `parse` parameter, and its
  outcome is reduced to failure / no text / text.
- A truthy `text` that is not a string is not modelled.
- `console.error` logging is left out.
- `localStorage` and `uuidv4` are not modelled. They are a
  `SessionStorage` cell and a `freshId` parameter.
- No claim is made that a reset yields an id different from the old one,
  because nothing checks the generated UUID.
- React rendering, markup, styles, `scrollTo` and the `disabled`
  attributes are left out. While loading the input field is disabled, so
  `SetInput` does not fire then; the model does not restrict it.
- React is treated as applying each update in order. The model ignores
  batching, concurrent renders and async interleaving: a second send
  during a pending one, or a reset during a stream.
- ChatView.Chat.SendMessage takes the `onChunk` calls the request produced
  as a parameter. It is linked to `ChatApi.StreamChatResponse` by its
  documentation, not by a contract over the progress events.
- The `setInterval` timer, its 2600 ms period and its cleanup are left
  out. One tick is `HintRotator.Tick`.
- Loader.HintRotator: the hint list is fixed at mount. The source
  re-selects it on each render, and a `hints` prop that shrinks while
  mounted can leave `hintIndex` past the end; the model does not cover
  that.
- BufferedStream.BufferedScanner never dispatches a final segment that no
  delimiter closes. The server ends each frame with one, and the
  correction is about frames cut by event boundaries.

## Findings

| source | as written | input that shows it | evidently intended | confidence | as-written member | corrected member |
|---|---|---|---|---|---|---|
| src/api/chatApi.js:34-38 | each progress event splits only the text past the cursor, and the cursor moves to the end even when that text ends inside a frame, so the halves of a frame cut by an event boundary are scanned apart | two events seeing `"da"` and then `"data: P\n\n"`, where `P` parses to a non-empty text: no call is made, while one event seeing the whole frame makes the call | keep the unterminated rest of each event and put it in front of the next event's text, so every complete frame is dispatched once, whatever the event boundaries | not executed | ChatApi.FrameSplitAcrossEventsIsDropped | BufferedStream.BufferedMatchesWholeText |
