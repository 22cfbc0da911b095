/**
 * The conversation view: the state the `Chat` component holds (session id,
 * messages, input, loading flag), its handlers as methods, the message-list
 * updaters it hands to `setMessages` as functions, and the two render rules.
 *
 * The persisted session id lives in `SessionStorage`, a single cell for the
 * one key the component uses; a freshly generated id and the outcomes of the
 * HTTP calls are parameters.
 */
module ChatView {
  import opened Wrappers
  import opened JsString
  import opened ChatApi

  /** The fixed text appended when the chat request fails, as the file spells it (a mis-encoded dash). */
  const FallbackText: string := "Sorry \U{00E2}\U{20AC}\U{201D} something went wrong."

  function LastText(messages: seq<Message>): string
    requires messages != []
  {
    messages[|messages| - 1].text
  }

  predicate LastIsAssistant(messages: seq<Message>) {
    messages != [] && messages[|messages| - 1].role == Assistant
  }

  // ---------------------------------------------------------------------
  // The session id

  /** The browser's persisted storage, reduced to the one key the chat uses; `None` is a missing key. */
  class SessionStorage {
    var chatSessionId: Option<string>

    constructor (initial: Option<string>)
      ensures chatSessionId == initial
    {
      chatSessionId := initial;
    }
  }

  /** A stored id that is missing or empty (falsy) is not used. */
  predicate Usable(stored: Option<string>) {
    stored.Some? && stored.value != ""
  }

  /** The id the startup effect settles on: the stored one when usable, else the fresh one. */
  function GetOrCreateSessionId(stored: Option<string>, freshId: string): (id: string)
    ensures Usable(stored) ==> id == stored.value
    ensures !Usable(stored) ==> id == freshId
  {
    if Usable(stored) then stored.value else freshId
  }

  /**
   * The id survives a reload: once stored, the next startup reuses it and
   * ignores the id it would have generated, provided the generated id was
   * not empty (a version-4 UUID never is).
   */
  lemma SessionIdSurvivesReload(stored: Option<string>, freshId: string, laterFreshId: string)
    requires freshId != ""
    ensures GetOrCreateSessionId(Some(GetOrCreateSessionId(stored, freshId)), laterFreshId)
      == GetOrCreateSessionId(stored, freshId)
  {
  }

  // ---------------------------------------------------------------------
  // The message-list updaters

  /**
   * The `onChunk` updater: an empty list, or one whose last message is not
   * from the assistant, is returned as it is; otherwise a copy whose last
   * message has the chunk appended to its text, all others unchanged.
   */
  function ExtendLast(prev: seq<Message>, chunk: string): (r: seq<Message>)
    ensures |r| == |prev|
    ensures !LastIsAssistant(prev) ==> r == prev
    ensures LastIsAssistant(prev) ==>
      r[..|r| - 1] == prev[..|prev| - 1] && r[|r| - 1] == Message(Assistant, LastText(prev) + chunk)
  {
    if |prev| == 0 then prev
    else
      var lastMessage := prev[|prev| - 1];
      if lastMessage.role != Assistant then prev
      else prev[..|prev| - 1] + [lastMessage.(text := lastMessage.text + chunk)]
  }

  /** The chunks of one response concatenated, in delivery order. */
  function Concat(chunks: seq<string>): string {
    if chunks == [] then "" else Concat(chunks[..|chunks| - 1]) + chunks[|chunks| - 1]
  }

  /** The list after the updater ran once for each chunk, in order. */
  function ApplyChunks(prev: seq<Message>, chunks: seq<string>): seq<Message> {
    if chunks == [] then prev else ExtendLast(ApplyChunks(prev, chunks[..|chunks| - 1]), chunks[|chunks| - 1])
  }

  /**
   * Chunks delivered to a list that ends with an assistant message extend
   * that message's text by all chunks in order and touch nothing else; to any
   * other list they change nothing.
   */
  lemma {:induction false} ApplyChunksAccumulates(prev: seq<Message>, chunks: seq<string>)
    ensures LastIsAssistant(prev) ==>
      ApplyChunks(prev, chunks) == prev[..|prev| - 1] + [Message(Assistant, LastText(prev) + Concat(chunks))]
    ensures !LastIsAssistant(prev) ==> ApplyChunks(prev, chunks) == prev
  {
    if chunks == [] {
      if LastIsAssistant(prev) {
        assert prev == prev[..|prev| - 1] + [prev[|prev| - 1]];
        assert LastText(prev) + Concat(chunks) == LastText(prev);
      }
    } else {
      var init := chunks[..|chunks| - 1];
      ApplyChunksAccumulates(prev, init);
      if LastIsAssistant(prev) {
        var mid := ApplyChunks(prev, init);
        assert LastIsAssistant(mid);
        assert mid[..|mid| - 1] == prev[..|prev| - 1];
        assert LastText(prev) + Concat(init) + chunks[|chunks| - 1] == LastText(prev) + Concat(chunks);
      }
    }
  }

  /** Chunks a, b, c delivered to the empty placeholder leave its text a + b + c. */
  lemma PlaceholderCollectsChunks(prev: seq<Message>, a: string, b: string, c: string)
    ensures ApplyChunks(prev + [Message(Assistant, "")], [a, b, c]) == prev + [Message(Assistant, a + b + c)]
  {
    var withPlaceholder := prev + [Message(Assistant, "")];
    ApplyChunksAccumulates(withPlaceholder, [a, b, c]);
    assert withPlaceholder[..|withPlaceholder| - 1] == prev;
    assert [a, b, c][..2] == [a, b];
    assert [a, b][..1] == [a];
    assert [a][..0] == [];
    assert Concat([a]) == a by { assert "" + a == a; }
    assert Concat([a, b, c]) == a + b + c;
    assert "" + (a + b + c) == a + b + c;
  }

  // ---------------------------------------------------------------------
  // The render rules

  /** Whether a message gets a bubble: an assistant message with an empty or blank text does not. */
  predicate IsBubbleShown(m: Message) {
    !(m.role == Assistant && (m.text == "" || Trim(m.text) == ""))
  }

  /** Whether the loader shows: while loading, and the last message is an assistant message with an empty text. */
  predicate ShowLoader(isLoading: bool, messages: seq<Message>) {
    isLoading && LastIsAssistant(messages) && LastText(messages) == ""
  }

  /** A user message always gets a bubble; an assistant message exactly when its text holds a character other than white space. */
  lemma BubbleRule(m: Message)
    ensures m.role == User ==> IsBubbleShown(m)
    ensures m.role == Assistant ==> (IsBubbleShown(m) <==> exists k :: 0 <= k < |m.text| && !IsWhiteSpace(m.text[k]))
  {
    TrimSpec(m.text);
  }

  /** When the loader shows, the placeholder it stands for gets no bubble. */
  lemma LoaderReplacesPlaceholder(isLoading: bool, messages: seq<Message>)
    requires ShowLoader(isLoading, messages)
    ensures !IsBubbleShown(messages[|messages| - 1])
  {
  }

  /** A last assistant message of white space only gets neither a bubble nor the loader. */
  lemma BlankReplyShowsNothing(isLoading: bool, messages: seq<Message>)
    requires LastIsAssistant(messages) && LastText(messages) != "" && AllWhiteSpace(LastText(messages))
    ensures !IsBubbleShown(messages[|messages| - 1])
    ensures !ShowLoader(isLoading, messages)
  {
    TrimSpec(LastText(messages));
  }

  // ---------------------------------------------------------------------
  // The component state

  class Chat {
    var sessionId: string
    var messages: seq<Message>
    var input: string
    var isLoading: bool

    /** While a reply is awaited, a non-empty list ends with the assistant message the chunks extend. */
    predicate Valid()
      reads this
    {
      isLoading && messages != [] ==> LastIsAssistant(messages)
    }

    /** The initial state of the `useState` hooks. */
    constructor ()
      ensures Valid()
      ensures sessionId == "" && messages == [] && input == "" && !isLoading
    {
      sessionId := "";
      messages := [];
      input := "";
      isLoading := false;
    }

    /**
     * The startup effect: get or create the session id (a new one is stored),
     * then load the history; on failure the list is empty. Loading is off
     * afterwards either way.
     */
    method Startup(storage: SessionStorage, freshId: string, history: Response<seq<HistoryEntry>>)
      modifies this, storage
      ensures Valid()
      ensures sessionId == GetOrCreateSessionId(old(storage.chatSessionId), freshId)
      ensures storage.chatSessionId == if Usable(old(storage.chatSessionId)) then old(storage.chatSessionId) else Some(freshId)
      ensures history.Ok? ==> messages == Expand(history.body)
      ensures history.TransportError? ==> messages == []
      ensures !isLoading && input == old(input)
    {
      var currentSessionId := storage.chatSessionId;
      var id: string;
      if !Usable(currentSessionId) {
        id := freshId;
        storage.chatSessionId := Some(id);
      } else {
        id := currentSessionId.value;
      }
      sessionId := id;
      isLoading := true;
      var loaded := FetchHistory(history);
      match loaded {
        case Ok(historyMessages) => messages := historyMessages;
        case TransportError => messages := [];
      }
      isLoading := false;
    }

    /** The input field's `onChange`. */
    method SetInput(value: string)
      modifies this`input
      ensures input == value
    {
      input := value;
    }

    /** The send guard: nothing is sent for blank input or while a reply is awaited. */
    predicate CanSend()
      reads this
    {
      Trim(input) != "" && !isLoading
    }

    /**
     * The first half of `handleSendMessage`: when the guard passes, append
     * the user's message (the input as typed) and an empty assistant
     * placeholder, clear the input and start loading; returns the query sent.
     */
    method BeginSend() returns (query: Option<string>)
      requires Valid()
      modifies this
      ensures Valid()
      ensures !old(CanSend()) ==> query == None
      ensures query == None ==> unchanged(this)
      ensures old(CanSend()) ==>
        query == Some(old(input)) &&
        messages == old(messages) + [Message(User, old(input)), Message(Assistant, "")] &&
        input == "" && isLoading && sessionId == old(sessionId)
      ensures old(CanSend()) ==> ShowLoader(isLoading, messages)
    {
      if Trim(input) == "" || isLoading {
        return None;
      }
      var userMessage := Message(User, input);
      var currentInput := input;
      messages := messages + [userMessage];
      input := "";
      isLoading := true;
      messages := messages + [Message(Assistant, "")];
      query := Some(currentInput);
    }

    /** One `onChunk` call: the list goes through the extend-last updater. */
    method OnChunk(chunk: string)
      requires Valid()
      modifies this`messages
      ensures Valid()
      ensures messages == ExtendLast(old(messages), chunk)
    {
      messages := ExtendLast(messages, chunk);
    }

    /** The end of `handleSendMessage`: on failure one fallback message is appended; loading stops either way. */
    method Settle(streamFailed: bool)
      modifies this`messages, this`isLoading
      ensures Valid()
      ensures messages == old(messages) + if streamFailed then [Message(Assistant, FallbackText)] else []
      ensures !isLoading
    {
      if streamFailed {
        messages := messages + [Message(Assistant, FallbackText)];
      }
      isLoading := false;
    }

    /**
     * `handleSendMessage` over a whole response: `chunks` are the `onChunk`
     * calls the stream client made before the request settled (those of
     * `ChatApi.StreamChatResponse`), and `streamFailed` tells whether it was
     * rejected. The placeholder ends up holding every chunk in order, and the
     * fallback, on failure, follows it as a message of its own.
     */
    method SendMessage(chunks: seq<string>, streamFailed: bool) returns (query: Option<string>)
      requires Valid()
      modifies this
      ensures Valid()
      ensures !old(CanSend()) ==> query == None
      ensures query == None ==> unchanged(this)
      ensures old(CanSend()) ==>
        query == Some(old(input)) &&
        messages == old(messages) + [Message(User, old(input)), Message(Assistant, Concat(chunks))]
          + (if streamFailed then [Message(Assistant, FallbackText)] else []) &&
        input == "" && !isLoading && sessionId == old(sessionId)
    {
      ghost var before, typed := messages, input;
      query := BeginSend();
      if query != None {
        ghost var sent := messages;
        assert sent[..|sent| - 1] == before + [Message(User, typed)];
        FinishSend(chunks, streamFailed);
        assert before + [Message(User, typed)] + [Message(Assistant, Concat(chunks))]
          == before + [Message(User, typed), Message(Assistant, Concat(chunks))];
      }
    }

    /**
     * The rest of `handleSendMessage` once the placeholder is in place: the
     * chunks extend it, the fallback follows on failure, loading stops.
     */
    method FinishSend(chunks: seq<string>, streamFailed: bool)
      requires Valid() && isLoading && messages != [] && LastText(messages) == ""
      modifies this`messages, this`isLoading
      ensures Valid()
      ensures messages == old(messages)[..|old(messages)| - 1] + [Message(Assistant, Concat(chunks))]
        + (if streamFailed then [Message(Assistant, FallbackText)] else [])
      ensures !isLoading
    {
      ghost var sent := messages;
      DeliverChunks(chunks);
      assert messages == sent[..|sent| - 1] + [Message(Assistant, Concat(chunks))] by {
        ApplyChunksAccumulates(sent, chunks);
        assert "" + Concat(chunks) == Concat(chunks);
      }
      Settle(streamFailed);
    }

    /** The `onChunk` calls of one response, in order, each through the extend-last updater. */
    method DeliverChunks(chunks: seq<string>)
      requires Valid()
      modifies this`messages
      ensures Valid()
      ensures messages == ApplyChunks(old(messages), chunks)
    {
      for i := 0 to |chunks|
        invariant Valid()
        invariant messages == ApplyChunks(old(messages), chunks[..i])
      {
        assert chunks[..i + 1][..i] == chunks[..i];
        OnChunk(chunks[i]);
      }
      assert chunks[..|chunks|] == chunks;
    }

    /**
     * `handleReset`: when the server-side delete succeeds the list is
     * cleared and a new id is stored and used; when it fails nothing changes.
     */
    method Reset(storage: SessionStorage, deleteSucceeded: bool, freshId: string)
      requires Valid()
      modifies this, storage
      ensures Valid()
      ensures deleteSucceeded ==>
        messages == [] && sessionId == freshId && storage.chatSessionId == Some(freshId) &&
        input == old(input) && isLoading == old(isLoading)
      ensures !deleteSucceeded ==> unchanged(this) && unchanged(storage)
    {
      if deleteSucceeded {
        messages := [];
        var newId := freshId;
        storage.chatSessionId := Some(newId);
        sessionId := newId;
      }
    }
  }
}
