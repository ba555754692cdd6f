/**
 * The chat proxy endpoint: it sanitises the conversation, chooses the provider
 * model, forwards the conversation behind a system prompt, relays the streamed
 * reply, and afterwards appends to or creates the stored conversation.
 */
module ChatRoute {
  import opened Wrappers
  import opened JsString
  import opened Messages
  import opened EventStream
  import opened ChatStore

  // ---------------------------------------------------------------------------
  // Message sanitiser

  const AllowedRoles := [UserRole, AssistantRole, SystemRole]

  /** The content test of the filter: a string must not be `""`, an array must not be empty; any other value passes. */
  predicate NonEmptyContent(c: Content) {
    match c
    case Text(s) => s != ""
    case Parts(ps) => |ps| > 0
    case NonText => true
  }

  /** Whether the sanitiser keeps a turn. */
  predicate Kept(m: Message) {
    NonEmptyContent(m.content) && m.role.Some? && m.role.value in AllowedRoles
  }

  /**
   * `messages.map(m => ({role, content})).filter(...)`: the turns with an allowed role and
   * non-empty content, in their original order. Every kept turn passes the filter.
   */
  function Sanitize(ms: seq<Message>): (r: seq<Message>)
    ensures forall i :: 0 <= i < |r| ==> Kept(r[i])
  {
    if ms == [] then [] else Keep(ms[0]) + Sanitize(ms[1..])
  }

  /** The filter applied to one turn. */
  function Keep(m: Message): seq<Message> {
    if Kept(m) then [m] else []
  }

  /** A turn is in the sanitised list exactly when it is an input turn that passes the filter. */
  lemma {:induction false} SanitizeMembers(ms: seq<Message>)
    ensures forall m :: m in Sanitize(ms) <==> m in ms && Kept(m)
  {
    if ms != [] {
      SanitizeMembers(ms[1..]);
      assert ms == [ms[0]] + ms[1..];
    }
  }

  /** Sanitising distributes over concatenation: each turn is judged on its own and keeps its place. */
  lemma {:induction false} SanitizeAppend(a: seq<Message>, b: seq<Message>)
    ensures Sanitize(a + b) == Sanitize(a) + Sanitize(b)
  {
    if a == [] {
      assert a + b == b;
    } else {
      calc {
        Sanitize(a + b);
      == { assert (a + b)[0] == a[0] && (a + b)[1..] == a[1..] + b; }
        Keep(a[0]) + Sanitize(a[1..] + b);
      == { SanitizeAppend(a[1..], b); }
        Keep(a[0]) + (Sanitize(a[1..]) + Sanitize(b));
      ==
        (Keep(a[0]) + Sanitize(a[1..])) + Sanitize(b);
      }
    }
  }

  /** `xs` is obtained from `ys` by deleting elements, keeping the order of the rest. */
  predicate Subsequence<T(==)>(xs: seq<T>, ys: seq<T>)
    decreases |ys|
  {
    xs == [] || (ys != [] && ((xs[0] == ys[0] && Subsequence(xs[1..], ys[1..])) || Subsequence(xs, ys[1..])))
  }

  /** The sanitised list is the input with turns deleted: the kept turns stay in their order. */
  lemma {:induction false} SanitizeIsSubsequence(ms: seq<Message>)
    ensures Subsequence(Sanitize(ms), ms)
  {
    if ms != [] {
      SanitizeIsSubsequence(ms[1..]);
      var r := Sanitize(ms);
      if Kept(ms[0]) {
        assert r[0] == ms[0] && r[1..] == Sanitize(ms[1..]);
      } else {
        assert r == Sanitize(ms[1..]);
      }
    }
  }

  /** Sanitising is idempotent: a sanitised list passes through the filter unchanged. */
  lemma {:induction false} SanitizeIdempotent(ms: seq<Message>)
    ensures Sanitize(Sanitize(ms)) == Sanitize(ms)
  {
    if ms != [] {
      SanitizeIdempotent(ms[1..]);
      SanitizeAppend(Keep(ms[0]), Sanitize(ms[1..]));
    }
  }

  /** The sanitiser returns its input unchanged exactly when every turn passes the filter. */
  lemma {:induction false} SanitizeUnchangedIff(ms: seq<Message>)
    ensures Sanitize(ms) == ms <==> forall i :: 0 <= i < |ms| ==> Kept(ms[i])
  {
    if ms != [] {
      SanitizeUnchangedIff(ms[1..]);
      if !Kept(ms[0]) {
        SanitizeShorter(ms[1..]);
      }
    }
  }

  /** The sanitised list is never longer than its input. */
  lemma {:induction false} SanitizeShorter(ms: seq<Message>)
    ensures |Sanitize(ms)| <= |ms|
  {
    if ms != [] {
      SanitizeShorter(ms[1..]);
    }
  }

  // ---------------------------------------------------------------------------
  // Model selector

  const VisionModel := "meta-llama/llama-4-maverick-17b-128e-instruct"
  const TextModel := "llama-3.3-70b-versatile"

  /** `messages.some(m => Array.isArray(m.content))`. */
  function HasArrayContent(ms: seq<Message>): (b: bool)
    ensures b <==> exists i :: 0 <= i < |ms| && ms[i].content.Parts?
  {
    if ms == [] then false
    else ms[0].content.Parts? || HasArrayContent(ms[1..])
  }

  /** The vision model exactly when some turn has array content, the text model otherwise. */
  function SelectModel(ms: seq<Message>): (model: string)
    ensures model == VisionModel <==> exists i :: 0 <= i < |ms| && ms[i].content.Parts?
    ensures model == TextModel <==> forall i :: 0 <= i < |ms| ==> !ms[i].content.Parts?
  {
    assert |VisionModel| != |TextModel|;
    if HasArrayContent(ms) then VisionModel else TextModel
  }

  // ---------------------------------------------------------------------------
  // Upstream request

  /** The persona prompt; its wording is not modelled, only that it goes first. */
  const PersonaPrompt := "You are AxiomAssist, a custom AI model developed and trained by Mustafa."
  const SystemMessage := Message(Some(SystemRole), Text(PersonaPrompt))

  /** `[systemMessage, ...sanitizedMessages]`. */
  function FinalMessages(sanitized: seq<Message>): (r: seq<Message>)
    ensures |r| == |sanitized| + 1 && r[0] == SystemMessage && r[1..] == sanitized
  {
    [SystemMessage] + sanitized
  }

  const MaxTokens := 1024
  const Temperature := 0.7

  /** The body of the completion request sent to the provider. */
  datatype UpstreamRequest = UpstreamRequest(model: string, messages: seq<Message>, stream: bool, maxTokens: nat, temperature: real)

  // ---------------------------------------------------------------------------
  // Title derivation

  const TitleLength := 50
  const DefaultTitle := "New Chat"
  const TextKind := "text"

  /** `parts.find(p => p.type === 'text')`. */
  function FindTextPart(ps: seq<Part>): (r: Option<Part>)
    ensures r.Some? ==> r.value in ps && r.value.kind == Some(TextKind)
    ensures r.None? <==> forall i :: 0 <= i < |ps| ==> ps[i].kind != Some(TextKind)
  {
    if ps == [] then None
    else if ps[0].kind == Some(TextKind) then Some(ps[0])
    else FindTextPart(ps[1..])
  }

  /** `find` returns the earliest text part: every part before it has another type. */
  lemma {:induction false} FindTextPartIsFirst(ps: seq<Part>)
    requires FindTextPart(ps).Some?
    ensures exists i :: 0 <= i < |ps| && ps[i] == FindTextPart(ps).value
                        && forall j :: 0 <= j < i ==> ps[j].kind != Some(TextKind)
  {
    if ps[0].kind == Some(TextKind) {
      assert ps[0] == FindTextPart(ps).value;
    } else {
      FindTextPartIsFirst(ps[1..]);
      var i :| 0 <= i < |ps[1..]| && ps[1..][i] == FindTextPart(ps[1..]).value
               && forall j :: 0 <= j < i ==> ps[1..][j].kind != Some(TextKind);
      assert ps[i + 1] == ps[1..][i];
      assert forall j :: 1 <= j < i + 1 ==> ps[j] == ps[1..][j - 1];
    }
  }

  /**
   * The title of a new conversation, from the first `user` turn: the first 50
   * characters of string content, or of the text of the first `text` part of array
   * content; "New Chat" when there is no user turn or nothing to take it from.
   * `None` when the text part's `text` is not a string: `substring` then throws.
   */
  function ChatTitle(ms: seq<Message>): (title: Option<string>)
    ensures title.Some? ==> |title.value| <= TitleLength
    ensures FindRole(ms, UserRole).None? ==> title == Some(DefaultTitle)
  {
    match FindRole(ms, UserRole)
    case None => Some(DefaultTitle)
    case Some(m) =>
      match m.content
      case Text(s) => Some(Prefix(s, TitleLength))
      case Parts(ps) =>
        (match FindTextPart(ps)
         case None => Some(DefaultTitle)
         case Some(p) => if p.text.Some? then Some(Prefix(p.text.value, TitleLength)) else None)
      case NonText => Some(DefaultTitle)
  }

  /**
   * What the title is taken from: the first user turn's string content, or the text of
   * its first text part. `None` when the title falls back to "New Chat".
   */
  function TitleSource(ms: seq<Message>): Option<Option<string>> {
    match FindRole(ms, UserRole)
    case None => None
    case Some(m) =>
      match m.content
      case Text(s) => Some(Some(s))
      case Parts(ps) => if FindTextPart(ps).Some? then Some(FindTextPart(ps).value.text) else None
      case NonText => None
  }

  /**
   * The title is a prefix of its source, 50 characters long unless the source is
   * shorter, in which case it is the whole source; without a source it is "New Chat".
   */
  lemma ChatTitleFromSource(ms: seq<Message>)
    ensures TitleSource(ms).None? ==> ChatTitle(ms) == Some(DefaultTitle)
    ensures TitleSource(ms) == Some(None) ==> ChatTitle(ms).None?
    ensures TitleSource(ms).Some? && TitleSource(ms).value.Some? ==>
              var text := TitleSource(ms).value.value;
              ChatTitle(ms).Some? && ChatTitle(ms).value <= text
              && (|text| <= TitleLength ==> ChatTitle(ms).value == text)
              && (|text| > TitleLength ==> |ChatTitle(ms).value| == TitleLength)
  {
  }

  /** The prepended system prompt never becomes the title: the search for a user turn skips it. */
  lemma ChatTitleIgnoresSystemPrompt(sanitized: seq<Message>)
    ensures ChatTitle(FinalMessages(sanitized)) == ChatTitle(sanitized)
  {
    FindRoleSkips([SystemMessage], sanitized, UserRole);
  }

  // ---------------------------------------------------------------------------
  // Persistence decision

  /** The store call made once the stream has ended. */
  datatype ChatWrite =
    | NoWrite
    | Append(chatId: string, added: seq<Message>)
    | CreateChat(userId: string, title: string, messages: seq<Message>)

  function AssistantMessage(fullText: string): Message {
    Message(Some(AssistantRole), Text(fullText))
  }

  /**
   * The `finally` block's decision. Without a `userId` nothing is written. The title is
   * derived first, so a failing derivation (caught and logged) writes nothing. With a
   * `chatId` the last sanitised turn and the assistant reply are pushed; with no
   * sanitised turn `userMsg.role` throws and nothing is written. Otherwise a record is
   * created from every sanitised turn followed by the reply.
   */
  function PersistPlan(userId: Option<string>, chatId: Option<string>, sanitized: seq<Message>, fullText: string): (w: ChatWrite)
    ensures !Truthy(userId) ==> w == NoWrite
    ensures w.Append? ==> Truthy(userId) && Truthy(chatId) && w.chatId == chatId.value && sanitized != []
                          && w.added == [sanitized[|sanitized| - 1], AssistantMessage(fullText)]
    ensures w.CreateChat? ==> Truthy(userId) && !Truthy(chatId) && w.userId == userId.value
                              && w.messages == sanitized + [AssistantMessage(fullText)]
                              && |w.title| <= TitleLength
    ensures Truthy(userId) && ChatTitle(FinalMessages(sanitized)).None? ==> w == NoWrite
  {
    if !Truthy(userId) then NoWrite
    else
      match ChatTitle(FinalMessages(sanitized))
      case None => NoWrite
      case Some(title) =>
        if Truthy(chatId) then
          if sanitized == [] then NoWrite
          else Append(chatId.value, [sanitized[|sanitized| - 1], AssistantMessage(fullText)])
        else CreateChat(userId.value, title, sanitized + [AssistantMessage(fullText)])
  }

  /** Conversely, with a `userId` and a derivable title, a write always happens, of the kind `chatId` selects. */
  lemma PersistPlanWrites(userId: Option<string>, chatId: Option<string>, sanitized: seq<Message>, fullText: string)
    requires Truthy(userId) && ChatTitle(sanitized).Some?
    ensures Truthy(chatId) && sanitized != [] ==> PersistPlan(userId, chatId, sanitized, fullText).Append?
    ensures Truthy(chatId) && sanitized == [] ==> PersistPlan(userId, chatId, sanitized, fullText) == NoWrite
    ensures !Truthy(chatId) ==> PersistPlan(userId, chatId, sanitized, fullText)
                                 == CreateChat(userId.value, ChatTitle(sanitized).value, sanitized + [AssistantMessage(fullText)])
  {
    ChatTitleIgnoresSystemPrompt(sanitized);
  }

  /** When no title can be derived (the derivation throws), nothing is written, whatever the chat id. */
  lemma PersistPlanTitleThrows(userId: Option<string>, chatId: Option<string>, sanitized: seq<Message>, fullText: string)
    requires Truthy(userId) && ChatTitle(sanitized).None?
    ensures PersistPlan(userId, chatId, sanitized, fullText) == NoWrite
  {
    ChatTitleIgnoresSystemPrompt(sanitized);
  }

  /**
   * Carries out the write. With `Append`, the record's turns grow by exactly the two
   * pushed and its title is untouched; with `CreateChat`, exactly one new record appears.
   */
  method Finalize(store: Store, w: ChatWrite) returns (createdId: Option<string>)
    requires store.Valid()
    modifies store
    ensures store.Valid()
    ensures w.NoWrite? ==> store.chats == old(store.chats) && createdId.None?
    ensures w.Append? ==> createdId.None? && store.chats.Keys == old(store.chats).Keys
    ensures w.Append? && w.chatId !in old(store.chats) ==> store.chats == old(store.chats)
    ensures w.Append? && w.chatId in old(store.chats) ==>
              var before := old(store.chats)[w.chatId];
              store.chats == old(store.chats)[w.chatId := before.(messages := before.messages + w.added)]
              && |store.chats[w.chatId].messages| == |before.messages| + |w.added|
              && store.chats[w.chatId].title == before.title
    ensures w.CreateChat? ==>
              createdId.Some? && createdId.value !in old(store.chats)
              && store.chats == old(store.chats)[createdId.value := Chat(w.userId, w.title, w.messages)]
  {
    match w
    case NoWrite =>
      createdId := None;
    case Append(chatId, added) =>
      store.PushMessages(chatId, added);
      createdId := None;
    case CreateChat(userId, title, messages) =>
      var id := store.Create(userId, title, messages);
      createdId := Some(id);
  }

  /**
   * Two turns of one existing conversation, each a request with the same `userId` and
   * `chatId`: the record ends up four turns longer, with the title it had.
   */
  method TwoTurnsOfOneConversation(store: Store, userId: string, chatId: string,
                                   first: seq<Message>, firstReply: string,
                                   second: seq<Message>, secondReply: string)
    requires store.Valid() && chatId in store.chats
    requires userId != "" && chatId != ""
    requires first != [] && second != []
    requires ChatTitle(first).Some? && ChatTitle(second).Some?
    modifies store
    ensures store.Valid() && chatId in store.chats
    ensures |store.chats[chatId].messages| == |old(store.chats)[chatId].messages| + 4
    ensures store.chats[chatId].title == old(store.chats)[chatId].title
  {
    PersistPlanWrites(Some(userId), Some(chatId), first, firstReply);
    var _ := Finalize(store, PersistPlan(Some(userId), Some(chatId), first, firstReply));
    PersistPlanWrites(Some(userId), Some(chatId), second, secondReply);
    var _ := Finalize(store, PersistPlan(Some(userId), Some(chatId), second, secondReply));
  }

  // ---------------------------------------------------------------------------
  // The handler

  /** The `messages` field of the request body. */
  datatype MessagesField = Missing | NotAnArray | List(items: seq<Message>)

  datatype ChatRequest = ChatRequest(messages: MessagesField, chatId: Option<string>, userId: Option<string>)

  /** What the provider's endpoint does with the request. */
  datatype Upstream =
    | Unreachable                                 // `fetch` throws
    | Rejected(status: int, errorText: string)    // `response.ok` is false
    | Accepted(body: Option<seq<string>>)         // the decoded chunks, or no readable body

  datatype ChatReply = Plain(status: int, text: string) | Streamed(chunks: seq<string>)

  /** The reply, the request sent upstream (if one was), and the store call made afterwards. */
  datatype ChatOutcome = ChatOutcome(reply: ChatReply, upstream: Option<UpstreamRequest>, write: ChatWrite)

  const MessagesRequired := "Messages are required"
  const ProcessingFailed := "{\"error\":\"Failed to process chat\"}"
  const ProviderErrorPrefix := "Groq API Error: "

  /**
   * The `POST` handler. `body` is `None` when the body is not valid JSON or is `null`,
   * so that destructuring it throws (a primitive or array body destructures to an
   * absent `messages`, which is `ChatRequest(Missing, ...)`); `apiKey`
   * says whether the provider credential is configured; `dbConnects` whether the store
   * connection succeeds. Errors before streaming become a 500; a missing or non-array
   * `messages` a 400 without any upstream call; a provider rejection passes its status
   * through. Once streaming, the reply is the relayed deltas and the store call is
   * decided from the full text.
   */
  method Post(body: Option<ChatRequest>, apiKey: bool, dbConnects: bool, provider: Upstream,
              extract: string -> Option<string>) returns (out: ChatOutcome)
    ensures body.None? || !apiKey ==> out == ChatOutcome(Plain(500, ProcessingFailed), None, NoWrite)
    ensures body.Some? && apiKey && !body.value.messages.List? ==>
              out == ChatOutcome(Plain(400, MessagesRequired), None, NoWrite)
    ensures out.upstream.Some? <==> body.Some? && apiKey && body.value.messages.List? && dbConnects
    ensures out.upstream.Some? ==>
              var sanitized := Sanitize(body.value.messages.items);
              out.upstream.value == UpstreamRequest(SelectModel(sanitized), FinalMessages(sanitized), true, MaxTokens, Temperature)
    ensures out.write != NoWrite ==> out.upstream.Some? && provider.Accepted? && provider.body.Some?
    ensures body.Some? && apiKey && body.value.messages.List? && !dbConnects ==>
              out == ChatOutcome(Plain(500, ProcessingFailed), None, NoWrite)
    ensures out.upstream.Some? && provider.Unreachable? ==> out.reply == Plain(500, ProcessingFailed)
    ensures out.upstream.Some? && provider.Rejected? ==>
              out.reply == Plain(provider.status, ProviderErrorPrefix + provider.errorText)
    ensures out.upstream.Some? && provider.Accepted? ==>
              var sent := if provider.body.Some? then StreamDeltas(provider.body.value, extract) else [];
              out.reply == Streamed(sent)
              && (provider.body.Some? ==>
                    out.write == PersistPlan(body.value.userId, body.value.chatId,
                                             Sanitize(body.value.messages.items), Concat(sent)))
  {
    if body.None? || !apiKey {
      return ChatOutcome(Plain(500, ProcessingFailed), None, NoWrite);
    }
    var request := body.value;
    if !request.messages.List? {
      return ChatOutcome(Plain(400, MessagesRequired), None, NoWrite);
    }
    if !dbConnects {
      return ChatOutcome(Plain(500, ProcessingFailed), None, NoWrite);
    }
    var sanitized := Sanitize(request.messages.items);
    var model := SelectModel(sanitized);
    var upstream := UpstreamRequest(model, FinalMessages(sanitized), true, MaxTokens, Temperature);
    match provider
    case Unreachable =>
      out := ChatOutcome(Plain(500, ProcessingFailed), Some(upstream), NoWrite);
    case Rejected(status, errorText) =>
      out := ChatOutcome(Plain(status, ProviderErrorPrefix + errorText), Some(upstream), NoWrite);
    case Accepted(None) =>
      out := ChatOutcome(Streamed([]), Some(upstream), NoWrite);
    case Accepted(Some(chunks)) =>
      var sent, fullText := Relay(chunks, extract);
      var write := PersistPlan(request.userId, request.chatId, sanitized, fullText);
      out := ChatOutcome(Streamed(sent), Some(upstream), write);
  }
}
