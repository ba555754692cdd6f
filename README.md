# AxiomAssist chat proxy, modelled in Dafny

This project models the server side of the AxiomAssist chat application: the chat
endpoint (`POST /api/chat`) and the history save endpoint (`POST /api/history/save`).

The chat endpoint does five things:

1. It sanitises the incoming conversation.
2. It picks a text or a vision model.
3. It prepends a persona system prompt and forwards the conversation to the provider.
4. It relays the provider's server-sent-event stream to the client, delta by delta, and
   accumulates the full reply.
5. After the stream ends, it appends the last turn and the reply to the stored
   conversation, or creates a new record with a derived title.

The save endpoint validates its request, derives a 30-character title with an
ellipsis, and either replaces the messages of the caller's record or creates one.

The modules:

- `Wrappers`: the `Option` type.
- `JsString`: the JavaScript string operations the routes use, written out as
  functions on `seq<char>`, with their properties proved:
  - `trim`, with the ECMAScript whitespace and line-terminator set;
  - `startsWith`;
  - `substring(0, n)`;
  - `split('\n')`;
  - the line/carry decomposition of the line buffer.
- `Messages`: the turn datatype, `find(m => m.role === role)`, and JavaScript
  truthiness of an optional string.
- `EventStream`: the decode loop.
  - `Relay` is the imperative `while` loop over chunks, with its carry buffer and
    `fullText`.
  - `RelayLines` is the inner `for` loop over complete lines, with the trim, the
    skips and the payload extraction written out in its body.
  - `RelayLines` is proved against the specification function `Deltas`, and `Relay`
    against `StreamDeltas`; both are defined from the per-line function `LineDelta`.
- `ChatStore`: the conversation collection as a class holding a map from identifier to
  record, with the three store calls the routes make.
- `ChatRoute`: the chat endpoint:
  - the sanitiser, the model selector and the upstream request;
  - title derivation and the persistence decision;
  - `Finalize`, which applies that decision to the store;
  - the handler `Post`.
- `SaveRoute`: the save endpoint: its title, its plan and its handler `Save`.

Two behaviours of the code are worth stating outright:

- `substring(0, 50)` (`src/app/api/chat/route.ts:145`) keeps a first user message of
  up to 50 characters whole as the title; `ChatTitleFromSource` proves it.
- `findByIdAndUpdate` (`src/app/api/chat/route.ts:160`) matches on the conversation
  identifier alone, with no owner check: `Store.PushMessages` and `Finalize` append to
  a record whoever owns it.

## Model

| member | source | states |
|---|---|---|
| ChatRoute.Sanitize | src/app/api/chat/route.ts:38-43 | every kept turn has an allowed role and non-empty content (a string other than `""`, a non-empty array, or any other value) |
| ChatRoute.SanitizeMembers | src/app/api/chat/route.ts:38-43 | a turn is in the sanitised list if and only if it is an input turn that passes the filter |
| ChatRoute.SanitizeIsSubsequence | src/app/api/chat/route.ts:38-43 | the sanitised list is a subsequence of the input: kept turns stay in their original order |
| ChatRoute.SanitizeAppend | src/app/api/chat/route.ts:41-43 | filtering distributes over concatenation, because each turn is judged on its own |
| ChatRoute.SanitizeIdempotent | src/app/api/chat/route.ts:41-43 | sanitising a sanitised list changes nothing |
| ChatRoute.SanitizeUnchangedIff | src/app/api/chat/route.ts:41-43 | the sanitiser returns its input unchanged exactly when every turn passes the filter |
| ChatRoute.SanitizeShorter | src/app/api/chat/route.ts:41-43 | the sanitised list is never longer than the input |
| ChatRoute.HasArrayContent | src/app/api/chat/route.ts:46 | true exactly when some turn has array content |
| ChatRoute.SelectModel | src/app/api/chat/route.ts:46-47 | total; gives the vision model if and only if some turn has array content, and the text model if and only if none does |
| ChatRoute.FinalMessages | src/app/api/chat/route.ts:51-69 | the system prompt comes first, followed by exactly the sanitised turns |
| ChatRoute.FindTextPart | src/app/api/chat/route.ts:147 | finds a part of type `text` from the list, and finds none only when no part has that type |
| ChatRoute.FindTextPartIsFirst | src/app/api/chat/route.ts:147 | the part found is the first of type `text`: every part before it has another type |
| ChatRoute.ChatTitle | src/app/api/chat/route.ts:141-151 | a derived title has at most 50 characters; it is "New Chat" when there is no user turn |
| ChatRoute.ChatTitleFromSource | src/app/api/chat/route.ts:143-149 | the title is a prefix of the first user turn's text, or of its first text part; it is the whole text when that has at most 50 characters and exactly 50 characters otherwise; "New Chat" when there is nothing to take it from; a throw when the text part's `text` is not a string |
| ChatRoute.ChatTitleIgnoresSystemPrompt | src/app/api/chat/route.ts:141 | searching the prompt-prefixed list gives the same title as searching the sanitised turns, so the system prompt never becomes the title |
| ChatRoute.PersistPlan | src/app/api/chat/route.ts:138-176 | no write without a truthy `userId`; an append carries exactly the last sanitised turn and then the assistant reply; a creation holds all sanitised turns followed by the reply, under a title of at most 50 characters; when the title derivation over the prompt-prefixed turns throws, nothing is written |
| ChatRoute.PersistPlanTitleThrows | src/app/api/chat/route.ts:141-176 | with a `userId` but no derivable title (the first user turn's first `text` part has a `text` that is not a string, so `substring` throws), the thrown error is caught and nothing is written, whatever the `chatId` |
| ChatRoute.PersistPlanWrites | src/app/api/chat/route.ts:152-172 | conversely, with a `userId` and a derivable title, a truthy `chatId` appends (or throws on an empty list) and any other `chatId` creates the record with the derived title |
| ChatRoute.Finalize | src/app/api/chat/route.ts:159-172 | an append grows the record by exactly the pushed turns and keeps its title and the set of records, and changes nothing when the identifier is not in the store; a creation adds exactly one fresh record; no write changes nothing |
| ChatRoute.TwoTurnsOfOneConversation | src/app/api/chat/route.ts:159-165 | two requests on the same existing conversation leave it four turns longer with its title unchanged |
| ChatRoute.Post | src/app/api/chat/route.ts:8-188 | an unparsable or `null` body, a missing key, a failed store connection or an unreachable provider gives 500; missing or non-array `messages` gives 400 with no upstream call and no write; the upstream request carries the selected model, the prompt-prefixed turns and the fixed parameters; a provider rejection passes its status through with "Groq API Error: "; an accepted stream replies with the relayed deltas and writes what `PersistPlan` decides from their concatenation; store failures never change the reply |
| EventStream.LineDelta | src/app/api/chat/route.ts:116-128 | a line yields a delta only when its trimmed form starts with `data: ` and is not `data: [DONE]`, the delta is the extracted content, and it is non-empty |
| EventStream.SkippedLines | src/app/api/chat/route.ts:117-118 | blank lines, `data: [DONE]`, lines without the `data: ` prefix, and lines whose payload fails to parse or has empty content all yield nothing |
| EventStream.DataLineEmits | src/app/api/chat/route.ts:118-125 | a `data: ` line whose payload has non-empty content yields exactly that content |
| EventStream.DoneLineYieldsNothing | src/app/api/chat/route.ts:117 | the `data: [DONE]` line yields nothing |
| EventStream.DoneDoesNotStop | src/app/api/chat/route.ts:117 | `data: [DONE]` is skipped, not a terminator: the lines after it are still decoded |
| EventStream.DeltasSkip | src/app/api/chat/route.ts:116-128 | a line that yields nothing leaves the output and `fullText` as they would be without it |
| EventStream.DeltasAppend | src/app/api/chat/route.ts:115-130 | decoding distributes over concatenation of line lists |
| EventStream.DeltasNonEmpty | src/app/api/chat/route.ts:122 | only non-empty deltas are ever enqueued |
| EventStream.UnterminatedTailDropped | src/app/api/chat/route.ts:108-109 | a final chunk without a newline adds nothing: the leftover buffer is discarded when the stream ends |
| EventStream.RelayLines | src/app/api/chat/route.ts:115-130 | the inner loop enqueues the decoded deltas of the lines in order, and `fullText` stays the concatenation of everything enqueued |
| EventStream.Relay | src/app/api/chat/route.ts:103-131 | the enqueued deltas are those of the complete lines of the concatenated chunks, however the text is split into chunks, and `fullText` is their concatenation |
| EventStream.ReceiveStep | src/app/api/chat/route.ts:111-113 | appending a chunk to the buffer and splitting it sends the deltas of the complete lines of the text received so far, after those already sent, and the new buffer is the carry of that text |
| JsString.TrimStart | src/app/api/chat/route.ts:116 | removes exactly a leading run of whitespace, leaving a string that does not start with whitespace |
| JsString.TrimEnd | src/app/api/chat/route.ts:116 | removes exactly a trailing run of whitespace, leaving a string that does not end with whitespace |
| JsString.Trim | src/app/api/chat/route.ts:116 | the result neither starts nor ends with whitespace |
| JsString.TrimEmptyIff | src/app/api/chat/route.ts:117 | a trimmed line is empty exactly when the line is all whitespace |
| JsString.TrimPadded | src/app/api/chat/route.ts:116 | whitespace padding on either side does not change the trimmed line |
| JsString.Prefix | src/app/api/chat/route.ts:145 | `substring(0, n)` is a prefix of at most `n` characters, and it is the whole string when that is shorter |
| JsString.JoinSplit | src/app/api/chat/route.ts:112 | joining the pieces of `split('\n')` with newlines gives back the string |
| JsString.SplitJoin | src/app/api/chat/route.ts:112 | splitting a newline-join of newline-free pieces gives back the pieces |
| JsString.SplitPiecesNoNewline | src/app/api/chat/route.ts:112 | no piece of the split contains a newline |
| JsString.Carry | src/app/api/chat/route.ts:113 | the piece held back in the buffer (`lines.pop()`) never contains a newline |
| JsString.Lines | src/app/api/chat/route.ts:112-113 | no complete line handed to the inner loop contains a newline |
| JsString.Split | src/app/api/chat/route.ts:112 | `split('\n')` always gives at least one piece; with `JoinSplit` and `SplitJoin` it is the unique list of newline-free pieces that joins back to the string |
| JsString.StartsWith | src/app/api/chat/route.ts:118 | the character-by-character comparison is true exactly when the prefix is the head of the string |
| JsString.LinesThenCarry | src/app/api/chat/route.ts:112-113 | the complete lines joined by newlines, then a newline, then the buffer, give back the text |
| JsString.SplitAppend | src/app/api/chat/route.ts:111-112 | splitting `x + y` gives the complete lines of `x` followed by the split of the carry of `x` plus `y` |
| JsString.LinesAppend | src/app/api/chat/route.ts:111-113 | the complete lines of `x + y` are those of `x` followed by those of its carry plus `y`, and the carries agree |
| Messages.FindRole | src/app/api/chat/route.ts:141 | finds a turn of the list with that role, and finds none exactly when no turn has it |
| Messages.FindRoleIsFirst | src/app/api/chat/route.ts:141 | the turn found is the first with that role |
| Messages.FindRoleSkips | src/app/api/chat/route.ts:141 | turns before the first with that role do not affect the search |
| ChatStore.Store.Create | src/app/api/history/save/route.ts:31-35 | a new record under an identifier not in use, and nothing else changes |
| ChatStore.Store.PushMessages | src/app/api/chat/route.ts:160-165 | the turns are appended to the record with that identifier, whoever owns it; its title is kept, and a missing record changes nothing |
| ChatStore.Store.ReplaceMessages | src/app/api/history/save/route.ts:25-29 | only a record with that identifier and that owner has its turns replaced, and it is returned; otherwise nothing changes and the result is null |
| SaveRoute.ShortTitle | src/app/api/history/save/route.ts:19 | a string title is the content itself when it has at most 30 characters, and otherwise its first 30 characters followed by "..."; so at most 33 characters; content without `slice` throws |
| SaveRoute.ObjectList | src/app/api/history/save/route.ts:19 | an array of `n` parts turns into `n` copies of "[object Object]" joined by commas: 16n-1 characters, a comma at every position 15 mod 16, and otherwise the matching character of "[object Object]" |
| SaveRoute.ArrayContentTitle | src/app/api/history/save/route.ts:19 | a user turn with one part is titled "[object Object]" |
| SaveRoute.SaveTitle | src/app/api/history/save/route.ts:15-21 | "New Chat" when there is no user turn (in particular for an empty list); otherwise the short title of the first user turn |
| SaveRoute.PlanSave | src/app/api/history/save/route.ts:9-36 | 400 exactly when `userId` is falsy or `messages` is missing; a write exactly when the store connects and the title derives; a truthy `chatId` replaces that record's turns, and otherwise one record is created with the derived title |
| SaveRoute.Save | src/app/api/history/save/route.ts:5-43 | a 400 or a 500 touches nothing; a replacement changes only the caller's matching record and answers null when there is none; a creation adds exactly one record; records of other owners never change |

## Left out

- Strings are sequences of characters; JavaScript counts UTF-16 code units in
  `substring`, `slice` and `length`, so a title cut inside a surrogate pair is not
  modelled.
- `JSON.parse` and `choices[0]?.delta?.content || ''` are a parameter `extract` from a
  `data:` payload to a content string (`None` when parsing or the access throws);
  JSON itself is not modelled.
- The `fetch` to the provider is an input saying whether the provider is unreachable,
  rejects with a status and text, or accepts with a body.
- `TextDecoder` is not modelled: chunks arrive already decoded.
- A stream read error is not modelled. The source catches it, stops reading, and
  persists what was received so far.
- A client that disconnects mid-stream is not modelled. `enqueue` would then throw,
  and the parse `catch` would swallow it.
- `ReadableStream`, `async`/`await`, logging and environment lookup are not modelled;
  the API key is a boolean input.
- The persona prompt text is abbreviated; only its position in the request matters.
- Timestamps (`createdAt`, `updatedAt`) and the Mongoose schema's casting of values
  are not modelled.
- Store identifiers are drawn from a counter rather than generated object ids.
- Store failures other than the TypeErrors the chat route's `finally` block raises
  itself are not modelled. In the chat route every store failure is caught and only
  logged, so none of them changes the reply.
- SaveRoute.PlanSave: a truthy `messages` that is not an array, and a `userId` or
  `chatId` that is not a string, are not modelled.
- SaveRoute.Save: a body that is not valid JSON (`req.json()` throws, so the reply is a
  500) is not modelled; `SaveRequest` starts from a parsed body.
- ChatRoute.Post: a `userId` or `chatId` that is not a string (a number, an object) is
  not modelled; both are optional strings, truthy when present and non-empty.
- ChatRoute.Post: a `null` entry in `messages` makes `m.role` throw in the sanitiser,
  so the reply is a 500; `Message` cannot represent such an entry, so this path is not
  modelled. (A primitive entry has no `role` and is simply filtered out.)
- ChatRoute.ChatTitle: array content is modelled as a list of objects; a `null` entry before the first text part makes `p.type` throw (src/app/api/chat/route.ts:147), which the handler catches (line 174) so that nothing is written, and the model does not represent such an entry.
- SaveRoute.ShortTitle: `slice` followed by `+ ''` coerces each element of the stored `content` array to a string (a `null` element to "", a string to itself, a number to its digits); the model treats every element as an object, which renders as "[object Object]".
- SaveRoute.SaveTitle: a `null` entry in `messages` before the first user turn makes `m.role` throw (src/app/api/history/save/route.ts:17), giving the 500 reply; the model does not represent `null` entries.
