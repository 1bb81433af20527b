# Multi-Model-Chat, modelled in Dafny

Multi-Model-Chat is a browser chat client that talks to four provider tags:
`openai`, `gemini`, `custom` and `exo`. The browser sends everything to a
small backend proxy, which forwards it upstream. This project models the
sequential data handling between the user interface and the network.

- **The proxy's pure helpers** (`proxy.dfy`):
  - the OpenAI-style message formatter;
  - the two base-URL normalisers (one for the self-hosted chat and model
    listing, one for the EXO cluster routes);
  - the Gemini `contents` builder and its ad-hoc split of a `data:` URI;
  - default model selection, the provider guards with their errors, and
    Gemini reply-text extraction.
- **The client's `sendMessage`** (`api.dfy`). It is a buffered line splitter
  over a chunked event stream, written as a `while` loop over chunks with a
  mutable buffer and an inner `for` loop over lines that uses `continue`.
  Also here is `fetchModels`, the mapping of a model listing to names.
- **The two stores** (`chat_store.dfy`, `settings_store.dfy`). Each is a
  class whose methods reassign its fields with the result of a map or a
  filter. The map or filter is a pure function, and the lemmas about the
  stores are stated over those functions.
- **The chat view's `handleSend`** (`chat_area.dfy`). It appends the user's
  message and an empty assistant placeholder, then folds the streamed
  fragments into the placeholder. On an error it overwrites the placeholder.

The supporting modules are these:

- `common.dfy`: `Option`, `Result`, and JavaScript truthiness of an optional
  string.
- `strings.dfy`: the JavaScript string operations the code relies on, all
  defined here, and for `split`, `trim` and `replace` characterised by
  lemmas:
  - `split` on one character;
  - `trim`;
  - `startsWith` and `endsWith`;
  - `replace` with a string pattern, which replaces only the first
    occurrence.
- `providers.dfy`: the provider tags.

A few things are modelled as inputs rather than computed:

- JSON decoding is a function parameter: from a payload to the field the
  code reads, or `Unparseable`.
- Fresh ids (`crypto.randomUUID`) and the clock (`Date.now`) are parameters
  supplied by the caller.
- What the client yields to `handleSend` is a parameter: a sequence of
  fragments, plus a flag saying whether it threw after them.

## Model

| member | source | states |
|---|---|---|
| Providers.ParseProvider | server/index.js:46-140 | a tag is recognised exactly when it is one of the four provider tags, and then names that provider |
| Proxy.FormatMessage | server/index.js:24-42 | the role is kept; without attachments the content is the original string; with k attachments it is one text part with the original content followed by k `image_url` parts carrying each attachment verbatim, in order |
| Proxy.FormatMessages | server/index.js:23-44 | one entry per message, in order, each formatted as above |
| Proxy.FormatMessagesKeepsRolesAndText | server/index.js:23-44 | message count and every role are preserved; a message with no attachments keeps its content string |
| Proxy.StripTrailingSlash | server/index.js:49 | `replace(/\/$/, '')` drops exactly one trailing `/` when there is one and otherwise changes nothing |
| Proxy.VersionedBase | server/index.js:49-50 | one trailing slash is dropped; the result is that slash-stripped input when it already ends in `/v1`, and that input plus `/v1` otherwise, so it always ends in `/v1` |
| Proxy.VersionedBaseNoDoubling | server/index.js:49-50 | a base ending in `/v1/` becomes the same base without the slash, never `…/v1/v1` |
| Proxy.VersionedBaseIdempotent | server/index.js:49-50 | normalising twice is normalising once |
| Proxy.ChatBase | server/index.js:49-50 | the chat base always ends in `/v1`; an absent base URL gives `/v1`, a present one its versioned form |
| Proxy.ClusterRoot | server/index.js:188 | the EXO cleaner's result is a prefix of its input, at most five characters shorter, and the input is untouched when it ends in none of `/v1`, `/v1/`, `/`; what is removed in each case is stated by the three lemmas below |
| Proxy.ClusterRootOfVersioned | server/index.js:188 | for every `x`, `x/v1` becomes `x` with one trailing slash dropped |
| Proxy.ClusterRootOfVersionedSlash | server/index.js:188 | for every `x`, `x/v1/` becomes `x` with one trailing slash dropped |
| Proxy.ClusterRootOfSlashed | server/index.js:188 | for every `x` not ending in `/v1`, `x/` becomes `x`: the second replace drops the slash |
| Proxy.BasesRoundTrip | server/index.js:188 | on a root without a trailing slash, the chat normaliser gives root + `/v1` and the cluster cleaner recovers the root from both root + `/v1` and root + `/v1/` |
| Proxy.ClusterRootStripsOnce | server/index.js:188 | the version segment is removed only once: for every `x`, `x/v1/v1` becomes `x/v1` |
| Proxy.EffectiveModelId | server/index.js:62 | the configured model id when it is non-empty, the provider's default otherwise (`gpt-4-turbo-preview`, `gpt-3.5-turbo`, `gemini-pro`); never empty |
| Proxy.AttachmentData | server/index.js:106 | `split(',')[1]` is the text between the first and second comma (or the end), absent without a comma |
| Proxy.AttachmentMimeType | server/index.js:107 | within the text before the first `;`, the text between the first `:` and the next `:` (or the end), absent without a `:` |
| Proxy.DataUriParts | server/index.js:106-107 | for `data:<type>;base64,<payload>` (RFC 2397 section 3) the two splits give exactly the media type and the payload |
| Proxy.GeminiRole | server/index.js:117 | role `user` stays `user`; every other role becomes `model` |
| Proxy.InlinePart | server/index.js:105-113 | each attachment becomes an inline-data part whose `data` is AttachmentData and whose `mime_type` is AttachmentMimeType of the URI; `data` is absent exactly when the URI has no comma and `mime_type` exactly when the text before the first `;` has no colon |
| Proxy.GeminiTurn | server/index.js:102-119 | the text part comes first, then one inline-data part per attachment, in attachment order, with the role mapped |
| Proxy.GeminiContents | server/index.js:102-120 | one turn per message, in order |
| Proxy.FirstPartText | server/index.js:134 | the optional chain is present only when every step of the path exists, and whenever the path exists it is the first part's `text` of the first candidate; no candidates give nothing |
| Proxy.ReplyText | server/index.js:134 | the reply text is the first candidate's first part text when that is non-empty, `''` otherwise |
| Proxy.ReplyTextOfFirstPart | server/index.js:134 | a reply whose first candidate's first part carries `t` gives `t`, whatever follows; a reply with no candidates, or an empty list of them, gives `''` |
| Proxy.Authorization | server/index.js:59 | a `Bearer <key>` header exactly when a non-empty key is configured |
| Proxy.ChatUrlUnder | server/index.js:51 | the chat URL is the versioned base followed by `/chat/completions`, so it ends with `/v1/chat/completions` |
| Proxy.CompletionsUrl | server/index.js:46-54 | for `custom` and `exo` the chat URL is ChatBase of the configured base followed by `/chat/completions`, ending with `/v1/chat/completions`; for `openai` it is the fixed `https://api.openai.com/v1/chat/completions` |
| Proxy.CompletionsCall | server/index.js:46-65 | the streamed completions request goes to CompletionsUrl with the `Bearer` header of Authorization, the effective model, the formatted messages and `stream: true` |
| Proxy.BuildChatRequest | server/index.js:46-140 | the request fails exactly for an unrecognised provider (400 `Provider <tag> not implemented`) and for `gemini` without a key (500 `API Key required for Gemini`), before any request is built; a streaming provider gets its completions call, and `gemini` with a key gets the `generateContent` URL of the effective model with the key in the query string and one turn per message |
| Proxy.GeminiChatRequest | server/index.js:97-119 | for `gemini` with a key the URL names the configured model or `gemini-pro` and ends with `:generateContent?key=<key>`, and the contents are GeminiContents of the messages |
| Proxy.SelfHostedChatRequest | server/index.js:46-65 | for `custom`/`exo` the chat URL is the versioned configured base followed by `/chat/completions` (`/v1/chat/completions` when no base is configured), the authorization is that of the key, the model defaults to `gpt-3.5-turbo`, and the messages are formatted |
| Proxy.ModelsUrl | server/index.js:163-165 | the self-hosted listing URL is the base under the same normalisation as the chat URL (VersionedBase) followed by `/models`, so it ends with `/v1/models` |
| Proxy.BuildModelsRequest | server/index.js:155-167 | discovery fails exactly when `gemini` has no key or `exo`/`custom` has no base URL, each with its own 500 message; `openai` uses the fixed listing URL with the key's authorization; `gemini` with a key lists at the Gemini models URL with `?key=<key>` and no header; a self-hosted listing goes to ModelsUrl of the base with the key's authorization; an unrecognised provider leaves the URL empty |
| Proxy.ClusterUrl | server/index.js:186-189 | each cluster route fails exactly when no base URL is configured, with its own message; otherwise the URL is the cleaned root followed by the route's path |
| Strings.Split | src/services/api.ts:40 | `split` on one character always gives at least one piece (the pieces are characterised by SplitJoinsBack and SplitJoin) |
| Strings.SplitJoinsBack | src/services/api.ts:40 | no piece of `split` contains the separator, and joining the pieces with it gives back the input |
| Strings.SplitJoin | src/services/api.ts:40 | conversely, splitting a join of separator-free pieces gives back those pieces |
| Strings.SplitAppend | src/services/api.ts:39-41 | the pieces of `x + y` are those of `x` and of `y` with the last piece of `x` fused to the first piece of `y` |
| Strings.SplitPieces | server/index.js:106-107 | piece 0 is the text before the first separator, there is a piece 1 exactly when the separator occurs, and it is the text between the first and the second |
| Strings.TrimSlice | src/services/api.ts:44 | `trim` yields a slice of the input with only whitespace outside it, and neither its first nor its last character is whitespace |
| Strings.RemoveFirst | src/services/api.ts:84 | `replace` with a string pattern removes the first occurrence only, and changes nothing without one |
| Strings.RemoveFirstOfPrefixed | src/services/api.ts:84 | removing `models/` from `models/<id>` gives `<id>` |
| Api.LineFragment | src/services/api.ts:43-56 | a line never yields an empty fragment (exactly when it yields one is LineFragmentMeaning) |
| Api.LineFragmentMeaning | src/services/api.ts:44-53 | a line yields a fragment exactly when the trimmed line starts with `data: `, the payload is not `[DONE]` and parses to a non-empty delta; the fragment is that delta |
| Api.Fragments | src/services/api.ts:42-57 | the lines yield at most one fragment each, in line order |
| Api.FragmentsAppend | src/services/api.ts:43-57 | fragments come out in line order: those of `a + b` are those of `a` followed by those of `b` |
| Api.FragmentsNonEmpty | src/services/api.ts:53 | no yielded fragment is empty |
| Api.SkippedLineKeepsGoing | src/services/api.ts:45-56 | a line that yields nothing (blank, not an event, `[DONE]`, unparseable, empty delta) does not stop the lines after it |
| Api.DoneIsSkipped | src/services/api.ts:48 | `data: [DONE]` yields nothing and processing continues after it |
| Api.BodyIsLinesAndTail | src/services/api.ts:40-41 | the body is its complete lines and its unterminated tail joined by newlines, and the tail has no newline |
| Api.UnterminatedTailIgnored | src/services/api.ts:39-41 | appending text with no newline never completes a line, so an unterminated tail is never processed |
| Api.LinesAfterChunk | src/services/api.ts:39-41 | when a chunk arrives, the new complete lines are all but the last piece of the buffered tail plus the chunk, and the new tail is that last piece |
| Api.ChunkBoundaryIrrelevant | src/services/api.ts:35-41 | cutting a chunk in two anywhere changes no yielded fragment |
| Api.StreamStep | src/services/api.ts:35-41 | when a chunk arrives, the fragments of the complete lines grow by exactly those of the newly completed lines, and the new tail is the last piece after the chunk |
| Api.ProcessLines | src/services/api.ts:43-57 | the inner loop yields exactly the fragments of the complete lines |
| Api.ReadEventStream | src/services/api.ts:31-58 | the read loop yields exactly the fragments of the complete lines of the whole body, and leaves the unterminated tail in the buffer |
| Api.SendMessage | src/services/api.ts:22-63 | a non-ok status or a missing body fails before any fragment; a streaming provider yields the fragments of the stream, none empty; `gemini` yields exactly one fragment, `text` or `''` |
| Api.FetchModels | src/services/api.ts:76-92 | a non-ok reply fails with its status text; for `gemini` one name per listed model, in order, with the first `models/` removed; otherwise the listed ids; a missing listing gives `[]` |
| Api.GeminiNamesLosePrefix | src/services/api.ts:82-85 | a Gemini listing of `models/<id>` names yields exactly the ids |
| ChatStore.NewSession | src/store/chatStore.ts:38-44 | a new session is titled `New Chat`, has no messages, and is created and updated now |
| ChatStore.Stamp | src/store/chatStore.ts:61-65 | the stored message keeps everything the caller gave and gets the fresh id and timestamp |
| ChatStore.WithMessage | src/store/chatStore.ts:53-72 | every session with the id gets the message appended at the end and a new `updatedAt`; earlier messages, the id, title and creation time are kept; every other session is unchanged; the session count is preserved |
| ChatStore.WithContent | src/store/chatStore.ts:81-83 | only the content of messages with the id changes; count, order, ids, roles, timestamps and attachments are kept |
| ChatStore.WithMessageContent | src/store/chatStore.ts:75-90 | only sessions with the id change, and in them only message contents and `updatedAt`; the session count is preserved |
| ChatStore.WithTitle | src/store/chatStore.ts:92-96 | only the title of sessions with the id changes; messages and `updatedAt` are untouched |
| ChatStore.WithoutSession | src/store/chatStore.ts:100 | the survivors are exactly the sessions with another id |
| ChatStore.NextCurrent | src/store/chatStore.ts:103 | if the deleted session was current, the first survivor's id when there is one and it is non-empty, else none; otherwise the current id is kept |
| ChatStore.AddToUnknownSession | src/store/chatStore.ts:55-71 | adding to an unknown session changes nothing |
| ChatStore.UpdateUnknownSession | src/store/chatStore.ts:77-88 | updating an unknown session changes nothing |
| ChatStore.ContentOfUnknownMessage | src/store/chatStore.ts:81-83 | updating an unknown message id changes nothing |
| ChatStore.ContentLastWriteWins | src/store/chatStore.ts:81-83 | of two content writes to one message, the second wins |
| ChatStore.UpdateLastWriteWins | src/store/chatStore.ts:75-90 | of two `updateMessage` calls on one message, the second decides its content and the session's `updatedAt` |
| ChatStore.WithoutSessionAppend | src/store/chatStore.ts:100 | deletion keeps the other sessions in their order |
| ChatStore.WithoutUnknownSession | src/store/chatStore.ts:100 | deleting an unknown id changes nothing |
| ChatStore.DeletedIsNotCurrent | src/store/chatStore.ts:98-106 | after a deletion the deleted id is never current |
| ChatStore.Store.constructor | src/store/chatStore.ts:34-35 | the store starts with no sessions and no current session |
| ChatStore.Store.CreateSession | src/store/chatStore.ts:37-49 | one new session in front of the existing ones, which keep their order, and it becomes current |
| ChatStore.Store.SelectSession | src/store/chatStore.ts:51 | the id becomes current, whether or not a session has it |
| ChatStore.Store.AddMessage | src/store/chatStore.ts:53-73 | the sessions become WithMessage of the stamped draft; the current id is kept |
| ChatStore.Store.UpdateMessage | src/store/chatStore.ts:75-90 | the sessions become WithMessageContent; the current id is kept |
| ChatStore.Store.UpdateSessionTitle | src/store/chatStore.ts:92-96 | the sessions become WithTitle; the current id is kept |
| ChatStore.Store.DeleteSession | src/store/chatStore.ts:98-106 | the sessions become WithoutSession, the current id becomes NextCurrent, and it is never the deleted id |
| SettingsStore.Merge | src/store/settingsStore.ts:39 | each field the update carries is taken from it, every other from the old configuration |
| SettingsStore.MergeNoChange | src/store/settingsStore.ts:39 | an empty update changes nothing |
| SettingsStore.MergeIdempotent | src/store/settingsStore.ts:39 | applying one update twice is applying it once |
| SettingsStore.MergeThen | src/store/settingsStore.ts:39 | two updates in a row are one combined update, the later one's fields winning |
| SettingsStore.WithUpdate | src/store/settingsStore.ts:38-40 | every configuration with the id is merged with the update; the others and the length are unchanged |
| SettingsStore.UpdateUnknownModel | src/store/settingsStore.ts:38-40 | updating an unknown id changes nothing |
| SettingsStore.UpdateThen | src/store/settingsStore.ts:38-40 | two updates of one id, the first keeping the id, are one combined update |
| SettingsStore.WithoutModel | src/store/settingsStore.ts:41 | the survivors are exactly the configurations with another id |
| SettingsStore.WithoutModelAppend | src/store/settingsStore.ts:41 | removal keeps the other configurations in their order |
| SettingsStore.WithoutUnknownModel | src/store/settingsStore.ts:41 | removing an unknown id changes nothing |
| SettingsStore.AddThenRemove | src/store/settingsStore.ts:37-41 | adding a configuration and removing its id leaves the others as they were before |
| SettingsStore.Settings.constructor | src/store/settingsStore.ts:26-36 | the store starts with the one enabled `exo` configuration `exo-qwen-30b` and the panel closed |
| SettingsStore.Settings.AddModel | src/store/settingsStore.ts:37 | the configuration is appended at the end, with no duplicate-id check |
| SettingsStore.Settings.UpdateModel | src/store/settingsStore.ts:38-40 | the models become WithUpdate; the panel flag is kept |
| SettingsStore.Settings.RemoveModel | src/store/settingsStore.ts:41 | the models become WithoutModel; the panel flag is kept |
| SettingsStore.Settings.ToggleSettings | src/store/settingsStore.ts:42 | `isOpen` is negated, so two toggles restore it; the models are kept |
| ChatArea.FindIndex | src/components/ChatArea.tsx:46 | the index of the first session with the id, or none when no session has it |
| ChatArea.FindSession | src/components/ChatArea.tsx:46 | `find` gives the session at that first index |
| ChatArea.ErrorWritten | src/components/ChatArea.tsx:62-69 | the error write keeps the number and ids of the sessions, touches no session with another id, and changes nothing when no session has the id |
| ChatArea.SentSessions | src/components/ChatArea.tsx:28-73 | `handleSend` keeps the number and ids of the sessions and touches no session with another id |
| ChatArea.SentHistory | src/components/ChatArea.tsx:46-55 | a history is sent exactly when some session has the current id |
| ChatArea.SendToUnknownSession | src/components/ChatArea.tsx:37-47 | when no session has the current id nothing changes and no history is sent |
| ChatArea.PlacedThenWritten | src/components/ChatArea.tsx:32-60 | with fresh ids, writing into the placeholder after the two appends changes only the placeholder |
| ChatArea.SendAppendsExchange | src/components/ChatArea.tsx:28-73 | with fresh ids, every session with the current id gets exactly two messages: the user's, with the given content and attachments, then the assistant's, holding all fragments concatenated or, after an error, exactly `Error: Failed to generate response.`; every other session is unchanged |
| ChatArea.StreamedStep | src/components/ChatArea.tsx:56-61 | each fragment extends the accumulated content by exactly that fragment, and writing it into the placeholder gives the sessions after one more fragment |
| ChatArea.ErrorOverwrites | src/components/ChatArea.tsx:62-69 | the error text replaces whatever partial text the placeholder held |
| ChatArea.HistoryEndsWithUserMessage | src/components/ChatArea.tsx:46-53 | the history is the session's earlier messages followed by the new user message, so the placeholder is never part of it |
| ChatArea.View.HandleSend | src/components/ChatArea.tsx:28-73 | with no current session nothing changes; otherwise the sessions and the history are as SentSessions and SentHistory say, the current id is kept, and `isGenerating` is false afterwards on every path (that it holds throughout the fragment loop is a loop invariant, not part of the contract) |

## Left out

- HTTP and I/O are not modelled: Express routing, `fetch`, headers, piping the upstream body, stream error handlers, and the `/state` fallback of the cluster nodes route. Only the pure helpers and the request each handler would send are modelled.
- JSON parsing and `TextDecoder` are not modelled. Chunks are already decoded strings. What the code reads out of a JSON document is a function parameter or an already decoded record.
- `crypto.randomUUID` and `Date.now` are parameters. One `now` is used for all the clock reads of a single call, where the source reads the clock more than once.
- Zustand `persist` and its local storage are persistence middleware and are left out.
- Api.SendMessage: the `API Error` message does not carry the JSON error body, only the status. Errors raised while reading a stream are not modelled.
- Api.SendMessage and Api.FetchModels take a `Provider`, so an unrecognised tag, which the client treats like `gemini` in `sendMessage` and like the others in `fetchModels`, is not represented.
- Api.FetchModels: an entry whose `name` or `id` is not a string is not modelled.
- Proxy.BuildModelsRequest: for an unrecognised provider the handler then fetches the empty URL. That fetch is I/O and is not modelled.
- Proxy.ClusterUrl: the model identifier of the preview route is taken as already passed through `encodeURIComponent`.
- The cluster routes' upstream responses, and the client calls that load or unload cluster instances, are not modelled.
- ChatStore.Store.AddMessage: one message id is given to every session with the id, where the source draws a fresh `crypto.randomUUID()` per matching session. The two agree whenever session ids are distinct, which holds because every session id is itself a fresh UUID; duplicate session ids are not modelled.
- ChatArea.SendAppendsExchange: with two sessions sharing the current id, the source fills only the first one's placeholder, and the others keep an empty placeholder with an id of their own. The lemma is about the model, which agrees with the source only while session ids are distinct, as they are when each is a fresh UUID; shared session ids are not described.
- ChatArea.View.HandleSend: the currently rendered session id is read from the store at the moment of the call. A client that throws is modelled as throwing only after all the fragments it yielded. The method is modelled as if no other store update ran between its awaits: in the source the sidebar's create, select and delete actions stay live during the stream, and a session deleted mid-stream makes the later writes find nothing, which the model does not describe. One `now` stands for every clock read of the exchange, both appends, every fragment write and the error write, although the source reads the clock afresh in each store call across the whole stream.
- Rendering, scrolling, the settings panel, the prompt bar, the sidebar and the layout are user-interface code and are not modelled.
