# Kai chat: a Dafny model of the conversation store and the streaming relay

Kai is a small chat front end for a local language model. Two parts are modelled here:

- **The Express server** (`server.js`). It keeps every conversation in an in-memory `Map`, keyed by conversation id. It offers four JSON routes: create-or-fetch, chat, rename and delete. It relays two kinds of model answers to the browser as server-sent events: chat answers and generated titles. A chat answer is cleaned of special tokens before it is stored and sent back. A title goes through its own clean-up chain.
- **The browser script** (`src/script.js`). It keeps its own copy of the conversations, keyed by id, plus the id of the conversation on screen. It creates, selects, renames and deletes conversations. It pushes each message sent, then reads the event stream back line by line. It stores the answer the server sends with the final `done` event. After the first exchange of a conversation, it asks for a title.

The project is made of these modules:

| module | file | what it holds |
|---|---|---|
| `Text` | `text.dfy` | JavaScript's `trim` (its exact whitespace set), `startsWith`, and string accumulation by `+=`. |
| `Protocol` | `protocol.dfy` | The shared entities: `Conversation` and `Message`; the events the server writes; the JSON payload the client reads back; the server-sent-events frame; the model backend's interface. |
| `Sanitize` | `sanitize.dfy` | `cleanResponse`, written as the left-to-right global-replace scans its regular expressions perform, and the title clean-up chain. |
| `Server` | `server.dfy` | The route handlers as functions from the table to an `Outcome`, and the `ConversationStore` class. Its methods update the `Map` in place and are proved equal to those functions. It also holds the relay loop shared by both streaming routes. |
| `Wire` | `wire.dfy` | The client's stream reading: `split('\n')`, `data: ` field extraction and per-line parsing. |
| `Client` | `client.dfy` | The `ClientCache` class, holding the two globals and the key order of the `conversations` object. Its methods create, load, delete, rename, add a message, and run the two read loops. Each read loop is proved against a fold over the payloads it acts on. |
| `Escape` | `escape.dfy` | The copy-button escaper and a model of how its output is read back as a JavaScript template literal. |
| `Sync` | `sync.dfy` | Both sides together. The events the server writes are exactly the payloads the client acts on, however whole frames are grouped into reads. After a chat exchange, both sides have appended the same messages. |

What is left as a parameter of the model:

- **The model backend.** It is a function from the request (model name, context, sampling options) to a stream: the fragments it yields, and whether it throws after them.
- **JSON.** It is two parameters: `encode` for the server, `parse` for the client. The cross-side lemmas require the two to agree.
- **The clock.** It is an integer argument (`now`).
- **`confirm` and `prompt`.** Their answers are arguments.

Notes on the server's behaviour:

- `cleanResponse` is not idempotent. `<<s>s>` cleans to `<s>`, which cleans to the empty string.
- Renaming or deleting an unknown id answers 404 and changes nothing.
- The server takes no lock around its table. The model runs requests one at a time (see Left out).
- On a failed chat, the user message stays stored and no answer is stored.
- The client never reports a title or a rename back to the server, so the two sides agree on messages, not on titles.

## Model

| member | source | states |
|---|---|---|
| Text.TrimShape | server.js:25 | `trim` keeps one contiguous slice of its input, drops only whitespace on either side, and the slice neither starts nor ends with whitespace |
| Sanitize.CleanResponse | server.js:20-28 | the cleaned text is never longer than the raw text and never starts or ends with whitespace |
| Sanitize.MarkerLengthExact | server.js:22 | the marker pattern matches at a position exactly when a marker starts there (`<`, a bar, a non-empty run without bars, a bar, `>`), and only one match length is possible |
| Sanitize.CleanResponseWithoutAngle | server.js:20-28 | text without `<` holds nothing to remove, so cleaning it is just `trim` |
| Sanitize.CleanResponseDropsMarker | server.js:22 | a marker between two fragments without `<` is removed, and the fragments are joined and trimmed |
| Sanitize.CleanResponseKeepsEmptyMarker | server.js:22 | `<`, two bars, `>`: with an empty inner run it is not a marker, and it survives cleaning |
| Sanitize.CleanResponseNotIdempotent | server.js:21-25 | cleaning `<<s>s>` gives `<s>`, and cleaning that again gives the empty string |
| Sanitize.CleanTitle | server.js:180-184 | a cleaned title is at most 50 characters long |
| Sanitize.CleanTitleShape | server.js:180-184 | the cleaned title is a prefix of the trimmed text after its leading quote; when it is shorter than 50, what was cut at the end is nothing, a quote, a final mark, or a mark then a quote |
| Sanitize.CleanTitleKeepsPlainTitle | server.js:180-184 | a trimmed title of at most 50 characters, with no quote at either end and no final mark, is kept as is |
| Sanitize.CleanTitleDropsFinalMark | server.js:183 | exactly one final `.`, `!` or `?` is removed, and nothing else |
| Sanitize.CleanTitleDropsQuotePair | server.js:182 | a quote at each end is removed, both of them |
| Sanitize.CleanTitleOfLoneQuote | server.js:182 | a title that is a lone quote becomes empty |
| Protocol.NewConversation | server.js:35-41 | a new conversation has the given id and title, no messages, and both timestamps equal to the creation time |
| Protocol.Append | server.js:70-73 | pushing a message keeps every earlier message and changes nothing else |
| Protocol.ToPayload | server.js:99-118 | each event reads back as the payload with its own fields set and every other field falsy: content; or done with the full response; or done with the title; or error |
| Server.Forward | server.js:94-100 | the relay loop writes one content event per fragment, in arrival order, and accumulates exactly the concatenation of the fragments |
| Server.RelayEventsShape | server.js:94-119 | a relay session is one content event per fragment, then exactly one terminal event, and nothing after it |
| Server.RelayChat | server.js:83-119 | the chat relay answers with the content events and the terminal event of the backend's stream; it stores the cleaned answer, with a refreshed `updatedAt`, only when the stream ends normally |
| Server.ConversationStore.constructor | server.js:18 | the store starts empty |
| Server.ConversationStore.Upsert | server.js:31-45 | the new table and the reply are those of the create-or-fetch route, and every entry stays under its own id |
| Server.ConversationStore.Chat | server.js:48-121 | the new table and the reply are those of the chat route: 400 on a falsy id; otherwise a lazy create, the user message pushed, the answer relayed, and the cleaned answer stored on success |
| Server.ConversationStore.Rename | server.js:124-136 | the new table and the reply are those of the rename route: a new title and `updatedAt` on a known id, 404 otherwise |
| Server.ConversationStore.Delete | server.js:139-148 | the new table and the reply are those of the delete route: the key is removed when known, 404 otherwise |
| Server.GenerateTitle | server.js:151-194 | the title route answers with one content event per fragment, then the cleaned title, or its own generic error when the backend throws |
| Server.UpsertKeepsExisting | server.js:34-44 | on a known id, create-or-fetch changes nothing and returns the stored entry; on a new id, it adds exactly one empty conversation with the given title or the default |
| Server.UpsertIdempotent | server.js:34-42 | a second create-or-fetch on the same id changes nothing, whatever title it carries |
| Server.ChatWithoutIdRejected | server.js:51-53 | a chat without an id is a 400 before any change or event |
| Server.ChatAppendsExchange | server.js:57-113 | a chat sends the stored history plus the user message; it appends exactly that message, and the cleaned concatenation when the stream ends normally; it keeps the title and every other entry |
| Server.ChatFailureCommitsNoAnswer | server.js:116-119 | when the backend throws, the user message stays, no answer is stored, and the stream ends with exactly one generic error after content events only |
| Server.ChatEventsShape | server.js:94-119 | the chat stream is the raw fragments in order, then exactly one terminal event: the cleaned answer, or the generic error |
| Server.TitleEventsShape | server.js:174-192 | the title stream is the raw fragments in order, then exactly one terminal event: the cleaned title, or the title error |
| Server.NotFoundChangesNothing | server.js:128-147 | rename and delete answer 404 exactly when the id is absent, and then leave the table as it was |
| Server.RenameAndDeleteFrames | server.js:128-144 | rename on a known id changes only that entry's title and `updatedAt`; delete removes only that key |
| Server.MessagesAppendOnly | server.js:31-194 | whatever the request, a conversation that survives it keeps its earlier messages as a prefix |
| Server.HandleKeepsKeys | server.js:31-194 | every route keeps each entry stored under its own id |
| Wire.SplitLines | src/script.js:307 | `split('\n')` gives at least one piece, and no piece holds a line feed |
| Wire.JoinSplitLines | src/script.js:307 | splitting loses nothing: joining the pieces with line feeds gives the chunk back |
| Wire.SplitJoinLines | src/script.js:307 | splitting is exact: lines free of line feeds, once joined, split back into the same lines |
| Wire.SplitLinesAfterNewline | src/script.js:307 | text after a line feed starts a new line, so splitting distributes over a chunk that ends with a line feed |
| Wire.DataFieldsAppend | src/script.js:308-311 | `data:` field extraction works line by line: it distributes over the lines |
| Wire.LinePayloads | src/script.js:308-311 | the payloads of the first j+1 lines are those of the first j lines, then that of line j |
| Wire.StreamPayloadsPrefix | src/script.js:303-307 | the payloads of the first i+1 reads are those of the first i reads, then those of read i |
| Wire.FrameFields | server.js:99 | a chunk holding exactly one frame yields exactly that frame's JSON text |
| Client.Decimal | src/script.js:67 | the decimal text of a clock reading is non-empty and all digits |
| Client.ConversationKey | src/script.js:67 | a new conversation's key is `conv_` followed by at least one digit |
| Client.Push | src/script.js:215-219 | a push appends exactly the message and sets `updatedAt`, keeping the id, title and creation time |
| Client.TitleSeeds | src/script.js:221-224 | a push requests a title exactly when the conversation has just two messages and the default title, and then with the first message |
| Client.Step | src/script.js:312-338 | an error payload changes nothing stored; `done` replaces the text with the server's and stores it as one assistant message; content only extends the text |
| Client.ReplayAppend | src/script.js:303-342 | reading the stream in two pieces gives the same state as reading it whole |
| Client.ReplayAppendsAnswers | src/script.js:312-333 | the chat read loop appends exactly one assistant message per `done` payload without an error, in order, and keeps the id, title and earlier messages |
| Client.ReplayWithoutAnswer | src/script.js:312-313 | a stream with no `done` answer leaves the stored conversation and the title requests as they were |
| Client.ReplayTitleSeeds | src/script.js:320-330 | over the read loop, a title is requested at most once: when the conversation goes from fewer than two messages to two or more under the default title |
| Client.SentAppends | src/script.js:273-342 | sending stores the user message, then one assistant message per answer; with no answer, the user message is the only stored change |
| Client.SentTitleOnce | src/script.js:273-342 | over a whole send, a title is requested at most once, with the first message, and only on the transition to two messages under the default title |
| Client.TitleStep | src/script.js:258-259 | a title payload replaces the title only when it is `done` with a non-empty title |
| Client.TitleReplayAppend | src/script.js:249-267 | reading the title stream in two pieces gives the same title as reading it whole |
| Client.TitleReplayLast | src/script.js:249-267 | after the title loop, the title is the last one the stream carried, or the old one if it carried none |
| Client.FromEntries | src/script.js:43 | the parsed object lists each key once, its keys are exactly those of the saved members, and its first key is the first member's key (the key `loadConversations` falls back on) |
| Client.FromEntriesLastValue | src/script.js:43 | a key repeated among the saved members takes the value of its last member |
| Client.FromEntriesFirstSeen | src/script.js:43 | keys are listed in the order of their first member: a key named before the first member of another key is listed before it |
| Client.WithoutMembers | src/script.js:107 | deleting a key leaves exactly the other keys, keeps them distinct, and changes nothing when the key is absent |
| Client.WithoutOnce | src/script.js:107 | deleting a key that occurs once leaves the keys before it followed by the keys after it |
| Client.WithoutAppend | src/script.js:107 | deleting a key from a key list deletes it from each piece of the list in turn, so every other key keeps its place in the order |
| Client.WithoutAt | src/script.js:107-111 | deleting the key at position `i` of the distinct keys leaves the keys before it followed by the keys after it, so the first remaining key is the first key other than the deleted one |
| Client.ValuesInOrder | src/script.js:132 | `Object.values` lists the conversation under each key, in key order |
| Client.InsertByDate | src/script.js:132-134 | inserting by date adds exactly one element and keeps a newest-first list newest first |
| Client.NewestFirst | src/script.js:132-134 | the sort is a permutation of its input, and it is newest first |
| Client.RenderOrder | src/script.js:131-134 | the list shows every conversation of the cache, as many entries as keys, newest first |
| Client.ClientCache.constructor | src/script.js:8-9 | the cache starts empty, with no current conversation |
| Client.ClientCache.LoadConversation | src/script.js:78-102 | the given id becomes current and nothing stored changes; the cache stays valid exactly when the id names a conversation |
| Client.ClientCache.CreateNewConversation | src/script.js:66-76 | an empty conversation with the default title is stored under `conv_` + the clock; the key is appended unless already present; the new conversation becomes current |
| Client.ClientCache.LoadConversations | src/script.js:40-57 | the saved object, keys and values, is restored if there is one; the current conversation is the saved last id if it is non-empty and names one, else the first key; with no saved object, or an empty one, a new empty conversation with the default title is added under `conv_` + the clock and becomes current |
| Client.ClientCache.DeleteConversation | src/script.js:104-117 | after confirmation, the id is dropped and key order kept; if it was current, the first remaining key, or a new conversation, becomes current; without confirmation nothing changes |
| Client.ClientCache.RenameConversation | src/script.js:119-129 | with a truthy current id (set and not `""`), only a non-blank answer renames the current conversation, to its trim, refreshing `updatedAt`; otherwise nothing changes |
| Client.ClientCache.AddMessage | src/script.js:190-229 | with saving on and a truthy current id, the message is pushed with the right role and the title request it triggers is reported; otherwise nothing is stored |
| Client.ClientCache.GenerateTitle | src/script.js:237-271 | with a truthy current id, the current conversation's title becomes what the title fold gives over every payload of every read; with none, nothing changes; no other entry changes |
| Client.ClientCache.ReadTitleChunk | src/script.js:253-266 | one read of the title loop updates the title as the title fold gives over that read's payloads |
| Client.ClientCache.SendMessage | src/script.js:273-350 | blank input, or a falsy current id (unset or `""`), changes nothing; otherwise the current conversation, the shown text and the title requests are those of pushing the user message and folding the stream |
| Client.ClientCache.ReadChatChunk | src/script.js:307-341 | one read of the chat loop updates the conversation, the shown text and the title requests as the chat fold gives over that read's payloads |
| Escape.EscapeForAttribute | src/script.js:173-175 | the escaped text is longer than the input by one character per backtick and per dollar sign |
| Escape.EscapeForAttributeCharwise | src/script.js:174 | the two global replaces together prefix every backtick and every dollar sign with one backslash, and keep every other character in order |
| Escape.EscapeForAttributeRoundTrip | src/script.js:164 | text without backslashes or carriage returns is read back from the copy button unchanged |
| Escape.BackslashNCopiedAsNewline | src/script.js:164 | the code text `\n` (backslash, letter n) passes the escaper unchanged and is read back as a single line feed |
| Escape.BackslashDDropped | src/script.js:164 | the code text `\d` (backslash, letter d) passes the escaper unchanged and is read back as `d` alone |
| Escape.BackslashBacktickBreaksTemplate | src/script.js:164 | the code text `` \` `` escapes to text that is not a whole template body, so the button's handler breaks |
| Escape.EscapeForTemplate | src/script.js:173-175 | the corrected escaper writes at least one and at most two characters per input character |
| Escape.EscapeForTemplateRoundTrip | src/script.js:164 | whatever the code block holds, the corrected escaper's output is read back as exactly that text |
| Escape.EscapersAgree | src/script.js:173-175 | on text without backslashes or carriage returns, the corrected escaper and the original one agree |
| Sync.FramesFields | server.js:94-119 | frames written back to back are read back field by field, in order |
| Sync.ReadOfFrames | src/script.js:307-311 | one read of whole frames yields exactly the payloads of their events |
| Sync.WireRoundTrip | src/script.js:303-311 | however the frames are grouped into reads, the client acts on exactly the events the server wrote, in order |
| Sync.ReplayContents | src/script.js:334-336 | content events only extend the shown text, by the raw fragments |
| Sync.ReplayChatEvents | src/script.js:312-338 | over a whole chat stream, the client stores the cleaned answer as one assistant message when the stream ends normally, and stores nothing when it fails |
| Sync.ClientAddsChatTail | src/script.js:279-333 | a send adds to the client's conversation the user message, then the cleaned answer unless the stream failed |
| Sync.ServerAddsChatTail | server.js:57-113 | the chat route adds exactly those messages to the server's conversation |
| Sync.ChatSync | src/script.js:273-342 | the client appends exactly the messages the server appends; when both held the same messages before, they hold the same after |
| Sync.TitleReplayContents | src/script.js:258 | content events of the title stream leave the title unchanged |
| Sync.TitleSync | src/script.js:237-271 | the client's title becomes the server's cleaned title when generation ends normally with a non-empty title, and stays as it was otherwise |

## Left out

- The real model client is not modelled. The backend is a parameter, whose fragments and throw point are arbitrary. The model's failure case is a throw after some fragments; a throw before any fragment is the same with no fragments.
- JSON serialisation and parsing are parameters. An absent field is read as the empty string or `false`. Non-string ids, titles and messages are not modelled, and neither are prototype keys of the client's object (`__proto__` and the like).
- Concurrency is left out:
  - Requests on the server run one at a time.
  - Two chats interleaved on the same conversation are not modelled.
  - The client's `generateTitle` runs to completion when it is called, instead of concurrently with the chat read loop.
  - The current conversation does not change while a stream is being read.
- Strings are sequences of Unicode characters, not UTF-16 code units. So `substring(0, 50)` and `trim` are modelled on characters. Chunks are already decoded text: `TextDecoder` splitting a character across two reads is not modelled.
- Reads of partial frames are not covered by the cross-side lemmas. They require each read to hold whole frames. The client code drops a line cut across two reads, and the model of the client's loop does the same, because it splits each read on its own.
- Timestamps are integer readings of a clock, not ISO strings. Sorting compares them as numbers.
- Client.FromEntries: keys are listed in the order of their first member. JavaScript lists integer-like keys (such as `"7"`) first, in numeric order, which the model does not do. The keys the client makes, `conv_` followed by digits, are never integer-like.
- Client.NewestFirst: its stability, which `Array.prototype.sort` guarantees, is not proved. Only the order and the permutation are.
- Rendering is not modelled: the DOM, the theme, markdown, syntax highlighting, the message count label and the shown title.
- `localStorage` is not modelled as storage. The saved object is an argument of `LoadConversations`, and the writes after each change are not modelled.
- The HTML attribute layer of the copy button is not modelled. A `"` or `&` in the code changes the attribute before the script sees it. Escape.Cook reads back only the template-literal layer. It rejects `\x`, `\u` and decimal escapes other than `\0` rather than decoding them.
- Server.ConversationStore.Chat writes the conversation from a snapshot of the table taken after the lazy create. The source mutates the stored object in place. The two give the same table, since nothing else writes the table during the call.
- Express plumbing (headers, status codes beyond the reply kind, CORS, static files) and logging are not modelled.

## Findings

| source | as written | input that shows it | evidently intended | confidence | as-written member | corrected member |
|---|---|---|---|---|---|---|
| src/script.js:173-175 (used at src/script.js:164) | `escapeForAttribute` prefixes backticks and dollar signs with a backslash but leaves backslashes alone. Its output is placed between backticks in the copy button's handler, so it is read back as a template literal. | a code block holding `char c = '\n';` copies with a real line feed in place of `\n`, and one holding `/\d+/` copies as `/d+/`; a code block holding `` \` `` breaks the handler | the template-literal layer gives the code block back exactly: backslashes must be escaped too (and carriage returns, which template literals read as line feeds). Code holding `"` or `&` is still changed by the HTML attribute layer, which is not modelled (see Left out) | high, not executed | Escape.BackslashNCopiedAsNewline | Escape.EscapeForTemplateRoundTrip |
