# chat_app in Dafny

A model of the chat application's message paths:

- **The web client.**
  - The chat input box trims what was typed, refuses blank input, clears itself after sending, and sends on Enter unless Shift is held.
  - The page appends the user's record and an empty bot placeholder, and streams the backend's reply into the placeholder chunk by chunk. Any failure replaces the placeholder text with a fixed apology.
- **The Slack bot.** It strips `<@ID>` mentions from the event text, asks the backend, and replies as `<@user>, response`. A failed backend call is answered with a fixed fallback.
- **The FastAPI backend.** It keeps only the present, non-empty deltas of the bot's event stream. The streaming endpoint sends them as they come. The non-streaming endpoint joins them, and maps any exception to HTTP 500.

Modules, one per concern:

| module | file | what it holds |
|---|---|---|
| `Wrappers` | wrappers.dfy | `Option`, `Result` |
| `Strings` | strings.dfy | the ECMAScript whitespace set, `String.prototype.trim`, chunk concatenation |
| `Http` | http.dfy | the `ok` flag of a response, derived from its status |
| `Conversation` | conversation.dfy | the message record, the welcome message, the update-by-id `map` |
| `Page` | page.dfy | the read loop, and the `Home` class (`messages`, the accumulated response) with `handleChunk`, `fetchBotResponseStreaming`, `handleSendMessage` |
| `Input` | chat_input.dfy | the `ChatInput` class (`input` field) with `handleSubmit`, `onKeyDown`, `onChange`, the disabled rule |
| `Slack` | slack.dfy | the one-pass mention scanner, `fetchBotResponse`, reply composition, the `app_mention` handler |
| `Backend` | backend.dfy | `stream_processor`, `process_message_async`, `process_message` |

Imperative code is modelled as classes and methods with loops:
- `Home` and `ChatInput` are classes, because the source updates their state in place.
- The read loop of `fetchBotResponseStreaming` and the accumulation loop of `process_message` are `while` loops. Each is proved against a pure function: `ReadLoop` and `StreamProcessor`/`Concat` respectively.

The page's `Home` also keeps a ghost list `written`, holding every text `handleChunk` has put into the placeholder. This lets the model state that the placeholder only ever grows during a turn.

Three places where the code behaves differently from what it seems to intend; the model follows the code:
- The apology the page writes is the plain string `"Sorry, I encountered an error. Please try again later. ${_error}"`. It is not a template literal, so `${_error}` appears verbatim.
- `if (value)` is true for any `Uint8Array`, even an empty one, so every read that carries a value calls `onChunk`. This includes a value decoding to `""`, and a value on the read that reports done.
- `generate_bot_response` is an async generator function. Calling it cannot raise, so the `except` of `process_message_async` never runs. An exception during streaming ends the body early instead of producing HTTP 500.

## Model

| member | source | states |
|---|---|---|
| `Http.OkStatus` | WebApp/src/app/page.tsx:41 | `response.ok` holds exactly for statuses of the 2xx class |
| `Strings.Trim` | WebApp/src/components/ChatInput.tsx:14-15 | the result has no whitespace at either end; it is no longer than the input; it is empty exactly when the input is all whitespace |
| `Strings.TrimPadding` | WebApp/src/components/ChatInput.tsx:14-15 | trimming whitespace padding away from an already trimmed text gives that text back |
| `Strings.TrimInfix` | WebApp/src/components/ChatInput.tsx:14-15 | every input is its trimmed text with whitespace-only padding on each side, so trim removes nothing else |
| `Strings.TrimTrimmed` | WebApp/src/components/ChatInput.tsx:14-15 | a text with no whitespace at either end is its own trimmed text |
| `Strings.TrimLeading` | SlackApp/app.ts:46 | whitespace in front of a trimmed text is removed and nothing else |
| `Strings.TrimIdempotent` | WebApp/src/components/ChatInput.tsx:15 | trimming the trimmed text changes nothing |
| `Strings.Concat` | BackEnd/main.py:91-94 | the chunks joined in order as `+=` builds them; a single chunk is joined to itself |
| `Strings.ConcatEmpty` | BackEnd/main.py:91-94 | the joined text is empty exactly when every chunk is |
| `Strings.ConcatJoin` | BackEnd/main.py:91-94 | concatenating joined chunk lists is concatenating each list and joining the results |
| `Input.SubmitKey` | WebApp/src/components/ChatInput.tsx:35 | only Enter submits; Shift+Enter never does; Enter without Shift always does |
| `Input.Submission` | WebApp/src/components/ChatInput.tsx:14-15 | nothing is sent exactly when the input is all whitespace; otherwise the message sent is the trimmed input, which is non-empty and trimmed |
| `Input.SendDisabled` | WebApp/src/components/ChatInput.tsx:46 | the button is disabled exactly when the input is all whitespace |
| `Input.DisabledIffNothingSent` | WebApp/src/components/ChatInput.tsx:46 | the button is disabled exactly when submitting would send nothing |
| `Input.ChatInput.constructor` | WebApp/src/components/ChatInput.tsx:10 | the box starts empty and nothing has been sent |
| `Input.ChatInput.Change` | WebApp/src/components/ChatInput.tsx:27-28 | the input becomes the new value; nothing is sent |
| `Input.ChatInput.Submit` | WebApp/src/components/ChatInput.tsx:12-18 | blank input: nothing is sent and the input is kept; otherwise the trimmed input is sent once and the box is cleared; everything ever sent is non-empty and trimmed |
| `Input.ChatInput.KeyDown` | WebApp/src/components/ChatInput.tsx:33-39 | Enter without Shift submits exactly as `Submit`; any other key, Shift+Enter included, sends nothing and changes nothing |
| `Conversation.UpdateText` | WebApp/src/app/page.tsx:96-101 | same length and order; ids and senders kept; every record with the id gets the new text; every other record is unchanged |
| `Conversation.UpdateAbsentId` | WebApp/src/app/page.tsx:96-101 | an update for an id no record has leaves the list unchanged |
| `Conversation.UpdateTwice` | WebApp/src/app/page.tsx:96-101 | of two updates of the same id, only the later one shows |
| `Conversation.UpdateJoin` | WebApp/src/app/page.tsx:96-101 | the update works record by record, so it distributes over joining two lists |
| `Page.Carried` | WebApp/src/app/page.tsx:59-61 | a read passes on at most one chunk; it passes one on exactly when it carries a value, empty or not, and that chunk is the value |
| `Page.Values` | WebApp/src/app/page.tsx:55-63 | the values of a list of reads number at most one per read, and include every value a read carries |
| `Page.ReadLoop` | WebApp/src/app/page.tsx:55-63 | it delivers at most one chunk per read; the only error it can end with is a failed read, and reads that never throw end without error |
| `Page.Streaming` | WebApp/src/app/page.tsx:33-49 | a failed request, a status outside 200-299 or a missing reader delivers no chunk and ends in an error; a non-ok status is reported with its status code |
| `Page.ReadLoopStopsAtFirstTerminal` | WebApp/src/app/page.tsx:55-63 | nothing after the first read that reports done or throws is read; the chunks delivered are exactly the values up to that read; a throwing read ends in a read error |
| `Page.ReadLoopNoTerminal` | WebApp/src/app/page.tsx:55-63 | with no terminal read, the loop delivers every value and ends without error |
| `Page.Running` | WebApp/src/app/page.tsx:92-102 | one written text per chunk; the one written after a chunk is the starting accumulator followed by every chunk up to it |
| `Page.RunningGrows` | WebApp/src/app/page.tsx:92-102 | each text written to the placeholder extends the one before; all of them lie between the starting accumulator and the final one; the last is the start followed by every chunk |
| `Page.ReplyText` | WebApp/src/app/page.tsx:87-119 | a failed request, a non-ok status or a missing reader ends in the apology; a body whose reads never throw ends in the chunks it delivers, joined |
| `Page.TurnResult` | WebApp/src/app/page.tsx:67-120 | a turn keeps every earlier record's id and sender in place and appends the user's record and the placeholder, with their ids and senders |
| `Page.TurnAppendsTwo` | WebApp/src/app/page.tsx:67-120 | a turn adds exactly two records; the placeholder ends with the apology after any error, otherwise with all chunks joined; the user record is intact when its id differs from the placeholder's; earlier records are intact when none shares the placeholder's id |
| `Page.SilentReadLoop` | WebApp/src/app/page.tsx:55-63 | reads that carry no value and do not throw deliver nothing and end without error |
| `Page.EmptyStreamLeavesEmptyPlaceholder` | WebApp/src/app/page.tsx:76-85 | an ok response whose reads carry no value and do not throw, however many, leaves the placeholder empty and raises no error |
| `Page.FailedRequestApologises` | WebApp/src/app/page.tsx:107-118 | a status-500 response leaves the welcome message, the user's record and the placeholder holding the apology |
| `Page.ReadFailureApologises` | WebApp/src/app/page.tsx:87-119 | a read that throws after any number of chunks ends the stream in a read error; the placeholder then holds the apology, whatever had accumulated, and the user record is intact when its id differs |
| `Page.SingleChunkTurn` | WebApp/src/app/page.tsx:67-120 | asking "2+2?" with the one-chunk reply "4" leaves the welcome message, the question and the answer |
| `Page.Handled` | WebApp/src/app/page.tsx:92-103 | once a chunk has been handled, every record with the placeholder's id holds the accumulator; every other record is unchanged; no record is added or removed |
| `Page.TurnFromHandled` | WebApp/src/app/page.tsx:87-119 | once the chunks are handled for the fresh placeholder from an empty accumulator, the turn is complete when there is no error; on an error one apology update completes it |
| `Page.Home.constructor` | WebApp/src/app/page.tsx:15-21 | the page starts with the welcome message alone |
| `Page.Home.HandleChunk` | WebApp/src/app/page.tsx:92-103 | the accumulator grows by the chunk; the placeholder's record is rewritten with the whole accumulator; every earlier written text is a prefix of the new one |
| `Page.Home.FetchBotResponseStreaming` | WebApp/src/app/page.tsx:29-64 | the chunks of `Streaming` are handled in order: the accumulator ends as all of them joined, the placeholder as that text, and the written texts as the running prefixes; its error is the one the function throws |
| `Page.Home.ReadBody` | WebApp/src/app/page.tsx:51-63 | the loop's handled chunks and error are exactly those of `ReadLoop` |
| `Page.Home.HandleSendMessage` | WebApp/src/app/page.tsx:67-120 | the messages after the turn are `TurnResult`; the accumulator holds all delivered chunks joined; the written texts grow monotonically from the empty text |
| `Slack.MentionAt` | SlackApp/app.ts:46 | a non-zero result is the length of a match of `<@[A-Z0-9]+>` at the front; no other prefix length matches |
| `Slack.IsMention` | SlackApp/app.ts:46 | a match of `<@[A-Z0-9]+>` has its only `<` at the front and its only `>` at the end |
| `Slack.RemoveMentions` | SlackApp/app.ts:46 | the result is never longer than the text |
| `Slack.StripMentions` | SlackApp/app.ts:46 | the text sent to the backend has no whitespace at either end and is never longer than the event text |
| `Slack.MentionOf` | SlackApp/app.ts:46 | `<@id>` is a match for every non-empty id of upper-case letters and digits |
| `Slack.LeadingMentionRemoved` | SlackApp/app.ts:46 | a match is removed completely and scanning resumes right after it |
| `Slack.LeadingCharKept` | SlackApp/app.ts:46 | a character at which no match starts is copied to the output |
| `Slack.NoMentionUnchanged` | SlackApp/app.ts:46 | text containing no match is left unchanged by the removal pass |
| `Slack.NoBracketUnchanged` | SlackApp/app.ts:46 | text without `<` is left unchanged by the removal pass |
| `Slack.NoOpeningBracketOnlyTrimmed` | SlackApp/app.ts:46 | text without `<` is only trimmed |
| `Slack.LeadingTokenThenPlain` | SlackApp/app.ts:46 | a leading mention followed by text without `<` leaves just that text, trimmed |
| `Slack.MentionThenQuestion` | SlackApp/app.ts:46 | a mention, then whitespace, then a trimmed question without `<`: the question alone is sent |
| `Slack.LeadingMentionExample` | SlackApp/app.ts:46 | `<@U123ABC> hello there` becomes `hello there` |
| `Slack.NestedMentionRemoved` | SlackApp/app.ts:46 | a match right after `<@` is removed while that `<@` is kept |
| `Slack.NestedTokenPass` | SlackApp/app.ts:46 | the removal pass turns `<@<@a>b>` into `<@b>` |
| `Slack.NestedTokenJoins` | SlackApp/app.ts:46 | the one global pass does not rescan its output: `<@<@a>b>` is stripped to `<@b>`, a new mention |
| `Slack.LoneMentionRemoved` | SlackApp/app.ts:46 | a text that is a single mention is stripped to the empty text |
| `Slack.SinglePassExample` | SlackApp/app.ts:46 | `<@<@A>B>` becomes `<@B>` |
| `Slack.SecondPassExample` | SlackApp/app.ts:46 | `<@B>` on its own is removed |
| `Slack.StripNotIdempotent` | SlackApp/app.ts:46 | some text is changed by stripping it a second time |
| `Slack.NoIdKept` | SlackApp/app.ts:46 | `<@` not followed by an id character starts no match, so it is kept with the text after it when that text has no `<` |
| `Slack.OpenerWithoutIdKept` | SlackApp/app.ts:46 | `<@` not followed by an id character, then text without `<` or trailing whitespace, is left exactly as it is |
| `Slack.EmptyIdKept` | SlackApp/app.ts:46 | `<@>` is not a mention and is kept |
| `Slack.UnmatchedOpenerKept` | SlackApp/app.ts:46 | `<@` followed by text without `<` is left by the removal pass when no match starts at its `<` |
| `Slack.NonIdTokenNoMatch` | SlackApp/app.ts:46 | a token whose id has a character outside `[A-Z0-9]` and no `<` or `>` starts no match |
| `Slack.NonIdTokenKept` | SlackApp/app.ts:46 | such a token, `<@u1>` or `<@U1a>` say, is not a mention and is kept |
| `Slack.FetchBotResponse` | SlackApp/app.ts:20-40 | a status in 200-299 with a parseable body gives the body's `response`; a network error, any other status or an unparseable body gives the fixed fallback |
| `Slack.ComposeReply` | SlackApp/app.ts:52 | the reply is `<@user>, ` followed by the response, unchanged |
| `Slack.HandleMention` | SlackApp/app.ts:43-59 | the backend gets the stripped text; the first post is the composed reply; when that post fails, a second post carries the fixed apology, addressed the same way |
| `Slack.RepliesAddressUser` | SlackApp/app.ts:52-57 | every text the handler posts starts with `<@user>, ` |
| `Backend.Yielded` | BackEnd/main.py:92 | the items iterated are the `Yield` steps in front of the first `Raise`, in order; the iteration stops short exactly when the generator raises |
| `Backend.Raises` | BackEnd/main.py:92 | the iteration raises exactly when some step raises |
| `Backend.Usable` | BackEnd/main.py:54 | a chunk is skipped exactly when it has no delta, or its delta is `None` or the empty string |
| `Backend.StreamProcessor` | BackEnd/main.py:53-55 | it yields at most one text per chunk, and never an empty one |
| `Backend.StreamProcessorJoin` | BackEnd/main.py:53-55 | filtering joined chunk lists is filtering each list and joining the results |
| `Backend.StreamProcessorMember` | BackEnd/main.py:53-55 | a text is yielded exactly when some chunk carries it as a non-empty delta |
| `Backend.UnusableChunkIgnored` | BackEnd/main.py:53-55 | a chunk with no delta, or an empty one, contributes nothing wherever it stands |
| `Backend.EmptyResponseIffNoDelta` | BackEnd/main.py:89-96 | the complete response is empty exactly when no chunk has a non-empty delta |
| `Backend.ProcessMessageAsync` | BackEnd/main.py:57-75 | the media type is `text/event-stream`; the body is cut short exactly when the generator raises; the body is the filter's output on the items yielded before that, so it holds the non-empty deltas in order, each as often as it was yielded |
| `Backend.ProcessMessage` | BackEnd/main.py:78-101 | if the generator raises, the result is HTTP 500 "Error processing message"; otherwise it is the non-empty deltas joined in order |

## Left out

- `TextDecoder` (WebApp/src/app/page.tsx:52,60): each read's value is modelled as already decoded text. A multi-byte character split across reads is not modelled.
- `fetch`, HTTP, JSON and the network: each is a parameter describing its outcome. For the page this is `StreamResponse`; for the Slack bot, `BackendReply`. The request bodies and `API_URL` are not modelled.
- `Date.now()` (WebApp/src/app/page.tsx:70,77): the user and bot ids are parameters. Nothing is claimed about their uniqueness; lemmas that need distinct ids take it as a hypothesis.
- React's asynchronous state updates: each `setMessages` is applied at once, in program order. Interleaved turns are not modelled.
- The page's scroll effect, the textarea auto-resize, `preventDefault`, and all rendering: these are UI only.
- A list of reads that runs out is treated as done. A read that never settles, which would leave the placeholder with its partial text, is not modelled.
- `Page.ReadLoop`: a read that throws is modelled as a failed read, after which the loop stops. Which exception is thrown is not modelled.
- `Slack.FetchBotResponse`: only a parseable body whose `response` is a string is modelled. JavaScript returns whatever `data.response` is and posts it as a string (`undefined` when the field is missing), and a `null` body makes reading the field throw, which gives the fallback.
- `Slack.HandleMention`: a failure of the apology post itself would escape the handler and is not modelled. The thread, the client and `console.error` are not modelled.
- `Backend.ProcessMessageAsync`: the server's behaviour after a mid-stream exception is modelled only as a body that ends early.
- BackEnd/bot_logic.py, and the event stream it produces, is not part of this model. Its output is the `Step` sequence each endpoint is given.
- WebApp/src/components/Message.tsx and WebApp/src/components/MessageList.tsx are presentation only and not part of this model.
- The Slack app's start-up, environment variables and Socket Mode connection, and the FastAPI root endpoint, CORS setup and logging, are configuration and I/O.
