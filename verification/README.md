# JPChat: message assembly and the chat turn, in Dafny

JPChat is a small web chat front-end over a hosted chat-completion API. Two
pieces of it hold sequential logic, and this project models both as pure
functions over immutable datatypes and proves properties of them.

- **The completion endpoint** (`app/api/chat-direct/route.ts`, module
  `ChatDirect`). It coerces the request body's `messages` field to a list:
  anything but an array is empty. It looks for a system message with
  `find`. If there is none, it prepends the fixed JPChat persona. It then
  passes the list to the provider and returns the first choice's text, or
  `""`. Every thrown error becomes a plain `500 Internal Server Error`, and
  GET answers `405`. The provider is a function parameter
  `seq<Entry> -> UpstreamResult`.
- **The chat page** (`app/chat/page.tsx`, module `ChatPage`). It holds a
  transcript, the input text and a loading flag. Blank input (after
  JavaScript `trim`, module `Text`) is ignored. Otherwise the trimmed text
  is appended as a timestamped user message and the whole transcript is
  posted. Exactly one assistant message follows: the reply, or a fixed
  apology on any failure. Loading is cleared either way.
- **Both together** (module `Conversation`). Every transcript the page can
  hold contains only user and assistant messages. So the endpoint always
  forwards it as the persona followed by the transcript in order, and the
  persona is the only system message.

Some things the model makes explicit:

- The fallback at route.ts:24-30 suggests an empty list was meant to go
  upstream as a two-message seed. It never does, because the list before
  it always has at least one element: an empty input is sent as the
  persona alone (`SeedBranchUnreachable`, `EmptyIncomingSendsPersonaOnly`).
  The model keeps the branch exactly as written.
- A list sent upstream does not always begin with exactly one system
  message. A system message at a later index, or several of them, pass
  through unchanged (`PersonaPrependedIffNoSystem`). Everything the page
  sends does begin with exactly one, the persona (`NextRequestGetsPersona`).
- JavaScript's `trim` is modelled with the exact set of characters
  ECMA-262 strips: WhiteSpace (tab, vertical tab, form feed, the
  byte-order mark and the Unicode space separators) and LineTerminator
  (line feed, carriage return, U+2028, U+2029) (`Text.IsWhitespace`, `Text.WhitespaceIsEcmaSet`).
- The endpoint's element type is only a compile-time annotation. A `null`
  element reached by `find` before any system message makes `m.role` throw,
  and the result is the 500 response (`FindSystem`, `Post`). A `null` after
  the first system message is never read by `find`.
- `handleSubmit` itself does not check the loading flag. Only the disabled
  button and input prevent a second submission (`CanSubmitIffRequest`).

Files: `wrappers.dfy` (Option), `messages.dfy` (roles, messages and the
persona text), `text.dfy` (trim), `chat_direct.dfy`, `chat_page.dfy` and
`conversation.dfy`.

## Model

| member | source | states |
|---|---|---|
| ChatDirect.Incoming | app/api/chat-direct/route.ts:7-11 | The incoming list is the body's `messages` array when it is one, and empty for an unparsable body, a missing field or a non-array value |
| ChatDirect.FindSystem | app/api/chat-direct/route.ts:21 | `find` reports Found exactly when some element is a system message with no `null` before it, and NotFound exactly when no element is a system message or `null`; otherwise it throws |
| ChatDirect.Assemble | app/api/chat-direct/route.ts:21-30 | With a system message anywhere, the list is forwarded unchanged; without one, the persona is prepended and the order is kept; the length grows by one exactly when the persona is added; it fails only when `find` throws |
| ChatDirect.ReplyText | app/api/chat-direct/route.ts:41 | The reply is the first choice's content when choices, the first choice, its message and its content all exist, and `""` when any of them is missing |
| ChatDirect.Post | app/api/chat-direct/route.ts:5-50 | The list sent upstream is the assembled list; the status is 200 exactly when assembly succeeds and the provider returns, with the reply text as payload; every other outcome is exactly the plain-text 500 response, with no reply |
| ChatDirect.Get | app/api/chat-direct/route.ts:52-54 | GET always answers 405 with a plain-text body |
| ChatDirect.BaseMessages | app/api/chat-direct/route.ts:22 | With a system message the base list is the incoming list; without one it is one longer, the persona followed by the incoming list in order (that it is then never empty is `SeedBranchUnreachable`) |
| ChatDirect.SeedMessages | app/api/chat-direct/route.ts:27-30 | The fallback seed is two messages: the persona, then a user greeting |
| ChatDirect.ReplyTextFirstChoiceOnly | app/api/chat-direct/route.ts:41 | The reply depends only on the first choice: choices after it never change it, and it is empty exactly when the first content is missing or empty |
| ChatDirect.SeedBranchUnreachable | app/api/chat-direct/route.ts:21-30 | The base list is never empty, so the seed is never chosen and the list sent is the base list |
| ChatDirect.EmptyIncomingSendsPersonaOnly | app/api/chat-direct/route.ts:22-30 | An empty incoming list is sent as the persona alone, which differs from the two-message seed |
| ChatDirect.NonArrayBodySendsPersona | app/api/chat-direct/route.ts:7-22 | An unparsable body or a missing or non-array `messages` field sends exactly the persona upstream |
| ChatDirect.PersonaPrependedIffNoSystem | app/api/chat-direct/route.ts:21-22 | For a list with no `null`: the persona is prepended if and only if no element is a system message, and the list is left exactly as it is if and only if one is, at any index |
| Text.Trim | app/chat/page.tsx:27 | `trim` returns a contiguous slice of the input whose removed prefix and suffix are all whitespace and whose own ends are not; it is empty exactly when the input is all whitespace |
| Text.WhitespaceIsEcmaSet | app/chat/page.tsx:27 | A character is stripped by `trim` exactly when its code point is one of ECMA-262's LineTerminator, space-separator or other WhiteSpace code points, listed one by one |
| Text.TrimUnique | app/chat/page.tsx:27 | Any middle with non-whitespace ends, between an all-whitespace prefix and suffix, is what `trim` returns |
| Text.TrimIdempotent | app/chat/page.tsx:27 | Trimming an already trimmed text changes nothing |
| ChatPage.Submit | app/chat/page.tsx:25-33 | Blank input leaves the state unchanged and issues no request; otherwise the old transcript is kept as a prefix, one user message with the trimmed text and the current time is appended, the input is cleared, loading is set and the request payload is exactly the new transcript |
| ChatPage.CanSubmit | app/chat/page.tsx:182 | The submit button is enabled exactly when the page is idle and the input is not all whitespace |
| ChatPage.SuccessReply | app/chat/page.tsx:42-50 | A turn succeeds exactly when the response is ok and its body parses, and the reply is the `reply` field or `""` when absent |
| ChatPage.Resolve | app/chat/page.tsx:35-64 | The posted transcript gains exactly one assistant message: the reply with no timestamp on success, the apology with the current time on any failure; loading is cleared and the input is left alone |
| ChatPage.Turn | app/chat/page.tsx:25-64 | A whole submission: blank input leaves the page as it was; any other input ends with the page idle, the input empty and the transcript two messages longer |
| ChatPage.TurnAppendsExchange | app/chat/page.tsx:25-64 | A completed turn keeps the old transcript as a prefix and grows it by exactly two messages, the user message then an assistant message, ending idle with an empty input; blank input changes nothing |
| ChatPage.CanSubmitIffRequest | app/chat/page.tsx:182 | The submit button is enabled exactly when the page is idle and submitting would issue a request |
| ChatPage.AppendExchangeAlternates | app/chat/page.tsx:30-60 | Appending one user message and then one assistant message to an alternating, system-free transcript keeps it alternating and system-free |
| ChatPage.TurnPreservesAlternating | app/chat/page.tsx:30-53 | A turn from an idle page keeps the transcript alternating user and assistant messages, free of system messages, and the page idle |
| ChatPage.RunAlternates | app/chat/page.tsx:25-65 | Any sequence of typed inputs and settled requests keeps those properties, so every transcript reached from the empty page alternates user and assistant |
| Conversation.Wire | app/chat/page.tsx:39 | The posted JSON array holds each transcript message, in order, as a message object |
| Conversation.PageTranscriptGetsPersona | app/api/chat-direct/route.ts:21-22 | A page transcript reaches the provider as the persona followed by the transcript, and the persona is its only system message |
| Conversation.NextRequestGetsPersona | app/chat/page.tsx:30-39 | After any turns, the next non-blank submission reaches the provider as the persona, the old transcript and the new user message, with the persona the only system message |

## Left out

- The provider call itself: client construction, the API key, the model name, `max_tokens` and `temperature` (route.ts:32-39). It is a foreign network library. The model replaces it with an arbitrary function from the sent list to a completion or a failure.
- ChatDirect.Post: the 200 payload carries only `reply`; the provider's `usage` object, which is passed through opaquely, is not modelled.
- Error logging with `console.error` (route.ts:44, 46; page.tsx:61) has no effect on the response or on the state.
- Reading `err.response.text()` (route.ts:45-46): if an error carried a `response` whose `text()` rejected, the catch block would itself throw and no plain 500 would be returned. The provider's client library throws errors without a `response` field, so this branch is not reached, and the model's every failure is the plain 500.
- `fetch`, `res.text()` and `res.json()` (page.tsx:36-47) are network and JSON I/O. They appear only as the outcome they produce: ok or not, and a body that parses with an optional `reply` or does not. The error text read at page.tsx:43 is discarded by the catch block and is not modelled.
- `Date.now()` is a parameter (`now`, `later`).
- Rendering, markdown, the scroll effect and `formatTime` (page.tsx:16-23, 67-197) are presentation only.
- React's asynchronous state updates are modelled as sequential transitions. `Resolve` appends to the transcript that was posted, as the handler's captured `next` does.
- Message contents that are not strings, and `reply` values that are not strings, are assumed already stringified (`toString` at page.tsx:48).
