# Streaming chat session — Dafny model

This project models the chat page of *DM My AI* (`app/page.tsx`): the handler that
submits the user's message, opens a socket to the chat backend, streams the
assistant's reply into the conversation chunk by chunk, and ends the reply when the
socket closes, fails, or falls quiet for 3000 ms. Every callback of that handler is a
transition of an immutable state record, driven by a closed set of events:

- `Edit(text)` — the input field changes.
- `Configure(id)` — a chat id arrives, from the page address or from provisioning.
- `Submit` — Enter or the Submit button.
- `Open`, `Chunk(data)`, `Close`, `Error` — the socket callbacks.
- `TimerFire` — the idle timer expires.

The record holds:

- the message log;
- the input text;
- the loading flag;
- the pending assistant index;
- whether the idle timer is armed;
- the chat id;
- the conversation snapshot that the socket sends once it opens.

A step also returns its effects: an alert with the page's exact notice text, a
connect request with the derived socket address, or a send of the snapshot.

Modules:

- `Messages`: turns, senders, and the "only grows" relation `Extends`.
- `Accumulator`: how a chunk is merged into the pending turn. Also the reference
  definition of "content chunks in arrival order, concatenated" (`Fragments`, `Join`).
- `Endpoint`: the socket address, as scheme, host and chat path.
- `Session`: state, events, effects, the callbacks, `Step` and `Run`.
- `SessionProperties`: properties over single steps and over event sequences.
- `Render`: the per-turn spinner flag handed to the markdown renderer.

Behaviour of the page worth knowing, all modelled as the code has it:

- A submission has no busy guard and no empty-text check. Enter calls the handler directly (`app/page.tsx:248-252`).
- The idle timer is armed only by content chunks. With no content, only a close or an error ends loading (`SentinelArmsNoTimer`).
- The timer can fire while the socket is still open. A later chunk then starts a second assistant turn, so one reply can be split (`GapSplitsReply`).
- The submit guard is JavaScript truthiness, so an empty chat id counts as no chat.
- The sentinel filter compares whole frames. A reply is independent of where it is cut into frames only while no frame is exactly `|INIT|`. The text `|INIT|` split over two frames is kept as content (`SentinelSplitIsContent`).

## Model

| member | source | states |
|---|---|---|
| Session.OnConfigure | app/page.tsx:73-77 | a non-empty id becomes the chat id; an empty one leaves the state identical; nothing but the chat id changes |
| Session.OnSubmit | app/page.tsx:141-160 | without a chat id (null or empty) the state is unchanged and only the configure notice is raised. With one, the log gains exactly the user's turn with the input text and the input is cleared. Loading is set, the pending index is cleared, the snapshot is the new log, and one connect to the chat address is requested. Timer and chat id are untouched |
| Session.OnChunk | app/page.tsx:169-204 | the exact sentinel leaves the state identical. Any other chunk arms the timer. With no pending turn it appends one assistant turn holding the chunk, pending at the new last index. With a pending turn it keeps the log length, that index and the turn's sender, and the turn's text becomes old text + chunk. Every other turn is identical. Input, loading, chat id and snapshot are unchanged |
| Session.Finalise | app/page.tsx:206-213 | the log is unchanged; loading, the pending index and the armed timer are all cleared; nothing else changes |
| Session.Step | app/page.tsx:141-223 | every transition keeps the pending index inside the log. Besides the submit handler and its socket callbacks (141-223), it carries `Edit` for the input field (244-246) and `Configure` for an arriving chat id (73-77) |
| SessionProperties.StepExtends | app/page.tsx:181-222 | a single transition only grows the log (`Extends`), and every turn other than the pending one is left identical |
| Session.Run | app/page.tsx:181-195 | over any event sequence the pending index stays a position of the log, so the updater's `updated[idx]` always finds a turn |
| Accumulator.Accept | app/page.tsx:181-197 | no pending turn: the log gains one assistant turn holding exactly the chunk, at the new last index. Pending turn: same length, that turn's text extended by the chunk, its sender kept. All other turns are identical |
| Accumulator.Fragments | app/page.tsx:170-173 | the content chunks in arrival order: never longer than the input. A text is among them iff it is one of the chunks and not exactly the sentinel. Empty iff every chunk is exactly the sentinel |
| Accumulator.SplitFrameInvariant | app/page.tsx:170-194 | splitting one frame `x + y` into frames `x` and `y` does not change the streamed reply, the joined content frames, when neither piece nor the whole is exactly the sentinel |
| Accumulator.SentinelSplitIsContent | app/page.tsx:170-173 | the sentinel text split over two frames is streamed as content, while the sentinel in one frame contributes nothing |
| Endpoint.SchemeFor | app/page.tsx:156 | the scheme is `wss:` iff the page protocol is `https:`, else `ws:` |
| Endpoint.StripScheme | app/page.tsx:157 | the result is a suffix of the address. What was removed is empty, `http://` or `https://`, and something is removed whenever the address starts with either |
| Endpoint.StripSchemeInvertsPrefix | app/page.tsx:157 | prefixing `http://` or `https://` to a host and stripping gives the host back |
| Endpoint.StripSchemeIdentity | app/page.tsx:157 | an address is left unchanged iff it starts with neither scheme |
| Endpoint.Host | app/page.tsx:157-158 | the host is never empty |
| Endpoint.HostDefaultsExactly | app/page.tsx:157-158 | the host is `localhost:8000` when the address is absent, empty, or exactly a scheme; otherwise it is the stripped address |
| Endpoint.ChatUrl | app/page.tsx:155-160 | the address is longer than scheme, `//` and chat path together |
| Endpoint.ChatUrlParts | app/page.tsx:155-160 | the address splits back into scheme + `//`, the host, and `/constella-external-api/chat-with-user/` + chat id |
| Endpoint.ChatUrlSecureIff | app/page.tsx:156 | the address starts with `wss://` iff the page protocol is `https:`, and with `ws://` otherwise |
| SessionProperties.InitValid | app/page.tsx:67-71 | the initial page state satisfies the reachable-state invariant |
| SessionProperties.StepPreservesValid | app/page.tsx:141-223 | every transition keeps the invariant. A pending turn is the last turn and is the assistant's. While loading, a trailing assistant turn is the pending one |
| SessionProperties.RunPreservesValid | app/page.tsx:141-223 | the invariant holds after any event sequence |
| SessionProperties.RunExtends | app/page.tsx:181-222 | messages are never rolled back. Over any event sequence no turn is removed, reordered, re-attributed or shortened |
| SessionProperties.StreamedTurn | app/page.tsx:169-204 | chunks arriving with no pending turn add at most one assistant turn. Its text is the non-sentinel chunks concatenated in arrival order. Only the timer flag and pending index change otherwise |
| SessionProperties.StreamExtendsPending | app/page.tsx:189-195 | chunks arriving while a turn is pending extend that turn by the content chunks in order; every other turn is unchanged |
| SessionProperties.SubmitThenOpenSends | app/page.tsx:147-166 | the payload sent on open is exactly the earlier log plus the user's new turn |
| SessionProperties.ConfigureThenSubmitConnects | app/page.tsx:73-77 | after a non-empty chat id is configured, a submission is accepted, sets loading and connects to that chat's address |
| SessionProperties.SubmitWithoutChatIsInert | app/page.tsx:142-145 | without a chat id a submission changes no state and neither connects nor sends |
| SessionProperties.Exchange | app/page.tsx:141-223 | after submit, open, a chunk stream, then close, error or a timer firing after content, the log is the earlier turns + the user turn + at most one assistant turn of all content in order. Loading, pending index and timer are cleared |
| SessionProperties.FinaliseIdempotent | app/page.tsx:200-221 | once a close, error or timer firing has ended the turn, a further close, error or firing changes no state, and a further error still raises the connection-error notice; finalising never touches the log |
| SessionProperties.ErrorKeepsPartialReply | app/page.tsx:215-223 | an error after chunks "Hel" and "lo" keeps the turn "Hello", raises the connection-error notice and clears loading. The next submission is accepted |
| SessionProperties.GapSplitsReply | app/page.tsx:199-203 | if the idle timer fires between two content chunks, the second starts a new assistant turn |
| SessionProperties.SentinelArmsNoTimer | app/page.tsx:170-178 | after a submission followed only by the sentinel, no timer is armed: a firing changes nothing and loading stays on |
| Render.Spinning | app/page.tsx:360-364 | in every reachable state a turn shows the spinner iff loading is on and it is the pending turn |
| Render.SpinnerUnique | app/page.tsx:360-364 | at most one turn shows the spinner at a time |
| Render.NoSpinnerAfterFinalise | app/page.tsx:360-364 | after a close, error or timer firing no turn shows the spinner |

## Left out

- The socket itself and `setTimeout`'s wall-clock timing. The 3000 ms timer is a flag, and its expiry is the `TimerFire` event. That event changes nothing when no timer is armed.
- React state batching, `useRef` and `useEffect`. Each callback is one atomic transition. In the page, the chunk updater (`app/page.tsx:181-196`) reads the pending-index ref only when React runs it, while the timer, close and error handlers clear the ref at once (`app/page.tsx:202,212,221`). A finalisation that lands between queued updates could therefore start a second assistant turn and leave the ref set. The model cannot express that interleaving: `Valid`, `StreamedTurn` and `ErrorKeepsPartialReply` hold for atomic callbacks only.
- `console.error` is omitted. `alert` is the `Alert` effect carrying the page's notice text.
- The `JSON.stringify({ messages })` framing. The payload is the message sequence itself.
- The `streamedResponse` accumulator (`app/page.tsx:168,180`). Nothing reads it.
- `handleCreateChat` (`app/page.tsx:86-118`). It is an HTTP request plus browser dialogs. Its only effect on the core is a chat id, which enters as `Configure`.
- Overlapping exchanges. Nothing stops a second submission while a reply streams. The earlier socket and its idle timer then stay alive and keep writing to the shared log, pending index and loading flag. The model treats every socket event as belonging to one exchange and keeps a single timer flag. In the code, a submission during streaming can leave two timers armed.
- Session.Step: requires the pending index to lie inside the log. The code would throw in the state updater otherwise, and `Run` proves the condition always holds.
- `app/layout.tsx`, `app/AppWrappers.tsx` and `src/components/navbar/NavbarAdmin.tsx`. They are layout, theming and scroll listeners.
- `src/components/ChatMarkdown.tsx`. It delegates to a markdown library and a syntax highlighter.
