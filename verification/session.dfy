/** The streaming-reply state machine of the chat page (`handleTranslate` and the
    socket callbacks it installs, app/page.tsx). Each callback is one atomic
    transition of an immutable state record; the socket, the idle timer and the
    browser are represented by the events they deliver and the effects they receive. */
module Session {

  import opened Wrappers
  import opened Messages
  import Accumulator
  import Endpoint

  /** Notice shown when a message is submitted before a chat is configured. */
  const NotConfiguredNotice: string := "Please configure the chat from the settings first."
  /** Notice shown when the socket reports an error. */
  const ConnectionErrorNotice: string := "An error occurred with the chat connection."

  /** What the page reads from its surroundings when it opens a socket:
      `window.location.protocol` and the configured backend address, if any. */
  datatype Env = Env(protocol: string, backendUrl: Option<string>)

  /** The page's state.
      - `pendingIdx`: the assistant turn currently receiving chunks, if any.
      - `timerPending`: the 3000 ms idle timer is armed and has not fired or been cleared.
      - `snapshot`: the conversation captured at the last submission; it is what the
        socket sends once it opens. */
  datatype State = State(
    messages: seq<Message>,
    input: string,
    loading: bool,
    pendingIdx: Option<nat>,
    timerPending: bool,
    chatId: Option<string>,
    snapshot: seq<Message>)

  /** The closed set of callbacks that drive the page. */
  datatype Event =
    | Edit(text: string)       // the input field changed
    | Configure(id: string)    // a chat id arrived (from the page address or provisioning)
    | Submit                   // Enter or the Submit button
    | Open                     // the socket opened
    | Chunk(data: string)      // one inbound text frame
    | TimerFire                // the idle timer expired
    | Close                    // the socket closed
    | Error                    // the socket reported an error

  /** What a transition asks of the outside world. */
  datatype Effect =
    | Alert(notice: string)
    | Connect(url: string)
    | Send(payload: seq<Message>)

  datatype Reaction = Reaction(state: State, effects: seq<Effect>)

  /** The page starts with an empty conversation and no chat configured. */
  const Init: State := State([], "", false, None, false, None, [])

  /** JavaScript truthiness of the chat id: `null` and `""` both count as absent. */
  predicate HasChat(chatId: Option<string>)
  {
    chatId.Some? && chatId.value != ""
  }

  /** The pending index names a turn of the log; the source indexes the log with it. */
  predicate PendingInRange(s: State)
  {
    s.pendingIdx.Some? ==> s.pendingIdx.value < |s.messages|
  }

  /** The invariant of every reachable state: the pending turn, if any, is the last
      turn and is the assistant's; and while loading, a trailing assistant turn is
      always the pending one. */
  predicate Valid(s: State)
  {
    && PendingInRange(s)
    && (s.pendingIdx.Some? ==>
          s.pendingIdx.value == |s.messages| - 1
          && s.messages[s.pendingIdx.value].sender == Assistant)
    && (s.loading && |s.messages| > 0 && s.messages[|s.messages| - 1].sender == Assistant ==>
          s.pendingIdx == Some(|s.messages| - 1))
  }

  /** A chat id is recorded only when it is non-empty. */
  function OnConfigure(s: State, id: string): (r: State)
    ensures HasChat(r.chatId) <==> HasChat(s.chatId) || id != ""
    ensures id != "" ==> r.chatId == Some(id)
    ensures id == "" ==> r == s
    ensures r.(chatId := s.chatId) == s
  {
    if id == "" then s else s.(chatId := Some(id))
  }

  /** Submission: without a chat, only the notice; with one, the user's turn is
      appended, the input cleared, loading set, the pending turn forgotten and a
      socket requested. The idle timer of an earlier exchange is not touched. */
  function OnSubmit(env: Env, s: State): (r: Reaction)
    ensures !HasChat(s.chatId) ==> r.state == s && r.effects == [Alert(NotConfiguredNotice)]
    ensures HasChat(s.chatId) ==>
      && |r.state.messages| == |s.messages| + 1
      && r.state.messages[..|s.messages|] == s.messages
      && r.state.messages[|s.messages|] == Message(User, s.input)
      && r.state.input == ""
      && r.state.loading
      && r.state.pendingIdx == None
      && r.state.snapshot == r.state.messages
      && r.state.(messages := s.messages, input := s.input, loading := s.loading,
                  pendingIdx := s.pendingIdx, snapshot := s.snapshot) == s
      && r.effects == [Connect(Endpoint.ChatUrl(env.protocol, env.backendUrl, s.chatId.value))]
  {
    if !HasChat(s.chatId) then
      Reaction(s, [Alert(NotConfiguredNotice)])
    else
      var sent := s.messages + [Message(User, s.input)];
      var s' := s.(messages := sent, input := "", loading := true, pendingIdx := None, snapshot := sent);
      Reaction(s', [Connect(Endpoint.ChatUrl(env.protocol, env.backendUrl, s.chatId.value))])
  }

  /** One inbound frame. The exact sentinel is dropped with no effect at all; any
      other frame is merged into the log and (re)arms the idle timer. */
  function OnChunk(s: State, chunk: string): (r: State)
    requires PendingInRange(s)
    ensures PendingInRange(r)
    ensures chunk == Accumulator.Sentinel ==> r == s
    ensures |s.messages| <= |r.messages|
    ensures forall j | 0 <= j < |s.messages| && s.pendingIdx != Some(j) :: r.messages[j] == s.messages[j]
    ensures chunk != Accumulator.Sentinel && s.pendingIdx.None? ==>
      |r.messages| == |s.messages| + 1 && r.messages[|s.messages|].sender == Assistant
    ensures chunk != Accumulator.Sentinel && s.pendingIdx.Some? ==>
      r.messages[s.pendingIdx.value].sender == s.messages[s.pendingIdx.value].sender
    ensures chunk != Accumulator.Sentinel ==>
      && r.timerPending
      && r.pendingIdx.Some?
      && (s.pendingIdx.None? ==> |r.messages| == |s.messages| + 1 && r.pendingIdx == Some(|s.messages|))
      && (s.pendingIdx.Some? ==> |r.messages| == |s.messages| && r.pendingIdx == s.pendingIdx)
      && r.messages[r.pendingIdx.value].content ==
           (if s.pendingIdx.Some? then s.messages[s.pendingIdx.value].content else "") + chunk
      && r.(messages := s.messages, pendingIdx := s.pendingIdx, timerPending := s.timerPending) == s
  {
    if chunk == Accumulator.Sentinel then s
    else
      var merged := Accumulator.Accept(s.messages, s.pendingIdx, chunk);
      s.(messages := merged.log, pendingIdx := Some(merged.index), timerPending := true)
  }

  /** Ends the current turn: loading stops, the pending turn is forgotten and the
      idle timer is no longer armed. The log is kept as it is. */
  function Finalise(s: State): (r: State)
    ensures r.messages == s.messages
    ensures !r.loading && r.pendingIdx.None? && !r.timerPending
    ensures r.(loading := s.loading, pendingIdx := s.pendingIdx, timerPending := s.timerPending) == s
  {
    s.(loading := false, pendingIdx := None, timerPending := false)
  }

  /** One transition. */
  function Step(env: Env, s: State, e: Event): (r: Reaction)
    requires PendingInRange(s)
    ensures PendingInRange(r.state)
  {
    match e
    case Edit(text) => Reaction(s.(input := text), [])
    case Configure(id) => Reaction(OnConfigure(s, id), [])
    case Submit => OnSubmit(env, s)
    case Open => Reaction(s, [Send(s.snapshot)])
    case Chunk(data) => Reaction(OnChunk(s, data), [])
    case TimerFire => if s.timerPending then Reaction(Finalise(s), []) else Reaction(s, [])
    case Close => Reaction(Finalise(s), [])
    case Error => Reaction(Finalise(s), [Alert(ConnectionErrorNotice)])
  }

  /** The state after a sequence of events, delivered in order. */
  function Run(env: Env, s: State, events: seq<Event>): (r: State)
    requires PendingInRange(s)
    ensures PendingInRange(r)
    decreases |events|
  {
    if events == [] then s
    else Step(env, Run(env, s, events[..|events| - 1]), events[|events| - 1]).state
  }

  /** The events delivered by a stream of inbound frames. */
  function Chunks(chunks: seq<string>): (events: seq<Event>)
    ensures |events| == |chunks|
    ensures forall k | 0 <= k < |chunks| :: events[k] == Chunk(chunks[k])
  {
    seq(|chunks|, k requires 0 <= k < |chunks| => Chunk(chunks[k]))
  }

}
