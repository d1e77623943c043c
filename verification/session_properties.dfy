/** Properties of the chat page's streaming state machine over single events and
    over event sequences. */
module SessionProperties {

  import opened Wrappers
  import opened Messages
  import opened Accumulator
  import opened Session
  import Endpoint

  /** A single transition only grows the log, and leaves every turn other than the
      pending one identical. */
  lemma StepExtends(env: Env, s: State, e: Event)
    requires PendingInRange(s)
    ensures Extends(s.messages, Step(env, s, e).state.messages)
    ensures forall i | 0 <= i < |s.messages| && s.pendingIdx != Some(i) ::
      Step(env, s, e).state.messages[i] == s.messages[i]
  {
  }

  lemma InitValid()
    ensures Valid(Init)
  {
  }

  /** Every transition keeps the reachable-state invariant. */
  lemma StepPreservesValid(env: Env, s: State, e: Event)
    requires Valid(s)
    ensures Valid(Step(env, s, e).state)
  {
  }

  lemma {:induction false} RunPreservesValid(env: Env, s: State, events: seq<Event>)
    requires Valid(s)
    ensures Valid(Run(env, s, events))
    decreases |events|
  {
    if events != [] {
      RunPreservesValid(env, s, events[..|events| - 1]);
      StepPreservesValid(env, Run(env, s, events[..|events| - 1]), events[|events| - 1]);
    }
  }

  /** Messages are never rolled back: over any event sequence the log only grows,
      by new turns and by text appended to existing turns. */
  lemma {:induction false} RunExtends(env: Env, s: State, events: seq<Event>)
    requires PendingInRange(s)
    ensures Extends(s.messages, Run(env, s, events).messages)
    decreases |events|
  {
    if events == [] {
      ExtendsReflexive(s.messages);
    } else {
      var mid := Run(env, s, events[..|events| - 1]);
      RunExtends(env, s, events[..|events| - 1]);
      StepExtends(env, mid, events[|events| - 1]);
      ExtendsTransitive(s.messages, mid.messages, Run(env, s, events).messages);
    }
  }

  lemma RunSnoc(env: Env, s: State, events: seq<Event>, e: Event)
    requires PendingInRange(s)
    ensures Run(env, s, events + [e]) == Step(env, Run(env, s, events), e).state
  {
    assert (events + [e])[..|events|] == events;
  }

  /** Delivering `a` and then `b` is delivering `a + b`. */
  lemma {:induction false} RunAppend(env: Env, s: State, a: seq<Event>, b: seq<Event>)
    requires PendingInRange(s)
    ensures Run(env, s, a + b) == Run(env, Run(env, s, a), b)
    decreases |b|
  {
    if b == [] {
      assert a + b == a;
    } else {
      assert (a + b)[..|a + b| - 1] == a + b[..|b| - 1];
      RunAppend(env, s, a, b[..|b| - 1]);
    }
  }

  /** The state after a stream of frames, each handled by the message callback. */
  function Stream(s: State, chunks: seq<string>): (r: State)
    requires PendingInRange(s)
    ensures PendingInRange(r)
    decreases |chunks|
  {
    if chunks == [] then s else OnChunk(Stream(s, chunks[..|chunks| - 1]), chunks[|chunks| - 1])
  }

  lemma {:induction false} RunChunksIsStream(env: Env, s: State, chunks: seq<string>)
    requires PendingInRange(s)
    ensures Run(env, s, Chunks(chunks)) == Stream(s, chunks)
    decreases |chunks|
  {
    if chunks != [] {
      var init := chunks[..|chunks| - 1];
      var c := chunks[|chunks| - 1];
      assert Chunks(chunks) == Chunks(init) + [Chunk(c)];
      RunChunksIsStream(env, s, init);
      RunSnoc(env, s, Chunks(init), Chunk(c));
    }
  }

  /** A stream of frames touches only the log, the pending index and the timer, and
      arms the timer once content has arrived. */
  lemma {:induction false} StreamFrame(s: State, chunks: seq<string>)
    requires PendingInRange(s)
    ensures var r := Stream(s, chunks);
      && r.timerPending == (s.timerPending || Fragments(chunks) != [])
      && r.input == s.input && r.loading == s.loading && r.chatId == s.chatId && r.snapshot == s.snapshot
    decreases |chunks|
  {
    if chunks != [] {
      StreamFrame(s, chunks[..|chunks| - 1]);
    }
  }

  lemma {:induction false} StreamLog(s: State, chunks: seq<string>)
    requires PendingInRange(s) && s.pendingIdx.None?
    ensures var r := Stream(s, chunks);
      && (Fragments(chunks) == [] ==> r.messages == s.messages && r.pendingIdx.None?)
      && (Fragments(chunks) != [] ==>
            && r.messages == s.messages + [Message(Assistant, Join(Fragments(chunks)))]
            && r.pendingIdx == Some(|s.messages|))
    decreases |chunks|
  {
    if chunks != [] {
      var init := chunks[..|chunks| - 1];
      var c := chunks[|chunks| - 1];
      StreamLog(s, init);
      var mid := Stream(s, init);
      if c != Sentinel {
        assert Fragments(chunks) == Fragments(init) + [c];
        JoinSnoc(Fragments(init), c);
        if Fragments(init) == [] {
          assert Join([c]) == Join([]) + c;
          assert Fragments(chunks) == [c];
        } else {
          var text := Join(Fragments(init));
          assert mid.messages == s.messages + [Message(Assistant, text)];
          assert OnChunk(mid, c).messages == s.messages + [Message(Assistant, text + c)];
        }
      } else {
        assert Fragments(chunks) == Fragments(init);
      }
    }
  }

  /** A stream of frames arriving with no turn pending and no finalisation in
      between adds at most one assistant turn, whose text is the content-bearing
      frames concatenated in arrival order; nothing else in the state changes
      except that the idle timer is armed once content has arrived. */
  lemma StreamedTurn(env: Env, s: State, chunks: seq<string>)
    requires PendingInRange(s) && s.pendingIdx.None?
    ensures var r := Run(env, s, Chunks(chunks));
      && (Fragments(chunks) == [] ==> r.messages == s.messages && r.pendingIdx.None?)
      && (Fragments(chunks) != [] ==>
            && r.messages == s.messages + [Message(Assistant, Join(Fragments(chunks)))]
            && r.pendingIdx == Some(|s.messages|))
      && r.timerPending == (s.timerPending || Fragments(chunks) != [])
      && r.input == s.input && r.loading == s.loading && r.chatId == s.chatId && r.snapshot == s.snapshot
  {
    RunChunksIsStream(env, s, chunks);
    StreamLog(s, chunks);
    StreamFrame(s, chunks);
  }

  lemma {:induction false} StreamPendingLog(s: State, chunks: seq<string>)
    requires Valid(s) && s.pendingIdx.Some?
    ensures var r := Stream(s, chunks);
      var i := s.pendingIdx.value;
      && r.messages == s.messages[i := Message(Assistant, s.messages[i].content + Join(Fragments(chunks)))]
      && r.pendingIdx == s.pendingIdx
    decreases |chunks|
  {
    var i := s.pendingIdx.value;
    if chunks == [] {
      assert s.messages[i].content + "" == s.messages[i].content;
      assert s.messages[i := Message(Assistant, s.messages[i].content)] == s.messages;
    } else {
      var init := chunks[..|chunks| - 1];
      var c := chunks[|chunks| - 1];
      StreamPendingLog(s, init);
      var mid := Stream(s, init);
      var text := s.messages[i].content + Join(Fragments(init));
      assert mid.messages == s.messages[i := Message(Assistant, text)];
      if c != Sentinel {
        assert Fragments(chunks) == Fragments(init) + [c];
        JoinSnoc(Fragments(init), c);
        assert text + c == s.messages[i].content + Join(Fragments(chunks));
        assert OnChunk(mid, c).messages == mid.messages[i := Message(Assistant, text + c)];
      } else {
        assert Fragments(chunks) == Fragments(init);
      }
    }
  }

  /** Frames arriving while a turn is pending extend that turn's text by their
      content-bearing frames in arrival order and leave every other turn alone. */
  lemma StreamExtendsPending(env: Env, s: State, chunks: seq<string>)
    requires Valid(s) && s.pendingIdx.Some?
    ensures var r := Run(env, s, Chunks(chunks));
      var i := s.pendingIdx.value;
      && r.messages == s.messages[i := Message(Assistant, s.messages[i].content + Join(Fragments(chunks)))]
      && r.pendingIdx == s.pendingIdx
  {
    RunChunksIsStream(env, s, chunks);
    StreamPendingLog(s, chunks);
  }

  /** The payload sent when the socket opens is exactly the conversation as it
      stood after the submission: the earlier turns plus the user's new turn. */
  lemma SubmitThenOpenSends(env: Env, s: State)
    requires PendingInRange(s) && HasChat(s.chatId)
    ensures Step(env, Step(env, s, Submit).state, Open).effects ==
      [Send(s.messages + [Message(User, s.input)])]
  {
  }

  /** Once a non-empty chat id is configured, a submission is accepted and connects
      to that chat's address. */
  lemma ConfigureThenSubmitConnects(env: Env, s: State, id: string)
    requires PendingInRange(s) && id != ""
    ensures var t := Step(env, s, Configure(id)).state;
      && Step(env, t, Submit).state.loading
      && Step(env, t, Submit).effects == [Connect(Endpoint.ChatUrl(env.protocol, env.backendUrl, id))]
  {
  }

  /** Without a chat id a submission changes nothing, opens no socket and sends nothing. */
  lemma SubmitWithoutChatIsInert(env: Env, s: State)
    requires PendingInRange(s) && !HasChat(s.chatId)
    ensures Step(env, s, Submit).state == s
    ensures forall eff | eff in Step(env, s, Submit).effects :: !eff.Connect? && !eff.Send?
  {
  }

  /** Submitting and opening the socket leaves the state the submission made. */
  lemma SubmitOpen(env: Env, s: State)
    requires PendingInRange(s)
    ensures Run(env, s, [Submit, Open]) == OnSubmit(env, s).state
  {
    RunSnoc(env, s, [], Submit);
    assert [] + [Submit] == [Submit];
    RunSnoc(env, s, [Submit], Open);
    assert [Submit] + [Open] == [Submit, Open];
  }

  /** The state after a whole exchange is the submission's state, streamed, then finalised. */
  lemma ExchangeState(env: Env, s: State, chunks: seq<string>, last: Event)
    requires PendingInRange(s)
    requires last.Close? || last.Error? || (last.TimerFire? && Fragments(chunks) != [])
    ensures Run(env, s, [Submit, Open] + Chunks(chunks) + [last])
      == Finalise(Stream(OnSubmit(env, s).state, chunks))
  {
    var started := OnSubmit(env, s).state;
    var streamed := Stream(started, chunks);
    var pre := [Submit, Open] + Chunks(chunks);
    assert Run(env, s, pre) == streamed by {
      SubmitOpen(env, s);
      RunAppend(env, s, [Submit, Open], Chunks(chunks));
      RunChunksIsStream(env, started, chunks);
    }
    RunSnoc(env, s, pre, last);
    StreamFrame(started, chunks);
  }

  /** A whole exchange: submit, open, a stream of frames, then a close, an error, or
      the idle timer firing after content. The log ends as the earlier turns, the
      user's turn and (when any content arrived) one assistant turn holding all the
      content in order; loading and the pending turn are cleared. */
  lemma Exchange(env: Env, s: State, chunks: seq<string>, last: Event)
    requires PendingInRange(s) && HasChat(s.chatId)
    requires last.Close? || last.Error? || (last.TimerFire? && Fragments(chunks) != [])
    ensures var r := Run(env, s, [Submit, Open] + Chunks(chunks) + [last]);
      var reply := if Fragments(chunks) == [] then [] else [Message(Assistant, Join(Fragments(chunks)))];
      && r.messages == s.messages + [Message(User, s.input)] + reply
      && !r.loading && r.pendingIdx.None? && !r.timerPending
      && r.input == "" && r.chatId == s.chatId
  {
    var started := OnSubmit(env, s).state;
    var done := Finalise(Stream(started, chunks));
    ExchangeState(env, s, chunks, last);
    assert started.messages == s.messages + [Message(User, s.input)];
    StreamLog(started, chunks);
    StreamFrame(started, chunks);
    assert done.messages == Stream(started, chunks).messages;
    assert done.input == "" && done.chatId == s.chatId;
  }

  /** Finalisation is idempotent: once a timer firing, close or error has ended the
      turn, a further close, error or firing leaves the state as it is. */
  lemma FinaliseIdempotent(env: Env, s: State, first: Event, second: Event)
    requires PendingInRange(s)
    requires first.Close? || first.Error? || (first.TimerFire? && s.timerPending)
    requires second.Close? || second.Error? || second.TimerFire?
    ensures var t := Step(env, s, first).state;
      Step(env, t, second).state == t && t.messages == s.messages
    ensures second.Error? ==>
      Step(env, Step(env, s, first).state, second).effects == [Alert(ConnectionErrorNotice)]
  {
  }

  lemma HelloStream()
    ensures Chunks(["Hel", "lo"]) == [Chunk("Hel"), Chunk("lo")]
    ensures Fragments(["Hel", "lo"]) == ["Hel", "lo"]
    ensures Join(["Hel", "lo"]) == "Hello"
  {
    assert ["Hel", "lo"][..1] == ["Hel"];
    assert ["Hel"][..0] == [];
    assert Fragments(["Hel"]) == ["Hel"];
    assert Join(["Hel"]) == "Hel";
  }

  /** An error after frames "Hel" and "lo" keeps the assistant turn "Hello", reports
      the connection error, and a following submission is accepted. */
  lemma ErrorKeepsPartialReply(env: Env, s: State)
    requires PendingInRange(s) && HasChat(s.chatId)
    ensures var streamed := Run(env, s, [Submit, Open, Chunk("Hel"), Chunk("lo")]);
      var failed := Step(env, streamed, Error);
      && failed.state.messages[|failed.state.messages| - 1] == Message(Assistant, "Hello")
      && failed.effects == [Alert(ConnectionErrorNotice)]
      && !failed.state.loading
      && Step(env, failed.state, Submit).state.loading
  {
    HelloStream();
    Exchange(env, s, ["Hel", "lo"], Error);
    var events := [Submit, Open, Chunk("Hel"), Chunk("lo")];
    assert [Submit, Open] + Chunks(["Hel", "lo"]) == events;
    RunSnoc(env, s, events, Error);
    var failed := Step(env, Run(env, s, events), Error);
    var last := Message(Assistant, "Hello");
    assert failed.state.messages == s.messages + [Message(User, s.input)] + [last];
  }

  /** The idle window is a heuristic: if the timer fires between two content frames,
      the second frame starts a fresh assistant turn, so one streamed reply is split
      into two turns. */
  lemma GapSplitsReply(env: Env, s: State, a: string, b: string)
    requires Valid(s) && s.pendingIdx.None?
    requires a != Sentinel && b != Sentinel
    ensures Run(env, s, [Chunk(a), TimerFire, Chunk(b)]).messages ==
      s.messages + [Message(Assistant, a), Message(Assistant, b)]
  {
    var first := OnChunk(s, a);
    var quiet := Finalise(first);
    assert Run(env, s, [Chunk(a)]) == first by {
      RunSnoc(env, s, [], Chunk(a));
      assert [] + [Chunk(a)] == [Chunk(a)];
    }
    assert Run(env, s, [Chunk(a), TimerFire]) == quiet by {
      RunSnoc(env, s, [Chunk(a)], TimerFire);
      assert [Chunk(a)] + [TimerFire] == [Chunk(a), TimerFire];
    }
    assert Run(env, s, [Chunk(a), TimerFire, Chunk(b)]) == OnChunk(quiet, b) by {
      RunSnoc(env, s, [Chunk(a), TimerFire], Chunk(b));
      assert [Chunk(a), TimerFire] + [Chunk(b)] == [Chunk(a), TimerFire, Chunk(b)];
    }
    assert first.messages == s.messages + [Message(Assistant, a)];
    assert OnChunk(quiet, b).messages == first.messages + [Message(Assistant, b)];
  }

  /** The idle timer is armed only by content: after a submission, the sentinel
      alone arms nothing, so a later firing (if no other timer is armed) cannot end
      the turn and loading stays on until the socket closes or fails. */
  lemma SentinelArmsNoTimer(env: Env, s: State)
    requires PendingInRange(s) && HasChat(s.chatId) && !s.timerPending
    ensures var t := Run(env, s, [Submit, Open, Chunk(Sentinel)]);
      && !t.timerPending && t.loading
      && Step(env, t, TimerFire).state == t
  {
    RunSnoc(env, s, [], Submit);
    assert [] + [Submit] == [Submit];
    RunSnoc(env, s, [Submit], Open);
    assert [Submit] + [Open] == [Submit, Open];
    RunSnoc(env, s, [Submit, Open], Chunk(Sentinel));
    assert [Submit, Open] + [Chunk(Sentinel)] == [Submit, Open, Chunk(Sentinel)];
  }

}
