/** Merging inbound stream chunks into the in-progress assistant turn
    (the state updater inside the socket's message callback, app/page.tsx). */
module Accumulator {

  import opened Wrappers
  import opened Messages

  /** The server's initialisation acknowledgement; it carries no content. */
  const Sentinel: string := "|INIT|"

  /** The log after a chunk is merged, and the index of the turn it went into. */
  datatype Merged = Merged(log: seq<Message>, index: nat)

  /** Merges `chunk` into `log`. Without a pending turn a new assistant turn holding
      exactly `chunk` is appended; with one, `chunk` is appended to that turn's text. */
  function Accept(log: seq<Message>, pending: Option<nat>, chunk: string): (r: Merged)
    requires pending.Some? ==> pending.value < |log|
    ensures r.index < |r.log|
    ensures pending.None? ==> |r.log| == |log| + 1 && r.index == |log|
    ensures pending.None? ==> r.log[r.index] == Message(Assistant, chunk)
    ensures pending.Some? ==> |r.log| == |log| && r.index == pending.value
    ensures pending.Some? ==>
      r.log[r.index].sender == log[r.index].sender
      && r.log[r.index].content == log[r.index].content + chunk
    ensures forall j | 0 <= j < |log| && j != r.index :: r.log[j] == log[j]
  {
    match pending
    case None => Merged(log + [Message(Assistant, chunk)], |log|)
    case Some(i) => Merged(log[i := log[i].(content := log[i].content + chunk)], i)
  }

  /** The content-bearing chunks of a stream, in arrival order: every chunk
      except those exactly equal to the sentinel. */
  function Fragments(chunks: seq<string>): (fs: seq<string>)
    ensures |fs| <= |chunks|
    ensures forall f :: f in fs <==> f in chunks && f != Sentinel
    ensures (forall k | 0 <= k < |chunks| :: chunks[k] == Sentinel) <==> fs == []
  {
    if chunks == [] then []
    else
      var last := chunks[|chunks| - 1];
      Fragments(chunks[..|chunks| - 1]) + (if last == Sentinel then [] else [last])
  }

  /** Concatenation of texts in order. */
  function Join(texts: seq<string>): string
  {
    if texts == [] then "" else Join(texts[..|texts| - 1]) + texts[|texts| - 1]
  }

  lemma JoinSnoc(texts: seq<string>, t: string)
    ensures Join(texts + [t]) == Join(texts) + t
  {
    assert (texts + [t])[..|texts|] == texts;
  }

  lemma {:induction false} JoinAppend(a: seq<string>, b: seq<string>)
    ensures Join(a + b) == Join(a) + Join(b)
    decreases |b|
  {
    if b == [] {
      assert a + b == a;
    } else {
      var init := b[..|b| - 1];
      var t := b[|b| - 1];
      assert b == init + [t];
      assert a + b == (a + init) + [t];
      JoinSnoc(a + init, t);
      JoinAppend(a, init);
      JoinSnoc(init, t);
    }
  }

  lemma {:induction false} FragmentsAppend(a: seq<string>, b: seq<string>)
    ensures Fragments(a + b) == Fragments(a) + Fragments(b)
    decreases |b|
  {
    if b == [] {
      assert a + b == a;
    } else {
      var init := b[..|b| - 1];
      assert (a + b)[..|a + b| - 1] == a + init;
      FragmentsAppend(a, init);
    }
  }

  lemma JoinSplit(before: seq<string>, x: string, y: string, after: seq<string>)
    ensures Join(before + [x + y] + after) == Join(before + [x, y] + after)
  {
    JoinAppend(before + [x + y], after);
    JoinAppend(before + [x, y], after);
    JoinSnoc(before, x + y);
    assert before + [x, y] == (before + [x]) + [y];
    JoinSnoc(before + [x], y);
    JoinSnoc(before, x);
  }

  /** Where a reply is cut into frames does not change the streamed text: splitting
      one frame `x + y` into two frames `x`, `y` gives the same concatenated content,
      as long as neither piece nor the whole is exactly the sentinel. */
  lemma SplitFrameInvariant(before: seq<string>, x: string, y: string, after: seq<string>)
    requires x != Sentinel && y != Sentinel && x + y != Sentinel
    ensures Join(Fragments(before + [x + y] + after)) == Join(Fragments(before + [x, y] + after))
  {
    FragmentsAppend(before + [x + y], after);
    FragmentsAppend(before, [x + y]);
    FragmentsAppend(before + [x, y], after);
    FragmentsAppend(before, [x, y]);
    assert Fragments([x + y]) == [x + y] by {
      assert [x + y][..0] == [];
    }
    assert Fragments([x, y]) == [x, y] by {
      assert [x, y][..1] == [x];
      assert [x][..0] == [];
    }
    JoinSplit(Fragments(before), x, y, Fragments(after));
  }

  /** The sentinel filter is an exact match on one frame: the sentinel text split over
      two frames is content, while the same text in one frame is dropped. */
  lemma SentinelSplitIsContent()
    ensures Join(Fragments(["|IN", "IT|"])) == Sentinel
    ensures Join(Fragments([Sentinel])) == ""
  {
    assert ["|IN", "IT|"][..1] == ["|IN"];
    assert ["|IN"][..0] == [];
    assert [Sentinel][..0] == [];
    assert Fragments(["|IN", "IT|"]) == ["|IN", "IT|"];
    assert Join(["|IN", "IT|"]) == Join(["|IN"]) + "IT|";
  }

}
