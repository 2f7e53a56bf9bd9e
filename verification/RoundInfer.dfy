/** What a model reply and its events are, told from the chunks of its stream (durable_steps.go, Infer;
    model_tasks.go; agent.go). */
module RoundInfer {
  import opened Messages
  import opened RoundCommit
  import opened Sequences
  import opened Streaming

  /** What streamed of chunk i's message before it, or its own content when nothing did. */
  function WholeText(chunks: seq<Chunk>, i: nat): Bytes
    requires i < |chunks|
  {
    var streamed := Pieces(chunks[..i], KeyOf(chunks[i]));
    if streamed != "" then streamed else chunks[i].content
  }

  /** A completed text, or a completed chunk with calls. */
  predicate GivesMessage(c: Chunk) {
    c.isComplete && (IsText(c.kind) || c.calls != [])
  }

  predicate MessageFrom(chunks: seq<Chunk>, i: nat, m: Message)
    requires i < |chunks|
  {
    var c := chunks[i];
    m.calls == c.calls && m.parts == [] && m.toolCallId == "" &&
    if IsText(c.kind) then
      m.role == (if c.kind == ReasoningText then Reasoning else Assistant) && m.content == WholeText(chunks, i) &&
      m.messageId == c.messageId && m.encrypted == c.encrypted
    else m.role == Assistant && m.content == "" && m.messageId == "" && m.encrypted == ""
  }

  /** The messages are those of the chunks at the positions `at`, which are all that give one. */
  ghost predicate MessagesFrom(chunks: seq<Chunk>, messages: seq<Message>, at: seq<nat>) {
    Rising(at, |chunks|) && |at| == |messages| &&
    (forall i: nat :: i < |chunks| ==> (i in at <==> GivesMessage(chunks[i]))) &&
    forall j :: 0 <= j < |at| ==> MessageFrom(chunks, at[j], messages[j])
  }

  function JoinedCalls(chunks: seq<Chunk>): seq<ToolCall> {
    if chunks == [] then []
    else
      var c := chunks[|chunks| - 1];
      JoinedCalls(chunks[..|chunks| - 1]) + if c.isComplete then c.calls else []
  }

  /** The last count that is not zero. */
  ghost predicate LastCount(chunks: seq<Chunk>, n: nat) {
    if n == 0 then forall i :: 0 <= i < |chunks| ==> chunks[i].inputTokens == 0
    else exists i: nat :: i < |chunks| && CountsLast(chunks, n, i)
  }

  predicate CountsLast(chunks: seq<Chunk>, n: nat, i: nat)
    requires i < |chunks|
  {
    chunks[i].inputTokens == n && forall k :: i < k < |chunks| ==> chunks[k].inputTokens == 0
  }

  ghost predicate IsReply(chunks: seq<Chunk>, r: Reply, at: seq<nat>) {
    MessagesFrom(chunks, r.messages, at) && r.calls == JoinedCalls(chunks) && LastCount(chunks, r.inputTokens)
  }

  // ---------------------------------------------------------------------------------------------
  // One more chunk
  // ---------------------------------------------------------------------------------------------

  lemma MessageSame(chunks: seq<Chunk>, c: Chunk, i: nat, m: Message)
    requires i < |chunks|
    ensures MessageFrom(chunks + [c], i, m) <==> MessageFrom(chunks, i, m)
  {
    hide Pieces;
    assert (chunks + [c])[..i] == chunks[..i];
  }

  lemma MessageLast(chunks: seq<Chunk>, c: Chunk)
    requires GivesMessage(c)
    ensures var ms := MessageOf(Added(AddedAll(chunks), c), c);
      |ms| == 1 && MessageFrom(chunks + [c], |chunks|, ms[0])
  {
    hide Pieces, AddedAll;
    assert (chunks + [c])[..|chunks|] == chunks;
    AssembledText(chunks, KeyOf(c));
  }

  lemma NoMessage(buf: map<Key, Bytes>, c: Chunk)
    requires !GivesMessage(c)
    ensures MessageOf(buf, c) == []
  {
  }

  lemma MessagesLast(chunks: seq<Chunk>, c: Chunk, messages: seq<Message>, at: seq<nat>) returns (next: seq<nat>)
    requires MessagesFrom(chunks, messages, at)
    ensures MessagesFrom(chunks + [c], messages + MessageOf(Added(AddedAll(chunks), c), c), next)
  {
    hide MessageOf, Added, AddedAll, MessageFrom, GivesMessage;
    var all, ms := chunks + [c], MessageOf(Added(AddedAll(chunks), c), c);
    var n: nat := |chunks|;
    forall j | 0 <= j < |at| ensures MessageFrom(all, at[j], messages[j]) { MessageSame(chunks, c, at[j], messages[j]); }
    assert n !in at;
    if GivesMessage(c) {
      MessageLast(chunks, c);
      next := at + [n];
      assert messages + ms == messages + [ms[0]];
      assert forall i :: i in next <==> i in at || i == n;
    } else {
      NoMessage(Added(AddedAll(chunks), c), c);
      next := at;
      Empty(messages);
    }
  }

  lemma CountLast(chunks: seq<Chunk>, c: Chunk, n: nat)
    requires LastCount(chunks, n)
    ensures LastCount(chunks + [c], if c.inputTokens != 0 then c.inputTokens else n)
  {
    var all := chunks + [c];
    if c.inputTokens != 0 {
      assert CountsLast(all, c.inputTokens, |chunks|);
    } else if n != 0 {
      var i: nat :| i < |chunks| && CountsLast(chunks, n, i);
      assert CountsLast(all, n, i);
    }
  }

  lemma ReplyLast(chunks: seq<Chunk>, c: Chunk, r: Reply, at: seq<nat>) returns (next: seq<nat>)
    requires IsReply(chunks, r, at)
    ensures IsReply(chunks + [c], Advanced(AddedAll(chunks), r, c), next)
  {
    hide MessagesFrom, MessageOf, Added, AddedAll, LastCount;
    next := MessagesLast(chunks, c, r.messages, at);
    CountLast(chunks, c, r.inputTokens);
    assert (chunks + [c])[..|chunks|] == chunks;
  }

  lemma AddedLast(chunks: seq<Chunk>, i: nat)
    requires i < |chunks|
    ensures AddedAll(chunks[..i + 1]) == Added(AddedAll(chunks[..i]), chunks[i]) && chunks[..i + 1] == chunks[..i] + [chunks[i]]
  {
    hide Added;
    assert chunks[..i + 1][..i] == chunks[..i];
  }

  predicate Fails(chunks: seq<Chunk>) {
    exists i :: 0 <= i < |chunks| && chunks[i].failed
  }

  lemma {:induction false} ReplyFrom(chunks: seq<Chunk>, i: nat, r: Reply, at: seq<nat>) returns (all: seq<nat>)
    requires i <= |chunks| && IsReply(chunks[..i], r, at) && !Fails(chunks[..i])
    ensures var end := Assembled(AddedAll(chunks[..i]), r, chunks[i..]);
      (end.None? <==> Fails(chunks)) && (end.Some? ==> IsReply(chunks, end.value, all))
    decreases |chunks| - i
  {
    hide IsReply, Advanced, Added, AddedAll;
    all := at;
    if i == |chunks| {
      assert chunks[..i] == chunks;
    } else {
      hide Assembled;
      AssembledStep(AddedAll(chunks[..i]), r, chunks, i);
      AddedLast(chunks, i);
      if !chunks[i].failed {
        var next := ReplyLast(chunks[..i], chunks[i], r, at);
        all := ReplyFrom(chunks, i + 1, Advanced(AddedAll(chunks[..i]), r, chunks[i]), next);
      }
    }
  }

  /** Main result: a stream gives no reply if and only if a chunk failed; a reply's messages are those of
      the completed texts and of the chunks with calls, in order, with all the text that streamed of
      each; its calls are all the calls; and its count is the last one reported. */
  lemma InferExactly(chunks: seq<Chunk>) returns (at: seq<nat>)
    ensures var r := Assembled(map[], Reply([], [], 0), chunks);
      (r.None? <==> Fails(chunks)) && (r.Some? ==> IsReply(chunks, r.value, at))
  {
    hide Assembled;
    assert chunks[..0] == [] && chunks[0..] == chunks && AddedAll([]) == map[];
    assert IsReply([], Reply([], [], 0), []);
    at := ReplyFrom(chunks, 0, Reply([], [], 0), []);
  }

  // ---------------------------------------------------------------------------------------------
  // The events
  // ---------------------------------------------------------------------------------------------

  predicate GivesEvent(c: Chunk) {
    c.kind != NoType && c.kind != TurnComplete
  }

  /** A piece's event says where it starts; a completed text's has all of it. */
  predicate EventFrom(chunks: seq<Chunk>, i: nat, ev: Event)
    requires i < |chunks|
  {
    var c := chunks[i];
    ev.kind == c.kind && ev.messageId == c.messageId && ev.streamed == 0 &&
    if IsText(c.kind) && !c.isComplete && c.content != "" then
      ev.delta && ev.content == c.content && ev.offset == |Pieces(chunks[..i], KeyOf(c))|
    else !ev.delta && ev.offset == 0 && ev.content == if IsText(c.kind) && c.isComplete then WholeText(chunks, i) else c.content
  }

  /** The events are those of the chunks at the positions `at`: all that give one, up to the first that
      failed. */
  ghost predicate EventsFrom(chunks: seq<Chunk>, events: seq<Event>, at: seq<nat>) {
    Rising(at, |chunks|) && |at| == |events| &&
    (forall i: nat :: i < |chunks| ==> (i in at <==> GivesEvent(chunks[i]) && !Fails(chunks[..i]))) &&
    forall j :: 0 <= j < |at| ==> EventFrom(chunks, at[j], events[j])
  }

  lemma EventIs(chunks: seq<Chunk>, i: nat)
    requires i < |chunks|
    ensures var ev := EventOf(AddedAll(chunks[..i]), chunks[i]);
      (ev.Some? <==> GivesEvent(chunks[i])) && (ev.Some? ==> EventFrom(chunks, i, ev.value))
  {
    hide Pieces, AddedAll;
    AssembledText(chunks[..i], KeyOf(chunks[i]));
  }

  lemma EventSame(chunks: seq<Chunk>, c: Chunk, i: nat, ev: Event)
    requires i < |chunks|
    ensures EventFrom(chunks + [c], i, ev) <==> EventFrom(chunks, i, ev)
    ensures Fails((chunks + [c])[..i]) <==> Fails(chunks[..i])
  {
    hide Pieces, Fails;
    assert (chunks + [c])[..i] == chunks[..i];
  }

  lemma EventsLast(chunks: seq<Chunk>, c: Chunk, events: seq<Event>, at: seq<nat>) returns (next: seq<nat>)
    requires EventsFrom(chunks, events, at)
    ensures EventsFrom(chunks + [c], events + MoreEvents(chunks, c), next)
  {
    hide EventFrom, GivesEvent, Fails, AddedAll, EventOf;
    var all, n: nat := chunks + [c], |chunks|;
    forall j | 0 <= j < |at| ensures EventFrom(all, at[j], events[j]) { EventSame(chunks, c, at[j], events[j]); }
    forall i: nat | i < n ensures Fails(all[..i]) <==> Fails(chunks[..i]) { assert all[..i] == chunks[..i]; }
    assert n !in at && all[..n] == chunks;
    EventIs(all, n);
    next := at;
    if GivesEvent(c) && !Fails(chunks) {
      next := at + [n];
      assert forall i :: i in next <==> i in at || i == n;
    } else {
      Empty(events);
    }
  }

  /** What one more chunk adds. */
  function MoreEvents(chunks: seq<Chunk>, c: Chunk): seq<Event> {
    var ev := EventOf(AddedAll(chunks), c);
    if ev.None? || Fails(chunks) then [] else [ev.value]
  }

  /** Nothing comes after a chunk that failed. */
  lemma {:induction false} FailedRest(chunks: seq<Chunk>, i: nat, events: seq<Event>, at: seq<nat>) returns (all: seq<nat>)
    requires i <= |chunks| && EventsFrom(chunks[..i], events, at) && Fails(chunks[..i])
    ensures EventsFrom(chunks, events, all)
    decreases |chunks| - i
  {
    hide EventsFrom, AddedAll;
    all := at;
    if i == |chunks| {
      assert chunks[..i] == chunks;
    } else {
      AddedLast(chunks, i);
      var next := EventsLast(chunks[..i], chunks[i], events, at);
      Empty(events);
      assert Fails(chunks[..i + 1]) by { FailsMore(chunks, i); }
      all := FailedRest(chunks, i + 1, events, next);
    }
  }

  lemma FailsMore(chunks: seq<Chunk>, i: nat)
    requires i < |chunks|
    ensures Fails(chunks[..i + 1]) <==> Fails(chunks[..i]) || chunks[i].failed
  {
    var init := chunks[..i];
    assert chunks[..i + 1] == init + [chunks[i]];
    assert forall k :: 0 <= k < i ==> chunks[..i + 1][k] == init[k];
  }

  lemma {:induction false} EmittedFrom(chunks: seq<Chunk>, i: nat, events: seq<Event>, at: seq<nat>) returns (all: seq<nat>)
    requires i <= |chunks| && EventsFrom(chunks[..i], events, at) && !Fails(chunks[..i])
    ensures EventsFrom(chunks, events + Emitted(AddedAll(chunks[..i]), chunks[i..]), all)
    decreases |chunks| - i
  {
    hide EventsFrom, Fails, Added, AddedAll, EventOf;
    all := at;
    if i == |chunks| {
      assert chunks[..i] == chunks;
      Empty(events);
    } else {
      hide Emitted;
      EmittedStep(AddedAll(chunks[..i]), chunks, i);
      AddedLast(chunks, i);
      FailsMore(chunks, i);
      var more := MoreEvents(chunks[..i], chunks[i]);
      var next := EventsLast(chunks[..i], chunks[i], events, at);
      if chunks[i].failed {
        all := FailedRest(chunks, i + 1, events + more, next);
        Empty(more);
      } else {
        all := EmittedFrom(chunks, i + 1, events + more, next);
        Assoc(events, more, Emitted(AddedAll(chunks[..i + 1]), chunks[i + 1..]));
      }
    }
  }

  /** Main result: the events of a stream are those of its chunks, in order, up to the first that failed:
      each piece's with the length of what streamed of its message before. */
  lemma EventsExactly(chunks: seq<Chunk>) returns (at: seq<nat>)
    ensures EventsFrom(chunks, Emitted(map[], chunks), at)
  {
    hide Emitted, EventFrom, GivesEvent;
    assert chunks[..0] == [] && chunks[0..] == chunks && AddedAll([]) == map[];
    Empty(Emitted(map[], chunks));
    at := EmittedFrom(chunks, 0, [], []);
  }
}
