/** A model reply, its calls, and the round they commit as (durable_steps.go, Infer and
    commitReplyRound; drive.go; toolcall.go). */
module RoundCommit {
  import opened Messages
  import opened Plan
  import opened Sequences
  import opened CallState
  import opened Streaming

  datatype Reply = Reply(messages: seq<Message>, calls: seq<ToolCall>, inputTokens: nat)

  /** The harness's part of a call. */
  datatype Body<R> = Body(result: Option<Message>, effect: Effect, writes: Writes<R>)

  datatype Call<R> = Call(tool: ToolCall, done: bool, body: Option<Body<R>>)

  datatype Round<R> = Round(reply: Reply, calls: seq<Call<R>>)

  const CANCELLED: Bytes := "cancelled: user interrupted the agent"

  // ---------------------------------------------------------------------------------------------
  // Infer: the reply of a chunk stream
  // ---------------------------------------------------------------------------------------------

  /** The reply's message of a chunk: a completed text, or the message that carries its calls. */
  function MessageOf(buf: map<Key, Bytes>, c: Chunk): seq<Message> {
    if !c.isComplete then []
    else if IsText(c.kind) then
      [Message(if c.kind == ReasoningText then Reasoning else Assistant, CompleteText(buf, c), c.messageId, c.encrypted,
               [], c.calls, "")]
    else if c.calls != [] then [Plain(Assistant, "").(calls := c.calls)]
    else []
  }

  function CallsOf(c: Chunk): seq<ToolCall> {
    if c.isComplete then c.calls else []
  }

  /** What a stream makes of a reply so far; None is a chunk that failed. */
  function Assembled(buf: map<Key, Bytes>, r: Reply, chunks: seq<Chunk>): Option<Reply>
    decreases |chunks|
  {
    if chunks == [] then Some(r)
    else if chunks[0].failed then None
    else
      var c := chunks[0];
      Assembled(Added(buf, c), Advanced(buf, r, c), chunks[1..])
  }

  /** The events a stream gives its readers, up to the chunk that failed. */
  function Emitted(buf: map<Key, Bytes>, chunks: seq<Chunk>): seq<Event>
    decreases |chunks|
  {
    if chunks == [] then []
    else
      var ev := EventOf(buf, chunks[0]);
      (if ev.Some? then [ev.value] else [])
      + if chunks[0].failed then [] else Emitted(Added(buf, chunks[0]), chunks[1..])
  }

  method Infer(chunks: seq<Chunk>) returns (r: Option<Reply>, events: seq<Event>)
    ensures r == Assembled(map[], Reply([], [], 0), chunks)
    ensures events == Emitted(map[], chunks)
  {
    var asm := new StreamAssembler();
    var reply: seq<Message>, toolCalls: seq<ToolCall>, inputTokens := [], [], 0;
    events := [];
    for i := 0 to |chunks|
      invariant inputTokens >= 0 && Emitted(map[], chunks) == events + Emitted(asm.buf, chunks[i..])
      invariant Assembled(map[], Reply([], [], 0), chunks) == Assembled(asm.buf, Reply(reply, toolCalls, inputTokens), chunks[i..])
    {
      hide CompleteText, Added, EventOf, Assembled, Emitted;
      var c := chunks[i];
      InferStep(asm.buf, Reply(reply, toolCalls, inputTokens), events, chunks, i);
      var ev := StreamChunk(c, asm);
      if ev.Some? {
        events := events + [ev.value];
      }
      if c.failed {
        return None, events;
      }
      if c.inputTokens != 0 {
        inputTokens := c.inputTokens;
      }
      asm.AddDelta(c);
      if !c.isComplete {
        assert reply + [] == reply && toolCalls + [] == toolCalls;
        continue;
      }
      toolCalls := toolCalls + c.calls;
      if IsText(c.kind) {
        var m := asm.MessageFromComplete(c);
        reply := reply + [m];
      } else if c.calls != [] {
        reply := reply + [Plain(Assistant, "").(calls := c.calls)];
      } else {
        assert reply + [] == reply;
      }
    }
    r := Some(Reply(reply, toolCalls, inputTokens));
  }

  function Advanced(buf: map<Key, Bytes>, r: Reply, c: Chunk): Reply {
    Reply(r.messages + MessageOf(Added(buf, c), c), r.calls + CallsOf(c),
          if c.inputTokens != 0 then c.inputTokens else r.inputTokens)
  }

  lemma InferStep(buf: map<Key, Bytes>, r: Reply, events: seq<Event>, chunks: seq<Chunk>, i: nat)
    requires i < |chunks|
    ensures var c, ev := chunks[i], EventOf(buf, chunks[i]);
      var more := if ev.Some? then events + [ev.value] else events;
      Assembled(buf, r, chunks[i..]) ==
        (if c.failed then None else Assembled(Added(buf, c), Advanced(buf, r, c), chunks[i + 1..])) &&
      events + Emitted(buf, chunks[i..]) == more + if c.failed then [] else Emitted(Added(buf, c), chunks[i + 1..])
  {
    hide *;
    AssembledStep(buf, r, chunks, i);
    EmittedStep(buf, chunks, i);
    var ev := EventOf(buf, chunks[i]);
    Empty(events);
    Assoc(events, if ev.Some? then [ev.value] else [],
          if chunks[i].failed then [] else Emitted(Added(buf, chunks[i]), chunks[i + 1..]));
  }

  lemma AssembledStep(buf: map<Key, Bytes>, r: Reply, chunks: seq<Chunk>, i: nat)
    requires i < |chunks|
    ensures Assembled(buf, r, chunks[i..]) == if chunks[i].failed then None
      else Assembled(Added(buf, chunks[i]), Advanced(buf, r, chunks[i]), chunks[i + 1..])
  {
    hide Added, Advanced;
    Suffix(chunks, i);
  }

  lemma EmittedStep(buf: map<Key, Bytes>, chunks: seq<Chunk>, i: nat)
    requires i < |chunks|
    ensures var ev := EventOf(buf, chunks[i]);
      Emitted(buf, chunks[i..]) == (if ev.Some? then [ev.value] else [])
        + if chunks[i].failed then [] else Emitted(Added(buf, chunks[i]), chunks[i + 1..])
  {
    hide Added, EventOf;
    Suffix(chunks, i);
  }

  // ---------------------------------------------------------------------------------------------
  // What every reply is
  // ---------------------------------------------------------------------------------------------

  /** A reply's messages are the model's, and carry its calls, in order. A provider puts no call on
      reasoning text. */
  predicate FromModel(r: Reply) {
    (forall m :: m in r.messages ==> m.role == Assistant || (m.role == Reasoning && m.calls == [])) &&
    CallIds(r.messages) == WireIds(r.calls)
  }

  predicate NoCallsInReasoning(chunks: seq<Chunk>) {
    forall c :: c in chunks && c.kind == ReasoningText ==> c.calls == []
  }

  lemma {:induction false} CallIdsAppend(a: seq<Message>, b: seq<Message>)
    ensures CallIds(a + b) == CallIds(a) + CallIds(b)
  {
    if a == [] {
      Empty(b);
    } else {
      Uncons(a, b);
      CallIdsAppend(a[1..], b);
      Assoc(if a[0].role == Assistant then WireIds(a[0].calls) else [], CallIds(a[1..]), CallIds(b));
    }
  }

  lemma WireIdsAppend(a: seq<ToolCall>, b: seq<ToolCall>)
    ensures WireIds(a + b) == WireIds(a) + WireIds(b)
  {
  }

  lemma CallIdsOne(m: Message)
    ensures CallIds([m]) == if m.role == Assistant then WireIds(m.calls) else []
  {
    assert [m][1..] == [];
  }

  lemma {:induction false} AssembledFromModel(buf: map<Key, Bytes>, r: Reply, chunks: seq<Chunk>)
    requires FromModel(r) && NoCallsInReasoning(chunks) && Assembled(buf, r, chunks).Some?
    ensures FromModel(Assembled(buf, r, chunks).value)
    decreases |chunks|
  {
    if chunks != [] {
      hide CallIds, WireIds, Added, CompleteText;
      var c := chunks[0];
      assert c in chunks && forall x :: x in chunks[1..] ==> x in chunks;
      var ms := MessageOf(Added(buf, c), c);
      CallIdsAppend(r.messages, ms);
      WireIdsAppend(r.calls, CallsOf(c));
      assert CallIds(ms) == WireIds(CallsOf(c)) by { NoIds(); if ms != [] { CallIdsOne(ms[0]); } }
      AssembledFromModel(Added(buf, c), Advanced(buf, r, c), chunks[1..]);
    }
  }

  lemma NoIds()
    ensures CallIds([]) == [] && WireIds([]) == []
  {
  }

  /** Every reply of a stream carries its calls. */
  lemma InferredFromModel(chunks: seq<Chunk>)
    requires NoCallsInReasoning(chunks) && Assembled(map[], Reply([], [], 0), chunks).Some?
    ensures FromModel(Assembled(map[], Reply([], [], 0), chunks).value)
  {
    NoIds();
    AssembledFromModel(map[], Reply([], [], 0), chunks);
  }

  // ---------------------------------------------------------------------------------------------
  // Calls and their results
  // ---------------------------------------------------------------------------------------------

  function ResultMessage(tool: ToolCall, content: Bytes): Message {
    Plain(Tool, content).(toolCallId := tool.WireId())
  }

  /** A call that is done has a body only with its result; no result is another call's. */
  predicate Ran<R>(c: Call<R>) {
    c.body.Some? ==>
      (c.done ==> c.body.value.result.Some?) &&
      (c.body.value.result.Some? ==>
         c.body.value.result.value.role == Tool && c.body.value.result.value.toolCallId == c.tool.WireId())
  }

  /** finishCall: gives c its result. */
  method FinishCall<R>(c: Call<R>, content: Bytes, effect: Effect) returns (done: Call<R>)
    requires c.body.Some?
    ensures done.done && Ran(done) && done.tool == c.tool && done.body.Some?
    ensures done.body.value == c.body.value.(result := Some(ResultMessage(c.tool, content)), effect := effect)
  {
    var b := c.body.value;
    done := c.(done := true, body := Some(b.(result := Some(ResultMessage(c.tool, content)), effect := effect)));
  }

  method NewRound<R>(reply: Reply) returns (r: Round<R>)
    ensures r.reply == reply && |r.calls| == |reply.calls|
    ensures forall i :: 0 <= i < |r.calls| ==> r.calls[i] == Call(reply.calls[i], false, None)
  {
    var calls: seq<Call<R>> := [];
    for i := 0 to |reply.calls|
      invariant |calls| == i && forall k :: 0 <= k < i ==> calls[k] == Call(reply.calls[k], false, None)
    {
      calls := calls + [Call(reply.calls[i], false, None)];
    }
    r := Round(reply, calls);
  }

  /** The round's calls are its reply's, in order, each as its runs left it. */
  predicate OfReply<R>(r: Round<R>) {
    |r.calls| == |r.reply.calls| &&
    forall i :: 0 <= i < |r.calls| ==> r.calls[i].tool == r.reply.calls[i] && Ran(r.calls[i])
  }

  function ResultOf<R>(c: Call<R>): Message {
    if c.done && c.body.Some? && c.body.value.result.Some? then c.body.value.result.value else ResultMessage(c.tool, CANCELLED)
  }

  function Results<R>(calls: seq<Call<R>>): seq<Message> {
    seq(|calls|, i requires 0 <= i < |calls| => ResultOf(calls[i]))
  }

  function Stronger(a: Effect, b: Effect): Effect {
    if a == InstallPlan || b == InstallPlan then InstallPlan else if a == HandOff || b == HandOff then HandOff else NoEffect
  }

  function EffectOf<R>(calls: seq<Call<R>>): Effect {
    if calls == [] then NoEffect
    else
      var before, c := EffectOf(calls[..|calls| - 1]), calls[|calls| - 1];
      if c.body.Some? then Stronger(before, c.body.value.effect) else before
  }

  /** The committed state after the writes of calls, one call after another. */
  function Serial<V, R>(env: Env<V, R>, s: Committed<V, R>, calls: seq<Call<R>>): Committed<V, R> {
    if calls == [] then s
    else
      var before, c := Serial(env, s, calls[..|calls| - 1]), calls[|calls| - 1];
      if c.body.Some? then ApplyWrites(env, before, c.body.value.writes) else before
  }

  /** The first call that is done without a body, or the number of calls. */
  function FirstMissing<R>(calls: seq<Call<R>>, from: nat): (k: nat)
    requires from <= |calls|
    ensures from <= k <= |calls| && (k < |calls| ==> calls[k].done && calls[k].body.None?)
    ensures forall i :: from <= i < k ==> !(calls[i].done && calls[i].body.None?)
    decreases |calls| - from
  {
    if from == |calls| || (calls[from].done && calls[from].body.None?) then from else FirstMissing(calls, from + 1)
  }

  /** Applies each call's writes in call order and gives the round's messages and effect. A call
      without its result is cancelled; what it wrote is still applied. None is a call that lost its
      body: the calls before it are applied then. */
  method CommitReplyRound<V, R>(session: SessionManager<V, R>, env: Env<V, R>, r: Round<R>)
    returns (out: Option<(seq<Message>, Effect)>)
    requires OfReply(r)
    modifies session, session.plan
    ensures out.None? <==> FirstMissing(r.calls, 0) < |r.calls|
    ensures session.Value() == Serial(env, old(session.Value()), r.calls[..FirstMissing(r.calls, 0)])
    ensures out.Some? ==> out.value == (r.reply.messages + Results(r.calls), EffectOf(r.calls))
    ensures out.Some? ==> IsRound(r, out.value.0)
  {
    hide ApplyWrites, Results, EffectOf, Serial, IsRound;
    var msgs, effect := r.reply.messages, NoEffect;
    CallsStart(env, session.Value(), r.calls);
    Empty(msgs);
    for i := 0 to |r.calls|
      invariant FirstMissing(r.calls, 0) >= i
      invariant session.Value() == Serial(env, old(session.Value()), r.calls[..i])
      invariant msgs == r.reply.messages + Results(r.calls[..i]) && effect == EffectOf(r.calls[..i])
    {
      var c := r.calls[i];
      CallsStep(env, old(session.Value()), r.calls, i);
      Assoc(r.reply.messages, Results(r.calls[..i]), [ResultOf(c)]);
      if c.done && c.body.None? {
        return None;
      }
      var result := ResultMessage(c.tool, CANCELLED);
      if c.body.Some? {
        session.Apply(env, c.body.value.writes);
        var _ := session.plan.ConsumeUpdated();
        if c.done {
          result := c.body.value.result.value;
        }
        effect := Stronger(effect, c.body.value.effect);
      }
      msgs := msgs + [result];
    }
    assert r.calls[..|r.calls|] == r.calls;
    ResultsAnswer(r);
    out := Some((msgs, effect));
  }

  /** What a round commits: the reply's messages, and then for each call, in order, the result its body
      has, or that the call was cancelled when it is not done. */
  predicate IsRound<R>(r: Round<R>, msgs: seq<Message>) {
    var n := |r.reply.messages|;
    |msgs| == n + |r.calls| && msgs[..n] == r.reply.messages &&
    forall i :: 0 <= i < |r.calls| ==> Answers(r.calls[i], msgs[n + i])
  }

  predicate Answers<R>(c: Call<R>, m: Message) {
    if c.done then c.body.Some? && c.body.value.result == Some(m)
    else m == Plain(Tool, CANCELLED).(toolCallId := c.tool.WireId())
  }

  lemma ResultsAnswer<R>(r: Round<R>)
    requires OfReply(r) && FirstMissing(r.calls, 0) == |r.calls|
    ensures IsRound(r, r.reply.messages + Results(r.calls))
  {
    hide FirstMissing;
    var n, msgs := |r.reply.messages|, r.reply.messages + Results(r.calls);
    forall i | 0 <= i < |r.calls| ensures Answers(r.calls[i], msgs[n + i]) {
      assert msgs[n + i] == ResultOf(r.calls[i]) && Ran(r.calls[i]);
    }
  }

  lemma CallsStart<V, R>(env: Env<V, R>, s: Committed<V, R>, calls: seq<Call<R>>)
    ensures Serial(env, s, calls[..0]) == s && EffectOf(calls[..0]) == NoEffect && Results(calls[..0]) == []
  {
  }

  lemma CallsStep<V, R>(env: Env<V, R>, s: Committed<V, R>, calls: seq<Call<R>>, i: nat)
    requires i < |calls|
    ensures var c, before := calls[i], Serial(env, s, calls[..i]);
      Serial(env, s, calls[..i + 1]) == (if c.body.Some? then ApplyWrites(env, before, c.body.value.writes) else before) &&
      EffectOf(calls[..i + 1]) == (if c.body.Some? then Stronger(EffectOf(calls[..i]), c.body.value.effect) else EffectOf(calls[..i])) &&
      Results(calls[..i + 1]) == Results(calls[..i]) + [ResultOf(c)]
  {
    hide ApplyWrites, ResultOf, Stronger;
    assert calls[..i + 1][..i] == calls[..i];
  }

  // ---------------------------------------------------------------------------------------------
  // The round is complete
  // ---------------------------------------------------------------------------------------------

  lemma ScanNone(pending: seq<string>)
    ensures ScanAll(Scan(pending, false), []) == Some(Scan(pending, false)) && CallIds([]) == []
  {
  }

  lemma ScanStep(pending: seq<string>, msgs: seq<Message>)
    requires msgs != [] && (msgs[0].role == Assistant || (msgs[0].role == Reasoning && msgs[0].calls == []))
    ensures ScanAll(Scan(pending, false), msgs) ==
      ScanAll(Scan(if msgs[0].role == Assistant then pending + WireIds(msgs[0].calls) else pending, false), msgs[1..])
    ensures CallIds(msgs) == if msgs[0].role == Assistant then WireIds(msgs[0].calls) + CallIds(msgs[1..]) else CallIds(msgs[1..])
  {
    hide WireIds;
    Empty(CallIds(msgs[1..]));
  }

  lemma {:induction false} ScanReply(pending: seq<string>, msgs: seq<Message>)
    requires forall m :: m in msgs ==> m.role == Assistant || (m.role == Reasoning && m.calls == [])
    ensures ScanAll(Scan(pending, false), msgs) == Some(Scan(pending + CallIds(msgs), false))
    decreases |msgs|
  {
    hide *;
    if msgs == [] {
      ScanNone(pending);
      Empty(pending);
    } else {
      var m := msgs[0];
      assert m in msgs && forall x :: x in msgs[1..] ==> x in msgs;
      ScanStep(pending, msgs);
      ScanReply(if m.role == Assistant then pending + WireIds(m.calls) else pending, msgs[1..]);
      Assoc(pending, WireIds(m.calls), CallIds(msgs[1..]));
    }
  }

  lemma {:induction false} ScanResults(pending: seq<string>, answering: bool, msgs: seq<Message>)
    requires |pending| == |msgs|
    requires answering ==> pending != []
    requires forall i :: 0 <= i < |msgs| ==> msgs[i].role == Tool && msgs[i].toolCallId == pending[i]
    ensures ScanAll(Scan(pending, answering), msgs) == Some(Scan([], if msgs == [] then answering else false))
    decreases |msgs|
  {
    if msgs != [] {
      assert ScanOne(Scan(pending, answering), msgs[0]) == Some(Scan(pending[1..], |pending| > 1));
      ScanResults(pending[1..], |pending| > 1, msgs[1..]);
    }
  }

  /** Every round a commit appends is complete: each call has exactly one result, in call order,
      cancelled calls included. */
  lemma RoundIsComplete<R>(r: Round<R>)
    requires FromModel(r.reply) && OfReply(r)
    ensures Complete(r.reply.messages + Results(r.calls))
  {
    var ids := CallIds(r.reply.messages);
    ScanReply([], r.reply.messages);
    assert [] + ids == ids;
    var results := Results(r.calls);
    forall i | 0 <= i < |results| ensures results[i].role == Tool && results[i].toolCallId == ids[i] {
      assert Ran(r.calls[i]) && ids[i] == r.reply.calls[i].WireId();
    }
    ScanResults(ids, false, results);
    ScanAppend(IDLE, r.reply.messages, results);
  }

  // ---------------------------------------------------------------------------------------------
  // Commit as a serial run
  // ---------------------------------------------------------------------------------------------

  function StateWrites<R>(calls: seq<Call<R>>): seq<StateWrite> {
    if calls == [] then []
    else
      var c := calls[|calls| - 1];
      StateWrites(calls[..|calls| - 1]) + if c.body.Some? then c.body.value.writes.state else []
  }

  lemma {:induction false} ApplyStateAppend<V, R>(env: Env<V, R>, user: map<string, V>, a: seq<StateWrite>, b: seq<StateWrite>)
    ensures ApplyState(env, user, a + b) == ApplyState(env, ApplyState(env, user, a), b)
    decreases |b|
  {
    if b == [] {
      assert a + b == a;
    } else {
      assert (a + b)[..|a + b| - 1] == a + b[..|b| - 1];
      ApplyStateAppend(env, user, a, b[..|b| - 1]);
    }
  }

  lemma {:induction false} SerialUser<V, R>(env: Env<V, R>, s: Committed<V, R>, calls: seq<Call<R>>)
    ensures Serial(env, s, calls).user == ApplyState(env, s.user, StateWrites(calls))
    decreases |calls|
  {
    if calls != [] {
      hide ApplyState;
      var init, c := calls[..|calls| - 1], calls[|calls| - 1];
      SerialUser(env, s, init);
      if c.body.Some? {
        ApplyStateAppend(env, s.user, StateWrites(init), c.body.value.writes.state);
      } else {
        assert StateWrites(init) + [] == StateWrites(init);
      }
    }
  }

  lemma {:induction false} LastOwn<V, R>(env: Env<V, R>, ws: seq<StateWrite>, i: nat)
    requires i < |ws| && forall j :: i < j < |ws| ==> ws[j].key != ws[i].key
    ensures ws[i].key in OwnValues(env, ws)
    ensures OwnValues(env, ws)[ws[i].key] ==
            if ws[i].value.None? then None else Some(Decoded(env, ws[i].value.value))
    decreases |ws|
  {
    if i < |ws| - 1 { LastOwn(env, ws[..|ws| - 1], i); }
  }

  lemma {:induction false} OwnKeys<V, R>(env: Env<V, R>, ws: seq<StateWrite>, key: string)
    ensures key in OwnValues(env, ws) <==> exists i :: 0 <= i < |ws| && ws[i].key == key
    decreases |ws|
  {
    if ws != [] { OwnKeys(env, ws[..|ws| - 1], key); }
  }

  /** Of the calls' writes of a key, in call order, the last one counts; a key no call wrote is as it
      was. */
  lemma LastWriteWins<V, R>(env: Env<V, R>, s: Committed<V, R>, calls: seq<Call<R>>, key: string)
    ensures (forall w :: w in StateWrites(calls) ==> w.key != key) ==> Lookup(Serial(env, s, calls).user, key) == Lookup(s.user, key)
    ensures forall i :: 0 <= i < |StateWrites(calls)| && StateWrites(calls)[i].key == key &&
                        (forall j :: i < j < |StateWrites(calls)| ==> StateWrites(calls)[j].key != key) ==>
              Lookup(Serial(env, s, calls).user, key) ==
              (var v := StateWrites(calls)[i].value; if v.None? then None else Some(Decoded(env, v.value)))
  {
    hide Serial, StateWrites, OwnValues, ApplyState;
    var ws := StateWrites(calls);
    SerialUser(env, s, calls);
    OwnOverCommitted(env, s.user, ws, key);
    OwnKeys(env, ws, key);
    forall i | 0 <= i < |ws| && ws[i].key == key && forall j :: i < j < |ws| ==> ws[j].key != key
      ensures Lookup(Serial(env, s, calls).user, key) == if ws[i].value.None? then None else Some(Decoded(env, ws[i].value.value))
    {
      LastOwn(env, ws, i);
    }
  }

  function PlanOps<R>(calls: seq<Call<R>>): seq<PlanOp> {
    if calls == [] then []
    else
      var c := calls[|calls| - 1];
      PlanOps(calls[..|calls| - 1]) + if c.body.Some? then c.body.value.writes.plan else []
  }

  lemma {:induction false} SerialBoard<V, R>(env: Env<V, R>, s: Committed<V, R>, calls: seq<Call<R>>)
    ensures Serial(env, s, calls).board == ReplayAll(env.trim, PlanOps(calls), s.board)
    decreases |calls|
  {
    if calls != [] {
      hide ReplayAll, ApplyState, ApplyPermissions, ApplyRests;
      var init, c := calls[..|calls| - 1], calls[|calls| - 1];
      SerialBoard(env, s, init);
      if c.body.Some? {
        ReplayAppend(env.trim, PlanOps(init), c.body.value.writes.plan, s.board);
      } else {
        assert PlanOps(init) + [] == PlanOps(init);
      }
    } else {
      NoOps(env.trim, s.board);
    }
  }

  lemma NoOps(trim: Trim, b: Board)
    ensures ReplayAll(trim, [], b) == b
  {
  }

  /** A commit never takes a completed todo away. */
  lemma CommitKeepsCompleted<V, R>(env: Env<V, R>, s: Committed<V, R>, calls: seq<Call<R>>)
    ensures Subsequence(CompletedIn(s.board), CompletedIn(Serial(env, s, calls).board))
  {
    SerialBoard(env, s, calls);
    CompletedStay(env.trim, PlanOps(calls), s.board);
  }

  /** Installing a plan wins over a handoff, whichever call asks for it. */
  lemma {:induction false} StrongestEffect<R>(calls: seq<Call<R>>)
    ensures EffectOf(calls) == InstallPlan <==> exists c :: c in calls && c.body.Some? && c.body.value.effect == InstallPlan
    ensures EffectOf(calls) == NoEffect <==> forall c :: c in calls && c.body.Some? ==> c.body.value.effect == NoEffect
    decreases |calls|
  {
    if calls != [] {
      var init, c := calls[..|calls| - 1], calls[|calls| - 1];
      StrongestEffect(init);
      assert calls == init + [c] && c in calls;
    }
  }
}
