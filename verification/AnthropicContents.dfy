/** What the turns of a window hold, message by message (anthropic/wire.go, turns, userBlocks). */
module AnthropicContents {
  import opened Messages
  import opened AnthropicTurns
  import opened Sequences
  import ContextWindow

  // ---------------------------------------------------------------------------------------------
  // What each message puts in which turn
  // ---------------------------------------------------------------------------------------------

  /** A block and the role of its turn. */
  datatype Piece = Piece(role: TurnRole, block: Block)

  function Tag(role: TurnRole, blocks: seq<Block>): (ps: seq<Piece>)
    ensures |ps| == |blocks| && forall i :: 0 <= i < |ps| ==> ps[i] == Piece(role, blocks[i])
  {
    seq(|blocks|, i requires 0 <= i < |blocks| => Piece(role, blocks[i]))
  }

  /** The blocks of the turns that are no results, in order, each with its turn's role. */
  function Said(out: seq<Turn>): seq<Piece> {
    if out == [] then [] else Tag(out[0].role, Others(out[0].content)) + Said(out[1..])
  }

  /** ps are the media of the parts that have any, in order. */
  ghost predicate IsMedia(parts: seq<Part>, ps: seq<Piece>) {
    exists at: seq<nat> :: MediaAt(parts, ps, at)
  }

  predicate MediaAt(parts: seq<Part>, ps: seq<Piece>, at: seq<nat>) {
    Rising(at, |parts|) && |at| == |ps| && (forall i :: 0 <= i < |parts| ==> (i in at <==> parts[i].media.Some?)) &&
    forall j :: 0 <= j < |at| ==>
      parts[at[j]].media.Some? && ps[j] == Piece(UserTurn, Media(parts[at[j]].media.value))
  }

  /** A call: its wire id, its qualified name and its input. */
  predicate IsUse(tc: ToolCall, wire: Wire, p: Piece) {
    p.role == AssistantTurn && p.block.ToolUse? &&
    p.block.id == (if tc.callId != "" then tc.callId else tc.id) &&
    p.block.name == (if tc.namespace != "" then tc.namespace + "__" + tc.name else tc.name) &&
    p.block.input == wire.input(tc.arguments)
  }

  /** What a message sends, but for a result: a user's media and text; a reply's text and then its
      calls; a developer's or the system's text as a reminder, cached when it is the plan; a thinking
      block as it came. */
  ghost predicate Holds(m: Message, wire: Wire, ps: seq<Piece>) {
    match m.role
    case User =>
      if wire.trim(m.content) != "" then
        ps != [] && ps[|ps| - 1] == Piece(UserTurn, Text(wire.trim(m.content), false)) && IsMedia(m.parts, ps[..|ps| - 1])
      else IsMedia(m.parts, ps)
    case Assistant =>
      var n := if m.content != "" then 1 else 0;
      |ps| == n + |m.calls| && (n == 1 ==> ps[0] == Piece(AssistantTurn, Text(m.content, false))) &&
      forall j :: 0 <= j < |m.calls| ==> IsUse(m.calls[j], wire, ps[n + j])
    case Reasoning => ps == if wire.isThinking(m.encrypted) then [Piece(AssistantTurn, Thinking(m.encrypted))] else []
    case Tool => ps == []
    case _ =>
      var text := wire.trim(m.content);
      if text != "" then
        |ps| == 1 && ps[0].role == UserTurn && ps[0].block.Text? &&
        ps[0].block.text == "<system-reminder>\n" + text + "\n</system-reminder>" &&
        (ps[0].block.cached <==> ContextWindow.IsPlanDocument(m))
      else ps == []
  }

  /** said is cut into one segment for each message, in order, that holds what the message sends. */
  ghost predicate Segments(msgs: seq<Message>, wire: Wire, said: seq<Piece>, ends: seq<nat>) {
    |ends| == |msgs| + 1 && ends[0] == 0 && ends[|msgs|] == |said| &&
    forall i :: 0 <= i < |msgs| ==> Segment(msgs[i], wire, said, ends, i)
  }

  ghost predicate Segment(m: Message, wire: Wire, said: seq<Piece>, ends: seq<nat>, i: nat)
    requires i + 1 < |ends|
  {
    ends[i] <= ends[i + 1] <= |said| && Holds(m, wire, said[ends[i]..ends[i + 1]])
  }

  // ---------------------------------------------------------------------------------------------
  // How a step changes what is said
  // ---------------------------------------------------------------------------------------------

  lemma TagAppend(role: TurnRole, a: seq<Block>, b: seq<Block>)
    ensures Tag(role, a + b) == Tag(role, a) + Tag(role, b)
  {
  }

  lemma TagOne(role: TurnRole, b: Block)
    ensures Tag(role, [b]) == [Piece(role, b)]
  {
  }

  lemma {:induction false} SaidLast(out: seq<Turn>, t: Turn)
    ensures Said(out + [t]) == Said(out) + Tag(t.role, Others(t.content))
  {
    hide Tag, Others;
    if out == [] {
      assert [t][1..] == [] && out + [t] == [t];
      Empty(Tag(t.role, Others(t.content)));
    } else {
      Uncons(out, [t]);
      SaidLast(out[1..], t);
      Assoc(Tag(out[0].role, Others(out[0].content)), Said(out[1..]), Tag(t.role, Others(t.content)));
    }
  }

  lemma OtherOne(b: Block)
    requires !b.ToolResult?
    ensures Others([b]) == [b]
  {
    assert [b][1..] == [];
  }

  lemma AddSaid(st: State, role: TurnRole, b: Block)
    requires !b.ToolResult?
    ensures Said(Add(st, role, b).out) == Said(st.out) + [Piece(role, b)]
  {
    hide Said, Others;
    var n := |st.out|;
    OtherOne(b);
    if n == 0 || st.out[n - 1].role != role {
      SaidLast(st.out, Turn(role, [b]));
      TagOne(role, b);
    } else {
      var init, c := st.out[..n - 1], st.out[n - 1].content;
      assert st.out == init + [st.out[n - 1]];
      assert Add(st, role, b).out == init + [Turn(role, c + [b])];
      SaidLast(init, st.out[n - 1]);
      SaidLast(init, Turn(role, c + [b]));
      OthersAppend(c, [b]);
      TagAppend(role, Others(c), [b]);
      TagOne(role, b);
    }
  }

  lemma AddResultSaid(st: State, b: Block)
    requires Shaped(st) && b.ToolResult? && Accepts(st, b.useId)
    ensures Said(AddResult(st, b).out) == Said(st.out)
  {
    hide Said, WellShaped, Others, ResultsIn;
    var n := |st.out|;
    OneResult(b);
    if st.out[n - 1].role == AssistantTurn {
      assert AddResult(st, b).out == st.out + [Turn(UserTurn, [b])];
      SaidLast(st.out, Turn(UserTurn, [b]));
      Empty(Said(st.out));
    } else {
      var init, c, k := st.out[..n - 1], st.out[n - 1].content, st.results;
      var d := c[..k] + [b] + c[k..];
      assert st.out == init + [st.out[n - 1]];
      assert AddResult(st, b).out == init + [Turn(UserTurn, d)];
      SaidLast(init, st.out[n - 1]);
      SaidLast(init, Turn(UserTurn, d));
      ShapedOthers(st.out[n - 1], k);
      InsertedOthers(c, k, b);
    }
  }

  lemma {:induction false} AddBlocksSaid(st: State, role: TurnRole, blocks: seq<Block>)
    requires forall b :: b in blocks ==> IsPlain(b)
    ensures Said(AddBlocks(st, role, blocks).out) == Said(st.out) + Tag(role, blocks)
    decreases |blocks|
  {
    hide Add, Said;
    if blocks != [] {
      assert IsPlain(blocks[0]) by { assert blocks[0] in blocks; }
      AddSaid(st, role, blocks[0]);
      AddBlocksSaid(Add(st, role, blocks[0]), role, blocks[1..]);
      hide *;
      assert blocks == [blocks[0]] + blocks[1..];
      TagAppend(role, [blocks[0]], blocks[1..]);
      TagOne(role, blocks[0]);
      Assoc(Said(st.out), [Piece(role, blocks[0])], Tag(role, blocks[1..]));
    }
  }

  lemma {:induction false} AddCallsSaid(st: State, calls: seq<ToolCall>, wire: Wire)
    ensures Said(AddCalls(st, calls, wire).out) == Said(st.out) + Tag(AssistantTurn, UseBlocks(calls, wire))
    decreases |calls|
  {
    hide Add, Said, UseOf, UseBlocks, AddCalls;
    AddCallsStep(st, calls, wire);
    if calls == [] {
      NoUseBlocks(wire);
    } else {
      var b := UseOf(calls[0], wire);
      UseBlocksStep(calls, wire);
      UseIsUse(calls[0], wire);
      AddSaid(st, AssistantTurn, b);
      var next := Add(st, AssistantTurn, b);
      AddCallsSaid(next.(calls := next.calls + {calls[0].WireId()}), calls[1..], wire);
      TagAppend(AssistantTurn, [b], UseBlocks(calls[1..], wire));
      TagOne(AssistantTurn, b);
      Assoc(Said(st.out), [Piece(AssistantTurn, b)], Tag(AssistantTurn, UseBlocks(calls[1..], wire)));
    }
  }

  lemma UseIsUse(tc: ToolCall, wire: Wire)
    ensures UseOf(tc, wire).ToolUse?
    ensures IsUse(tc, wire, Piece(AssistantTurn, UseOf(tc, wire)))
  {
  }

  function Blocks(m: Message, wire: Wire): seq<Block> {
    OwnBlocks(m, wire) + Uses(m, wire)
  }

  lemma AddMessageSaid(st: State, m: Message, wire: Wire)
    requires Shaped(st)
    ensures Said(AddMessage(st, m, wire).out) == Said(st.out) + Tag(RoleOf(m), Blocks(m, wire))
  {
    hide Shaped, AddResult, AddBlocks, AddCalls, Said, Accepts, UseBlocks, MediaBlocks, TextBlocks;
    if m.role == Tool {
      if Accepts(st, m.toolCallId) {
        AddResultSaid(st, ToolResult(m.toolCallId, m.content));
      }
    } else {
      hide OwnBlocks;
      var own := OwnBlocks(m, wire);
      OwnBlocksPlain(m, wire);
      AddBlocksSaid(st, RoleOf(m), own);
      TagAppend(RoleOf(m), own, Uses(m, wire));
      if m.role == Assistant {
        AddCallsSaid(AddBlocks(st, RoleOf(m), own), m.calls, wire);
        Assoc(Said(st.out), Tag(RoleOf(m), own), Tag(RoleOf(m), Uses(m, wire)));
      }
    }
  }

  // ---------------------------------------------------------------------------------------------
  // What a message's blocks are
  // ---------------------------------------------------------------------------------------------

  function MediaOf(p: Part): seq<Block> {
    if p.media.Some? then [Media(p.media.value)] else []
  }

  lemma MediaFirst(parts: seq<Part>)
    requires parts != []
    ensures MediaBlocks(parts) == MediaOf(parts[0]) + MediaBlocks(parts[1..])
    ensures MediaBlocks([]) == []
  {
  }

  lemma {:induction false} MediaLast(parts: seq<Part>, p: Part)
    ensures MediaBlocks(parts + [p]) == MediaBlocks(parts) + MediaOf(p)
  {
    hide MediaBlocks, MediaOf;
    MediaFirst(parts + [p]);
    Empty(MediaOf(p));
    if parts == [] {
      assert parts + [p] == [p] && [p][1..] == [];
    } else {
      Uncons(parts, [p]);
      MediaFirst(parts);
      MediaLast(parts[1..], p);
      Assoc(MediaOf(parts[0]), MediaBlocks(parts[1..]), MediaOf(p));
    }
  }

  lemma MediaAdded(parts: seq<Part>, p: Part, ps: seq<Piece>, at: seq<nat>)
    requires MediaAt(parts, ps, at)
    ensures p.media.Some? ==> MediaAt(parts + [p], ps + [Piece(UserTurn, Media(p.media.value))], at + [|parts|])
    ensures p.media.None? ==> MediaAt(parts + [p], ps, at)
  {
    var all, last: seq<nat> := parts + [p], [|parts|];
    var next := at + last;
    assert |parts| in next && forall i :: i in at ==> i in next;
  }

  lemma {:induction false} MediaHolds(parts: seq<Part>)
    ensures IsMedia(parts, Tag(UserTurn, MediaBlocks(parts)))
    decreases |parts|
  {
    hide MediaAt;
    if parts == [] {
      NoMedia();
    } else {
      hide Tag, MediaBlocks;
      var init, p := parts[..|parts| - 1], parts[|parts| - 1];
      Snoc(parts);
      MediaHolds(init);
      MediaLast(init, p);
      Empty(MediaBlocks(init));
      var at :| MediaAt(init, Tag(UserTurn, MediaBlocks(init)), at);
      MediaAdded(init, p, Tag(UserTurn, MediaBlocks(init)), at);
      if p.media.Some? {
        TagAppend(UserTurn, MediaBlocks(init), [Media(p.media.value)]);
        TagOne(UserTurn, Media(p.media.value));
        var last: seq<nat> := [|init|];
        assert MediaAt(parts, Tag(UserTurn, MediaBlocks(parts)), at + last);
      }
    }
  }

  lemma NoMedia()
    ensures MediaAt([], Tag(UserTurn, MediaBlocks([])), [])
  {
  }

  lemma {:induction false} UsesHold(calls: seq<ToolCall>, wire: Wire)
    ensures |UseBlocks(calls, wire)| == |calls|
    ensures forall j :: 0 <= j < |calls| ==> IsUse(calls[j], wire, Piece(AssistantTurn, UseBlocks(calls, wire)[j]))
  {
    hide UseOf, IsUse;
    if calls != [] {
      UseIsUse(calls[0], wire);
      UsesHold(calls[1..], wire);
    }
  }

  lemma BlocksHold(m: Message, wire: Wire)
    ensures Holds(m, wire, Tag(RoleOf(m), Blocks(m, wire)))
  {
    hide IsMedia, MediaBlocks, UseBlocks, IsUse;
    match m.role {
      case User =>
        MediaHolds(m.parts);
        var media := MediaBlocks(m.parts);
        assert Blocks(m, wire)[..|media|] == media;
        TagAppend(UserTurn, media, TextBlocks(wire.trim(m.content), false));
        assert Tag(UserTurn, Blocks(m, wire))[..|media|] == Tag(UserTurn, media);
      case Assistant =>
        UsesHold(m.calls, wire);
      case _ =>
    }
  }

  // ---------------------------------------------------------------------------------------------
  // Over a window
  // ---------------------------------------------------------------------------------------------

  lemma {:induction false} AddAllLast(st: State, msgs: seq<Message>, m: Message, wire: Wire)
    ensures AddAll(st, msgs + [m], wire) == AddMessage(AddAll(st, msgs, wire), m, wire)
    decreases |msgs|
  {
    hide AddMessage;
    if msgs == [] {
      assert msgs + [m] == [m] && [m][1..] == [];
    } else {
      Uncons(msgs, [m]);
      AddAllLast(AddMessage(st, msgs[0], wire), msgs[1..], m, wire);
    }
  }

  lemma WindowShaped(msgs: seq<Message>, wire: Wire)
    ensures Shaped(AddAll(START, msgs, wire))
  {
    assert Shaped(START);
    AddAllShaped(START, msgs, wire);
  }

  lemma SegmentAdded(msgs: seq<Message>, m: Message, wire: Wire, said: seq<Piece>, more: seq<Piece>, ends: seq<nat>)
    requires Segments(msgs, wire, said, ends) && Holds(m, wire, more)
    ensures Segments(msgs + [m], wire, said + more, ends + [|said + more|])
  {
    hide Holds;
    var all, next, after := said + more, ends + [|said + more|], msgs + [m];
    forall i | 0 <= i < |after| ensures Segment(after[i], wire, all, next, i) {
      if i < |msgs| {
        assert Segment(msgs[i], wire, said, ends, i);
        assert next[i] == ends[i] && next[i + 1] == ends[i + 1] && after[i] == msgs[i];
        assert all[ends[i]..ends[i + 1]] == said[ends[i]..ends[i + 1]];
      } else {
        assert all[|said|..|all|] == more;
      }
    }
  }

  /** Main result: for every window, what the turns hold besides results is, message by message and
      in order, what each message sends, in a turn of its role. */
  lemma {:induction false} TurnsHold(msgs: seq<Message>, wire: Wire) returns (ends: seq<nat>)
    ensures Segments(msgs, wire, Said(AddAll(START, msgs, wire).out), ends)
    decreases |msgs|
  {
    hide AddMessage, Shaped, Holds, Blocks, Tag;
    if msgs == [] {
      ends := [0];
    } else {
      hide AddAll, Said, Segments;
      var init, m := msgs[..|msgs| - 1], msgs[|msgs| - 1];
      Snoc(msgs);
      ends := TurnsHold(init, wire);
      AddAllLast(START, init, m, wire);
      WindowShaped(init, wire);
      var st := AddAll(START, init, wire);
      AddMessageSaid(st, m, wire);
      BlocksHold(m, wire);
      SegmentAdded(init, m, wire, Said(st.out), Tag(RoleOf(m), Blocks(m, wire)), ends);
      ends := ends + [|Said(AddAll(START, msgs, wire).out)|];
    }
  }

  // ---------------------------------------------------------------------------------------------
  // Which results are sent
  // ---------------------------------------------------------------------------------------------

  predicate HasUse(content: seq<Block>, id: string) {
    exists b :: b in content && b.ToolUse? && b.id == id
  }

  /** A result can still be sent after these turns: its call is in the last one, or in the one before
      it when the last one opens with results. */
  predicate CanAnswer(out: seq<Turn>, id: string) {
    var n := |out|;
    n > 0 &&
    if out[n - 1].role == AssistantTurn then HasUse(out[n - 1].content, id)
    else out[n - 1].content != [] && out[n - 1].content[0].ToolResult? && n > 1 && HasUse(out[n - 2].content, id)
  }

  lemma {:induction false} UseIdsHave(content: seq<Block>, id: string)
    ensures id in UseIds(content) <==> HasUse(content, id)
  {
    if content != [] {
      UseIdsHave(content[1..], id);
      assert content == [content[0]] + content[1..];
      if HasUse(content[1..], id) {
        var b :| b in content[1..] && b.ToolUse? && b.id == id;
        assert b in content;
      }
    }
  }

  lemma AcceptsMeans(st: State, id: string)
    requires Shaped(st)
    ensures Accepts(st, id) <==> CanAnswer(st.out, id)
  {
    hide WellShaped, UseIds, HasUse;
    var n := |st.out|;
    if n > 0 { UseIdsHave(st.out[n - 1].content, id); }
    if n > 1 { UseIdsHave(st.out[n - 2].content, id); }
  }

  /** results are those of the messages at the positions `at`, which are the tool messages that could
      be sent after the turns of the messages before them. */
  ghost predicate Kept(msgs: seq<Message>, wire: Wire, results: seq<Block>, at: seq<nat>) {
    Rising(at, |msgs|) && |at| == |results| &&
    (forall j :: 0 <= j < |at| ==> results[j] == ToolResult(msgs[at[j]].toolCallId, msgs[at[j]].content)) &&
    forall i: nat :: i < |msgs| ==> (i in at <==> CanSend(msgs, wire, i))
  }

  predicate CanSend(msgs: seq<Message>, wire: Wire, i: nat)
    requires i < |msgs|
  {
    msgs[i].role == Tool && CanAnswer(AddAll(START, msgs[..i], wire).out, msgs[i].toolCallId)
  }

  lemma KeptAdded(msgs: seq<Message>, m: Message, wire: Wire, results: seq<Block>, at: seq<nat>)
    requires Kept(msgs, wire, results, at)
    ensures CanSend(msgs + [m], wire, |msgs|) ==>
      Kept(msgs + [m], wire, results + [ToolResult(m.toolCallId, m.content)], at + [|msgs|])
    ensures !CanSend(msgs + [m], wire, |msgs|) ==> Kept(msgs + [m], wire, results, at)
  {
    hide CanAnswer, AddAll;
    var all := msgs + [m];
    forall i: nat | i < |msgs| ensures CanSend(all, wire, i) <==> CanSend(msgs, wire, i) {
      assert all[..i] == msgs[..i];
    }
    assert forall i :: i in at ==> i < |msgs|;
    assert all[..|msgs|] == msgs;
  }

  /** Main result: for every window, the results in its turns are those of the tool messages whose
      call is in the turn right before them, in order, with their contents. */
  lemma {:induction false} ResultsKept(msgs: seq<Message>, wire: Wire) returns (at: seq<nat>)
    ensures Kept(msgs, wire, ResultsIn(Contents(AddAll(START, msgs, wire).out)), at)
    decreases |msgs|
  {
    hide AddMessage, Shaped, CanAnswer, Others, OwnBlocks, Uses;
    if msgs == [] {
      at := [];
    } else {
      hide AddAll, Contents, ResultsIn, Kept, Accepts;
      var init, m := msgs[..|msgs| - 1], msgs[|msgs| - 1];
      Snoc(msgs);
      at := ResultsKept(init, wire);
      AddAllLast(START, init, m, wire);
      WindowShaped(init, wire);
      var st := AddAll(START, init, wire);
      AddMessageOrder(st, m, wire);
      AcceptsMeans(st, m.toolCallId);
      KeptAdded(init, m, wire, ResultsIn(Contents(st.out)), at);
      Empty(ResultsIn(Contents(st.out)));
      assert msgs[..|init|] == init;
      if CanSend(msgs, wire, |init|) { at := at + [|init|]; }
    }
  }
}
