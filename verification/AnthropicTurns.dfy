/** The Messages API turns of a window (anthropic/wire.go, turns). */
module AnthropicTurns {
  import opened Messages
  import ContextWindow
  import opened Sequences

  datatype TurnRole = UserTurn | AssistantTurn

  /** A content block, without its encoding. */
  datatype Block =
    | Text(text: Bytes, cached: bool)
    | Media(media: string)
    | Thinking(raw: string)
    | ToolUse(id: string, name: string, input: string)
    | ToolResult(useId: string, output: Bytes)

  datatype Turn = Turn(role: TurnRole, content: seq<Block>)

  /** The parts of the encoding that are not modelled: trimming white space, whether a reasoning's
      opaque data is a thinking block of this provider, and a call's arguments as a JSON object. */
  datatype Wire = Wire(trim: Bytes -> Bytes, isThinking: string -> bool, input: string -> string)

  /** The encoder's state: the turns so far, the tool_use ids of the last assistant turn, and how
      many results open the last user turn. */
  datatype Raw = Raw(out: seq<Turn>, calls: set<string>, results: nat)

  predicate InRange(st: Raw) {
    st.out != [] && st.out[|st.out| - 1].role == UserTurn ==> st.results <= |st.out[|st.out| - 1].content|
  }

  type State = st: Raw | InRange(st) witness Raw([], {}, 0)

  const START: State := Raw([], {}, 0)

  function Add(st: State, role: TurnRole, block: Block): State {
    var n := |st.out|;
    if n == 0 || st.out[n - 1].role != role then
      Raw(st.out + [Turn(role, [block])], if role == AssistantTurn then {} else st.calls, 0)
    else st.(out := st.out[n - 1 := Turn(role, st.out[n - 1].content + [block])])
  }

  function AddBlocks(st: State, role: TurnRole, blocks: seq<Block>): State
    decreases |blocks|
  {
    if blocks == [] then st else AddBlocks(Add(st, role, blocks[0]), role, blocks[1..])
  }

  /** A result goes before any other block of the user turn. */
  function AddResult(st: State, block: Block): State {
    var n := |st.out|;
    if n == 0 || st.out[n - 1].role != UserTurn then
      var next := Add(st, UserTurn, block);
      next.(results := next.results + 1)
    else
      var c, k := st.out[n - 1].content, st.results;
      Raw(st.out[n - 1 := Turn(UserTurn, c[..k] + [block] + c[k..])], st.calls, k + 1)
  }

  function UseOf(tc: ToolCall, wire: Wire): Block {
    ToolUse(tc.WireId(), if tc.namespace == "" then tc.name else tc.namespace + "__" + tc.name, wire.input(tc.arguments))
  }

  function AddCalls(st: State, calls: seq<ToolCall>, wire: Wire): State
    decreases |calls|
  {
    if calls == [] then st
    else
      var next := Add(st, AssistantTurn, UseOf(calls[0], wire));
      AddCalls(next.(calls := next.calls + {calls[0].WireId()}), calls[1..], wire)
  }

  function MediaBlocks(parts: seq<Part>): seq<Block> {
    if parts == [] then []
    else (if parts[0].media.Some? then [Media(parts[0].media.value)] else []) + MediaBlocks(parts[1..])
  }

  function TextBlocks(text: Bytes, cached: bool): seq<Block> {
    if text == "" then [] else [Text(text, cached)]
  }

  /** What a message sends besides its calls, and in which turn. A result sends itself only. */
  function OwnBlocks(m: Message, wire: Wire): seq<Block> {
    match m.role
    case User => MediaBlocks(m.parts) + TextBlocks(wire.trim(m.content), false)
    case Reasoning => if wire.isThinking(m.encrypted) then [Thinking(m.encrypted)] else []
    case Assistant => TextBlocks(m.content, false)
    case Tool => []
    case _ =>
      var text := wire.trim(m.content);
      if text == "" then []
      else [Text("<system-reminder>\n" + text + "\n</system-reminder>", ContextWindow.IsPlanDocument(m))]
  }

  function RoleOf(m: Message): TurnRole {
    if m.role == Reasoning || m.role == Assistant then AssistantTurn else UserTurn
  }

  /** Whether a result's call is in the assistant turn right before it. */
  predicate Accepts(st: State, id: string) {
    st.out != [] && (st.out[|st.out| - 1].role == AssistantTurn || st.results > 0) && id in st.calls
  }

  function AddMessage(st: State, m: Message, wire: Wire): State {
    if m.role == Tool then
      if Accepts(st, m.toolCallId) then AddResult(st, ToolResult(m.toolCallId, m.content)) else st
    else
      var next := AddBlocks(st, RoleOf(m), OwnBlocks(m, wire));
      if m.role == Assistant then AddCalls(next, m.calls, wire) else next
  }

  function AddAll(st: State, msgs: seq<Message>, wire: Wire): State
    decreases |msgs|
  {
    if msgs == [] then st else AddAll(AddMessage(st, msgs[0], wire), msgs[1..], wire)
  }

  // ---------------------------------------------------------------------------------------------
  // The loop of the source
  // ---------------------------------------------------------------------------------------------

  /** The encoder as an object: what the closures of the source share. */
  class Encoder {
    var out: seq<Turn>
    var calls: set<string>
    var results: nat

    ghost function View(): Raw
      reads this
    {
      Raw(out, calls, results)
    }

    ghost predicate Valid()
      reads this
    {
      InRange(View())
    }

    constructor ()
      ensures Valid() && View() == START
    {
      out, calls, results := [], {}, 0;
    }

    method Append(role: TurnRole, block: Block)
      requires Valid()
      modifies this
      ensures Valid() && View() == Add(old(View()), role, block)
    {
      assert [] + [block] == [block];
      if |out| == 0 || out[|out| - 1].role != role {
        assert (out + [Turn(role, [])])[|out| := Turn(role, [block])] == out + [Turn(role, [block])];
        out := out + [Turn(role, [])];
        if role == AssistantTurn {
          calls := {};
        }
        results := 0;
      }
      var last := out[|out| - 1];
      out := out[|out| - 1 := Turn(last.role, last.content + [block])];
    }

    method Insert(block: Block)
      requires Valid()
      modifies this
      ensures Valid() && View() == AddResult(old(View()), block)
    {
      if |out| == 0 || out[|out| - 1].role != UserTurn {
        Append(UserTurn, block);
      } else {
        var c := out[|out| - 1].content;
        out := out[|out| - 1 := Turn(UserTurn, c[..results] + [block] + c[results..])];
      }
      results := results + 1;
    }

    method AppendAll(role: TurnRole, blocks: seq<Block>)
      requires Valid()
      modifies this
      ensures Valid() && View() == AddBlocks(old(View()), role, blocks)
    {
      for i := 0 to |blocks|
        invariant Valid() && AddBlocks(old(View()), role, blocks) == AddBlocks(View(), role, blocks[i..])
      {
        assert blocks[i..][1..] == blocks[i + 1..];
        Append(role, blocks[i]);
      }
    }

    method AppendCalls(tcs: seq<ToolCall>, wire: Wire)
      requires Valid()
      modifies this
      ensures Valid() && View() == AddCalls(old(View()), tcs, wire)
    {
      hide AddCalls, Add, UseOf;
      assert tcs[0..] == tcs;
      for i := 0 to |tcs|
        invariant Valid() && AddCalls(old(View()), tcs, wire) == AddCalls(View(), tcs[i..], wire)
      {
        Suffix(tcs, i);
        AddCallsStep(View(), tcs[i..], wire);
        Append(AssistantTurn, UseOf(tcs[i], wire));
        calls := calls + {tcs[i].WireId()};
      }
      AddCallsStep(View(), tcs[|tcs|..], wire);
    }

    method Take(m: Message, wire: Wire)
      requires Valid()
      modifies this
      ensures Valid() && View() == AddMessage(old(View()), m, wire)
    {
      hide AddCalls, AddBlocks, AddResult, OwnBlocks;
      if m.role == Tool {
        if |out| > 0 && (out[|out| - 1].role == AssistantTurn || results > 0) && m.toolCallId in calls {
          Insert(ToolResult(m.toolCallId, m.content));
        }
      } else {
        AppendAll(RoleOf(m), OwnBlocks(m, wire));
        if m.role == Assistant {
          AppendCalls(m.calls, wire);
        }
      }
    }
  }

  method Turns(msgs: seq<Message>, wire: Wire) returns (out: seq<Turn>)
    ensures out == AddAll(START, msgs, wire).out
  {
    var e := new Encoder();
    for i := 0 to |msgs|
      invariant e.Valid() && AddAll(START, msgs, wire) == AddAll(e.View(), msgs[i..], wire)
    {
      assert msgs[i..][1..] == msgs[i + 1..];
      e.Take(msgs[i], wire);
    }
    out := e.out;
  }

  // ---------------------------------------------------------------------------------------------
  // The shape of the turns, for every window
  // ---------------------------------------------------------------------------------------------

  function UseIds(content: seq<Block>): seq<string> {
    if content == [] then []
    else (if content[0].ToolUse? then [content[0].id] else []) + UseIds(content[1..])
  }

  /** A user turn: n results, then blocks of other kinds; an assistant turn: no result. */
  predicate TurnShape(t: Turn, n: nat) {
    t.content != [] && n <= |t.content| &&
    match t.role
    case UserTurn => forall j :: 0 <= j < |t.content| ==> (t.content[j].ToolResult? <==> j < n) && !t.content[j].ToolUse?
    case AssistantTurn => n == 0 && forall j :: 0 <= j < |t.content| ==> !t.content[j].ToolResult?
  }

  /** Every result of turn i names a tool_use of the turn before it. */
  predicate Named(out: seq<Turn>, i: nat)
    requires i < |out|
  {
    forall j :: 0 <= j < |out[i].content| && out[i].content[j].ToolResult? ==>
      i > 0 && out[i].content[j].useId in UseIds(out[i - 1].content)
  }

  /** What the API requires of the turns. */
  ghost predicate WellShaped(out: seq<Turn>) {
    (forall i :: 0 < i < |out| ==> out[i - 1].role != out[i].role) &&
    forall i :: 0 <= i < |out| ==> TurnOk(out, i)
  }

  ghost predicate TurnOk(out: seq<Turn>, i: nat)
    requires i < |out|
  {
    (exists n: nat :: TurnShape(out[i], n)) && Named(out, i)
  }

  /** The last assistant turn's calls, which is the last turn or the one before it. */
  function LastUses(out: seq<Turn>): seq<string> {
    var n := |out|;
    if n > 0 && out[n - 1].role == AssistantTurn then UseIds(out[n - 1].content)
    else if n > 1 then UseIds(out[n - 2].content)
    else []
  }

  ghost predicate Shaped(st: State) {
    WellShaped(st.out) &&
    (st.out == [] ==> st.results == 0) &&
    (st.out != [] ==> TurnShape(st.out[|st.out| - 1], st.results)) &&
    forall id :: id in st.calls <==> id in LastUses(st.out)
  }

  lemma {:induction false} UseIdsAppend(a: seq<Block>, b: seq<Block>)
    ensures UseIds(a + b) == UseIds(a) + UseIds(b)
  {
    if a == [] {
      Empty(b);
    } else {
      Uncons(a, b);
      UseIdsAppend(a[1..], b);
      Assoc(if a[0].ToolUse? then [a[0].id] else [], UseIds(a[1..]), UseIds(b));
    }
  }

  lemma UseIdsOne(b: Block)
    ensures UseIds([b]) == if b.ToolUse? then [b.id] else []
  {
    assert [b][1..] == [];
  }

  lemma ShapedPush(out: seq<Turn>, t: Turn, n: nat)
    requires WellShaped(out) && (out != [] ==> out[|out| - 1].role != t.role)
    requires TurnShape(t, n) && Named(out + [t], |out|)
    ensures WellShaped(out + [t])
  {
    hide TurnShape;
    forall i | 0 <= i < |out + [t]| ensures TurnOk(out + [t], i) {
      if i < |out| {
        assert (out + [t])[i] == out[i] && TurnOk(out, i);
        assert i > 0 ==> (out + [t])[i - 1] == out[i - 1];
      }
    }
  }

  lemma ShapedSet(out: seq<Turn>, t: Turn, n: nat)
    requires WellShaped(out) && out != [] && out[|out| - 1].role == t.role
    requires TurnShape(t, n) && Named(out[|out| - 1 := t], |out| - 1)
    ensures WellShaped(out[|out| - 1 := t])
  {
    hide TurnShape;
    var after := out[|out| - 1 := t];
    assert forall i :: 0 <= i < |after| ==> after[i].role == out[i].role;
    forall i | 0 < i < |after| ensures after[i - 1].role != after[i].role {
      assert out[i - 1].role != out[i].role;
    }
    forall i | 0 <= i < |after| ensures TurnOk(after, i) {
      if i < |out| - 1 {
        assert after[i] == out[i] && TurnOk(out, i);
        assert i > 0 ==> after[i - 1] == out[i - 1];
      } else {
        assert after[i] == t && TurnShape(after[i], n);
      }
    }
  }

  /** A block that is neither a use nor a result. */
  predicate IsPlain(b: Block) {
    !b.ToolUse? && !b.ToolResult?
  }

  lemma AddFreshShaped(st: State, role: TurnRole, block: Block)
    requires Shaped(st) && !block.ToolResult? && (role == UserTurn ==> IsPlain(block))
    requires st.out == [] || st.out[|st.out| - 1].role != role
    ensures var next := Add(st, role, block);
      WellShaped(next.out) && TurnShape(next.out[|next.out| - 1], next.results) &&
      next.calls == (if role == AssistantTurn then {} else st.calls) &&
      LastUses(next.out) == if role == AssistantTurn then UseIds([block]) else LastUses(st.out)
  {
    hide WellShaped;
    var t := Turn(role, [block]);
    assert TurnShape(t, 0);
    assert Named(st.out + [t], |st.out|);
    ShapedPush(st.out, t, 0);
  }

  lemma AddSameShaped(st: State, role: TurnRole, block: Block)
    requires Shaped(st) && !block.ToolResult? && (role == UserTurn ==> IsPlain(block))
    requires st.out != [] && st.out[|st.out| - 1].role == role
    ensures var next := Add(st, role, block);
      WellShaped(next.out) && TurnShape(next.out[|next.out| - 1], next.results) && next.calls == st.calls &&
      LastUses(next.out) == LastUses(st.out) + if role == AssistantTurn then UseIds([block]) else []
  {
    hide WellShaped;
    var n := |st.out|;
    var c := st.out[n - 1].content;
    var t := Turn(role, c + [block]);
    UseIdsAppend(c, [block]);
    UseIdsOne(block);
    assert TurnShape(st.out[n - 1], st.results);
    assert TurnShape(t, st.results);
    assert Named(st.out, n - 1) by { WellShapedAt(st.out, n - 1); }
    assert forall j :: 0 <= j < |c + [block]| && (c + [block])[j].ToolResult? ==> j < |c| && (c + [block])[j] == c[j];
    assert Named(st.out[n - 1 := t], n - 1);
    ShapedSet(st.out, t, st.results);
  }

  lemma WellShapedAt(out: seq<Turn>, i: nat)
    requires WellShaped(out) && i < |out|
    ensures Named(out, i)
  {
    assert TurnOk(out, i);
  }

  /** A block that is neither a use nor a result, in either turn. */
  lemma AddPlainShaped(st: State, role: TurnRole, block: Block)
    requires Shaped(st) && IsPlain(block)
    ensures Shaped(Add(st, role, block))
  {
    hide WellShaped;
    UseIdsOne(block);
    if st.out == [] || st.out[|st.out| - 1].role != role {
      AddFreshShaped(st, role, block);
    } else {
      AddSameShaped(st, role, block);
    }
  }

  lemma AddUseShaped(st: State, block: Block)
    requires Shaped(st) && block.ToolUse?
    ensures var next := Add(st, AssistantTurn, block); Shaped(next.(calls := next.calls + {block.id}))
  {
    hide WellShaped;
    UseIdsOne(block);
    if st.out == [] || st.out[|st.out| - 1].role != AssistantTurn {
      AddFreshShaped(st, AssistantTurn, block);
    } else {
      AddSameShaped(st, AssistantTurn, block);
    }
  }

  lemma AddResultShaped(st: State, id: string, output: Bytes)
    requires Shaped(st) && Accepts(st, id)
    ensures Shaped(AddResult(st, ToolResult(id, output)))
  {
    hide Shaped, AddResult;
    if st.out[|st.out| - 1].role == AssistantTurn {
      FreshResultShaped(st, ToolResult(id, output));
    } else {
      InsertedResultShaped(st, ToolResult(id, output));
    }
  }

  /** The first result after a turn with calls. */
  lemma FreshResultShaped(st: State, block: Block)
    requires Shaped(st) && block.ToolResult? && Accepts(st, block.useId) && st.out[|st.out| - 1].role == AssistantTurn
    ensures Shaped(AddResult(st, block))
  {
    hide WellShaped;
    var t := Turn(UserTurn, [block]);
    assert TurnShape(t, 1);
    assert Named(st.out + [t], |st.out|);
    ShapedPush(st.out, t, 1);
  }

  /** A result after other results. */
  lemma InsertedResultShaped(st: State, block: Block)
    requires Shaped(st) && block.ToolResult? && Accepts(st, block.useId) && st.out[|st.out| - 1].role == UserTurn
    ensures Shaped(AddResult(st, block))
  {
    hide WellShaped, UseIds;
    var n, c, k := |st.out|, st.out[|st.out| - 1].content, st.results;
    var t := Turn(UserTurn, c[..k] + [block] + c[k..]);
    InsertedShape(c, k, block);
    WellShapedAt(st.out, n - 1);
    assert c[0].ToolResult?;
    assert n > 1 && st.out[n - 2].role == AssistantTurn by { hide *; Alternates(st.out); }
    NamedInserted(st.out, k, block);
    ShapedSet(st.out, t, k + 1);
  }

  lemma InsertedShape(c: seq<Block>, k: nat, block: Block)
    requires block.ToolResult? && TurnShape(Turn(UserTurn, c), k)
    ensures TurnShape(Turn(UserTurn, c[..k] + [block] + c[k..]), k + 1)
  {
    var d := c[..k] + [block] + c[k..];
    forall j | 0 <= j < |d| ensures (d[j].ToolResult? <==> j < k + 1) && !d[j].ToolUse? {
      assert d[j] == if j < k then c[j] else if j == k then block else c[j - 1];
    }
  }

  lemma Alternates(out: seq<Turn>)
    requires WellShaped(out)
    ensures forall i :: 0 < i < |out| ==> out[i - 1].role != out[i].role
  {
  }

  lemma NamedInserted(out: seq<Turn>, k: nat, block: Block)
    requires |out| > 1 && Named(out, |out| - 1) && k <= |out[|out| - 1].content|
    requires block.ToolResult? && block.useId in UseIds(out[|out| - 2].content)
    ensures var c := out[|out| - 1].content;
      Named(out[|out| - 1 := Turn(UserTurn, c[..k] + [block] + c[k..])], |out| - 1)
  {
    hide UseIds;
    var c := out[|out| - 1].content;
    var d := c[..k] + [block] + c[k..];
    forall j | 0 <= j < |d| && d[j].ToolResult? ensures d[j].useId in UseIds(out[|out| - 2].content) {
      if j < k { assert d[j] == c[j]; } else if j > k { assert d[j] == c[j - 1]; }
    }
  }

  lemma {:induction false} AddBlocksShaped(st: State, role: TurnRole, blocks: seq<Block>)
    requires Shaped(st) && forall b :: b in blocks ==> IsPlain(b)
    ensures Shaped(AddBlocks(st, role, blocks))
    decreases |blocks|
  {
    if blocks != [] {
      hide Shaped, Add;
      AddPlainShaped(st, role, blocks[0]);
      AddBlocksShaped(Add(st, role, blocks[0]), role, blocks[1..]);
    }
  }

  lemma {:induction false} AddCallsShaped(st: State, calls: seq<ToolCall>, wire: Wire)
    requires Shaped(st)
    ensures Shaped(AddCalls(st, calls, wire))
    decreases |calls|
  {
    if calls != [] {
      hide Shaped, Add;
      AddUseShaped(st, UseOf(calls[0], wire));
      var next := Add(st, AssistantTurn, UseOf(calls[0], wire));
      AddCallsShaped(next.(calls := next.calls + {calls[0].WireId()}), calls[1..], wire);
    }
  }

  lemma OwnBlocksPlain(m: Message, wire: Wire)
    ensures forall b :: b in OwnBlocks(m, wire) ==> IsPlain(b)
  {
    MediaPlain(m.parts);
  }

  lemma MediaPlain(parts: seq<Part>)
    ensures forall b :: b in MediaBlocks(parts) ==> IsPlain(b)
  {
  }

  /** Main result: every window, valid or not, gives well-shaped turns. */
  lemma {:induction false} AddAllShaped(st: State, msgs: seq<Message>, wire: Wire)
    requires Shaped(st)
    ensures Shaped(AddAll(st, msgs, wire)) && WellShaped(AddAll(st, msgs, wire).out)
    decreases |msgs|
  {
    if msgs != [] {
      hide Shaped, AddMessage;
      AddMessageShaped(st, msgs[0], wire);
      AddAllShaped(AddMessage(st, msgs[0], wire), msgs[1..], wire);
    }
  }

  lemma TurnsShaped(msgs: seq<Message>, wire: Wire)
    ensures WellShaped(AddAll(START, msgs, wire).out)
  {
    assert Shaped(START);
    AddAllShaped(START, msgs, wire);
  }

  // ---------------------------------------------------------------------------------------------
  // Order: results and other blocks each keep the order of the window
  // ---------------------------------------------------------------------------------------------

  function Others(content: seq<Block>): seq<Block> {
    if content == [] then [] else (if content[0].ToolResult? then [] else [content[0]]) + Others(content[1..])
  }

  function ResultsIn(content: seq<Block>): seq<Block> {
    if content == [] then [] else (if content[0].ToolResult? then [content[0]] else []) + ResultsIn(content[1..])
  }

  function Contents(out: seq<Turn>): seq<Block> {
    if out == [] then [] else out[0].content + Contents(out[1..])
  }

  lemma OthersAppend(a: seq<Block>, b: seq<Block>)
    ensures Others(a + b) == Others(a) + Others(b) && ResultsIn(a + b) == ResultsIn(a) + ResultsIn(b)
  {
    OthersAppendOnly(a, b);
    ResultsAppend(a, b);
  }

  lemma {:induction false} OthersAppendOnly(a: seq<Block>, b: seq<Block>)
    ensures Others(a + b) == Others(a) + Others(b)
  {
    if a == [] {
      Empty(b);
    } else {
      Uncons(a, b);
      OthersAppendOnly(a[1..], b);
      Assoc(if a[0].ToolResult? then [] else [a[0]], Others(a[1..]), Others(b));
    }
  }

  lemma {:induction false} ResultsAppend(a: seq<Block>, b: seq<Block>)
    ensures ResultsIn(a + b) == ResultsIn(a) + ResultsIn(b)
  {
    if a == [] {
      Empty(b);
    } else {
      Uncons(a, b);
      ResultsAppend(a[1..], b);
      Assoc(if a[0].ToolResult? then [a[0]] else [], ResultsIn(a[1..]), ResultsIn(b));
    }
  }

  lemma {:induction false} ContentsAppend(a: seq<Turn>, b: seq<Turn>)
    ensures Contents(a + b) == Contents(a) + Contents(b)
  {
    if a == [] {
      Empty(b);
    } else {
      Uncons(a, b);
      ContentsAppend(a[1..], b);
      Assoc(a[0].content, Contents(a[1..]), Contents(b));
    }
  }

  lemma ContentsLast(out: seq<Turn>, t: Turn)
    ensures Contents(out + [t]) == Contents(out) + t.content
  {
    ContentsAppend(out, [t]);
    assert [t][1..] == [];
    assert Contents([t]) == t.content + [];
  }

  lemma AddContents(st: State, role: TurnRole, block: Block)
    ensures Contents(Add(st, role, block).out) == Contents(st.out) + [block]
  {
    hide Contents;
    var n := |st.out|;
    if n == 0 || st.out[n - 1].role != role {
      ContentsLast(st.out, Turn(role, [block]));
    } else {
      var init, c := st.out[..n - 1], st.out[n - 1].content;
      assert st.out == init + [st.out[n - 1]];
      assert Add(st, role, block).out == init + [Turn(role, c + [block])];
      ContentsLast(init, st.out[n - 1]);
      ContentsLast(init, Turn(role, c + [block]));
    }
  }

  /** What a window sends besides results: each message's own blocks, then its calls. */
  function Sent(msgs: seq<Message>, wire: Wire): seq<Block> {
    if msgs == [] then [] else OwnBlocks(msgs[0], wire) + Uses(msgs[0], wire) + Sent(msgs[1..], wire)
  }

  function Uses(m: Message, wire: Wire): seq<Block> {
    if m.role != Assistant then [] else UseBlocks(m.calls, wire)
  }

  function UseBlocks(calls: seq<ToolCall>, wire: Wire): (uses: seq<Block>)
    ensures forall j :: 0 <= j < |uses| ==> uses[j].ToolUse?
  {
    if calls == [] then [] else [UseOf(calls[0], wire)] + UseBlocks(calls[1..], wire)
  }

  /** The results of msgs that have their call in the turn before, in order. */
  function Accepted(st: State, msgs: seq<Message>, wire: Wire): seq<Block>
    decreases |msgs|
  {
    if msgs == [] then []
    else
      AcceptedOne(st, msgs[0]) + Accepted(AddMessage(st, msgs[0], wire), msgs[1..], wire)
  }

  function AcceptedOne(st: State, m: Message): seq<Block> {
    if m.role == Tool && Accepts(st, m.toolCallId) then [ToolResult(m.toolCallId, m.content)] else []
  }

  lemma {:induction false} AddBlocksContents(st: State, role: TurnRole, blocks: seq<Block>)
    ensures Contents(AddBlocks(st, role, blocks).out) == Contents(st.out) + blocks
    decreases |blocks|
  {
    if blocks != [] {
      hide Add, Contents;
      AddContents(st, role, blocks[0]);
      AddBlocksContents(Add(st, role, blocks[0]), role, blocks[1..]);
    }
  }

  lemma AddCallsStep(st: State, calls: seq<ToolCall>, wire: Wire)
    ensures AddCalls(st, calls, wire) == if calls == [] then st
      else
        var next := Add(st, AssistantTurn, UseOf(calls[0], wire));
        AddCalls(next.(calls := next.calls + {calls[0].WireId()}), calls[1..], wire)
  {
    hide Add, UseOf;
  }

  lemma NoUseBlocks(wire: Wire)
    ensures UseBlocks([], wire) == []
  {
  }

  lemma UseBlocksStep(calls: seq<ToolCall>, wire: Wire)
    requires calls != []
    ensures UseBlocks(calls, wire) == [UseOf(calls[0], wire)] + UseBlocks(calls[1..], wire)
  {
    hide UseOf;
  }

  lemma {:induction false} AddCallsContents(st: State, calls: seq<ToolCall>, wire: Wire)
    ensures Contents(AddCalls(st, calls, wire).out) == Contents(st.out) + UseBlocks(calls, wire)
    decreases |calls|
  {
    hide Add, Contents, UseOf, UseBlocks, AddCalls;
    AddCallsStep(st, calls, wire);
    if calls == [] {
      NoUseBlocks(wire);
      Empty(Contents(st.out));
    } else {
      var block := UseOf(calls[0], wire);
      AddContents(st, AssistantTurn, block);
      UseBlocksStep(calls, wire);
      var next := Add(st, AssistantTurn, block);
      AddCallsContents(next.(calls := next.calls + {calls[0].WireId()}), calls[1..], wire);
      Assoc(Contents(st.out), [block], UseBlocks(calls[1..], wire));
    }
  }

  lemma ShapedOthers(t: Turn, n: nat)
    requires TurnShape(t, n)
    ensures ResultsIn(t.content[n..]) == [] && Others(t.content[..n]) == []
  {
    NoResults(t.content[n..]);
    OnlyResults(t.content[..n]);
  }

  lemma NoResults(c: seq<Block>)
    requires forall j :: 0 <= j < |c| ==> !c[j].ToolResult?
    ensures ResultsIn(c) == [] && Others(c) == c
  {
  }

  lemma OnlyResults(c: seq<Block>)
    requires forall j :: 0 <= j < |c| ==> c[j].ToolResult?
    ensures Others(c) == [] && ResultsIn(c) == c
  {
  }

  lemma AddResultContents(st: State, block: Block)
    requires Shaped(st) && block.ToolResult? && Accepts(st, block.useId)
    ensures var before, after := Contents(st.out), Contents(AddResult(st, block).out);
      Others(after) == Others(before) && ResultsIn(after) == ResultsIn(before) + [block]
  {
    hide Contents, WellShaped, Others, ResultsIn;
    var n := |st.out|;
    OneResult(block);
    if st.out[n - 1].role == AssistantTurn {
      AddContents(st, UserTurn, block);
      OthersAppend(Contents(st.out), [block]);
    } else {
      var init, c, k := st.out[..n - 1], st.out[n - 1].content, st.results;
      var d := c[..k] + [block] + c[k..];
      assert st.out == init + [st.out[n - 1]];
      assert AddResult(st, block).out == init + [Turn(UserTurn, d)];
      ContentsLast(init, st.out[n - 1]);
      ContentsLast(init, Turn(UserTurn, d));
      ShapedOthers(st.out[n - 1], k);
      InsertedOthers(c, k, block);
      OthersAppend(Contents(init), c);
      OthersAppend(Contents(init), d);
    }
  }

  lemma OneResult(block: Block)
    requires block.ToolResult?
    ensures Others([block]) == [] && ResultsIn([block]) == [block]
  {
    assert [block][1..] == [];
  }

  lemma InsertedOthers(c: seq<Block>, k: nat, block: Block)
    requires k <= |c| && block.ToolResult? && ResultsIn(c[k..]) == []
    ensures Others(c[..k] + [block] + c[k..]) == Others(c)
    ensures ResultsIn(c[..k] + [block] + c[k..]) == ResultsIn(c) + [block]
  {
    hide *;
    OneResult(block);
    Empty(Others(c[..k]));
    Empty(ResultsIn(c[..k]));
    Empty(ResultsIn(c[..k]) + [block]);
    assert c == c[..k] + c[k..];
    OthersAppend(c[..k], c[k..]);
    OthersAppend(c[..k], [block]);
    OthersAppend(c[..k] + [block], c[k..]);
  }

  /** Main result: no block but a result is dropped or moved past another, and the results that
      are kept keep their order. */
  lemma {:induction false} AddAllOrder(st: State, msgs: seq<Message>, wire: Wire)
    requires Shaped(st)
    ensures Others(Contents(AddAll(st, msgs, wire).out)) == Others(Contents(st.out)) + Sent(msgs, wire)
    ensures ResultsIn(Contents(AddAll(st, msgs, wire).out)) == ResultsIn(Contents(st.out)) + Accepted(st, msgs, wire)
    decreases |msgs|
  {
    if msgs == [] {
      hide Contents, Others, ResultsIn, Shaped;
      NoneAdded(Others(Contents(st.out)), ResultsIn(Contents(st.out)));
    } else {
      hide *;
      var m := msgs[0];
      Unfold(st, msgs, wire);
      AddMessageOrder(st, m, wire);
      AddMessageShaped(st, m, wire);
      AddAllOrder(AddMessage(st, m, wire), msgs[1..], wire);
      Regroup(Others(Contents(st.out)), OwnBlocks(m, wire), Uses(m, wire), Sent(msgs[1..], wire));
      Regroup(ResultsIn(Contents(st.out)), AcceptedOne(st, m), [], Accepted(AddMessage(st, m, wire), msgs[1..], wire));
    }
  }

  lemma Unfold(st: State, msgs: seq<Message>, wire: Wire)
    requires msgs != []
    ensures Sent(msgs, wire) == OwnBlocks(msgs[0], wire) + Uses(msgs[0], wire) + Sent(msgs[1..], wire)
    ensures Accepted(st, msgs, wire) == AcceptedOne(st, msgs[0]) + Accepted(AddMessage(st, msgs[0], wire), msgs[1..], wire)
    ensures AddAll(st, msgs, wire) == AddAll(AddMessage(st, msgs[0], wire), msgs[1..], wire)
  {
    hide OwnBlocks, Uses, AcceptedOne, AddMessage;
  }

  lemma Regroup(a: seq<Block>, b: seq<Block>, c: seq<Block>, d: seq<Block>)
    ensures a + b + c + d == a + (b + c + d)
    ensures c == [] ==> a + b + d == a + (b + d)
  {
  }

  lemma NoneAdded(a: seq<Block>, b: seq<Block>)
    ensures a + [] == a && b + [] == b
  {
  }

  lemma AddMessageShaped(st: State, m: Message, wire: Wire)
    requires Shaped(st)
    ensures Shaped(AddMessage(st, m, wire))
  {
    hide Shaped, AddResult, AddBlocks, AddCalls, OwnBlocks;
    if m.role == Tool {
      if Accepts(st, m.toolCallId) {
        AddResultShaped(st, m.toolCallId, m.content);
      }
    } else {
      OwnBlocksPlain(m, wire);
      AddBlocksShaped(st, RoleOf(m), OwnBlocks(m, wire));
      AddCallsShaped(AddBlocks(st, RoleOf(m), OwnBlocks(m, wire)), m.calls, wire);
    }
  }

  lemma AddMessageOrder(st: State, m: Message, wire: Wire)
    requires Shaped(st)
    ensures var before, after := Contents(st.out), Contents(AddMessage(st, m, wire).out);
      Others(after) == Others(before) + OwnBlocks(m, wire) + Uses(m, wire) &&
      ResultsIn(after) == ResultsIn(before) + AcceptedOne(st, m)
  {
    hide Shaped, AddResult, AddBlocks, AddCalls, Contents, Others, ResultsIn, Accepts;
    var before := Contents(st.out);
    if m.role == Tool {
      NoneAdded(Others(before), ResultsIn(before));
      if Accepts(st, m.toolCallId) {
        AddResultContents(st, ToolResult(m.toolCallId, m.content));
      }
    } else {
      var own := OwnBlocks(m, wire);
      AddBlocksContents(st, RoleOf(m), own);
      if m.role == Assistant {
        AddCallsContents(AddBlocks(st, RoleOf(m), own), m.calls, wire);
      }
      OwnBlocksPlain(m, wire);
      assert Contents(AddMessage(st, m, wire).out) == before + own + Uses(m, wire);
      NotResults(before, own, Uses(m, wire));
    }
  }

  lemma NotResults(before: seq<Block>, own: seq<Block>, uses: seq<Block>)
    requires (forall b :: b in own ==> IsPlain(b)) && forall j :: 0 <= j < |uses| ==> uses[j].ToolUse?
    ensures Others(before + own + uses) == Others(before) + own + uses
    ensures ResultsIn(before + own + uses) == ResultsIn(before) && before + own + [] == before + own
    ensures ResultsIn(before) + [] == ResultsIn(before)
  {
    hide Others, ResultsIn;
    OthersAppend(before, own);
    OthersAppend(before + own, uses);
    assert forall j :: 0 <= j < |own| ==> own[j] in own;
    NoResults(own);
    NoResults(uses);
  }
}
