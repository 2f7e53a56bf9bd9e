/** On complete windows the turns pair every call with its result (anthropic/wire.go, turns, over
    the windows that window.go commits). */
module AnthropicPairs {
  import opened Messages
  import opened AnthropicTurns
  import opened Sequences

  function Ids(blocks: seq<Block>): (ids: seq<string>)
    requires forall b :: b in blocks ==> b.ToolResult?
    ensures |ids| == |blocks|
  {
    seq(|blocks|, k requires 0 <= k < |blocks| => blocks[k].useId)
  }

  lemma ResultsAreResults(c: seq<Block>)
    ensures forall b :: b in ResultsIn(c) ==> b.ToolResult?
  {
  }

  /** The ids of the results in a turn. */
  function AnswerIds(t: Turn): seq<string> {
    ResultsAreResults(t.content);
    Ids(ResultsIn(t.content))
  }

  function CallIdsOf(t: Turn): seq<string> {
    UseIds(t.content)
  }

  /** Each of the first n turns answers exactly the calls of the turn before it, in order. */
  ghost predicate Settled(out: seq<Turn>, n: nat)
    requires n <= |out|
  {
    (n > 0 ==> AnswerIds(out[0]) == []) && forall i :: 0 < i < n ==> AnswerIds(out[i]) == CallIdsOf(out[i - 1])
  }

  /** How the encoder's state goes with a scan of the window so far. */
  ghost predicate Linked(st: State, scan: Scan) {
    var n := |st.out|;
    Shaped(st) &&
    if scan.answering then
      scan.pending != [] && n > 1 && st.out[n - 1].role == UserTurn && st.results > 0 && Settled(st.out, n - 1) &&
      CallIdsOf(st.out[n - 2]) == AnswerIds(st.out[n - 1]) + scan.pending
    else
      Settled(st.out, n) && (scan.pending != [] ==> n > 0 && st.out[n - 1].role == AssistantTurn) &&
      (n > 0 ==> CallIdsOf(st.out[n - 1]) == scan.pending)
  }

  lemma SettledPush(out: seq<Turn>, t: Turn)
    requires Settled(out, |out|) && AnswerIds(t) == if out == [] then [] else CallIdsOf(out[|out| - 1])
    ensures Settled(out + [t], |out| + 1)
  {
    hide AnswerIds, CallIdsOf;
    var after := out + [t];
    forall i | 0 < i < |after| ensures AnswerIds(after[i]) == CallIdsOf(after[i - 1]) {
      assert after[i - 1] == out[i - 1];
      if i < |out| { assert after[i] == out[i]; }
    }
    assert out != [] ==> after[0] == out[0];
  }

  /** Replacing the last turn by one with the same answers keeps the turns settled. */
  lemma SettledSet(out: seq<Turn>, t: Turn, n: nat)
    requires out != [] && |out| - 1 <= n <= |out| && Settled(out, n)
    requires n == |out| ==> AnswerIds(t) == AnswerIds(out[|out| - 1])
    ensures Settled(out[|out| - 1 := t], n)
  {
    hide AnswerIds, CallIdsOf;
    var after := out[|out| - 1 := t];
    forall i | 0 < i < n ensures AnswerIds(after[i]) == CallIdsOf(after[i - 1]) {
      assert AnswerIds(out[i]) == CallIdsOf(out[i - 1]);
      assert after[i - 1] == out[i - 1];
    }
  }

  lemma AnswersAppend(role: TurnRole, c: seq<Block>, b: Block)
    requires !b.ToolResult?
    ensures AnswerIds(Turn(role, c + [b])) == AnswerIds(Turn(role, c))
    ensures CallIdsOf(Turn(role, c + [b])) == CallIdsOf(Turn(role, c)) + if b.ToolUse? then [b.id] else []
    ensures AnswerIds(Turn(role, [b])) == []
    ensures CallIdsOf(Turn(role, [b])) == if b.ToolUse? then [b.id] else []
  {
    hide Others;
    UseIdsAppend(c, [b]);
    UseIdsOne(b);
    ResultsAppend(c, [b]);
    NoResults([b]);
    assert ResultsIn(c) + [] == ResultsIn(c);
  }

  lemma UserTurnsCallNothing(st: State)
    requires Shaped(st) && st.out != [] && st.out[|st.out| - 1].role == UserTurn
    ensures CallIdsOf(st.out[|st.out| - 1]) == []
  {
    NoUses(st.out[|st.out| - 1].content);
  }

  lemma {:induction false} NoUses(c: seq<Block>)
    requires forall j :: 0 <= j < |c| ==> !c[j].ToolUse?
    ensures UseIds(c) == []
  {
    if c != [] { NoUses(c[1..]); }
  }

  /** A block other than a result, where the scan allows one. */
  lemma AddLinked(st: State, scan: Scan, role: TurnRole, b: Block)
    requires Linked(st, scan) && !scan.answering && !b.ToolResult?
    requires role == UserTurn ==> IsPlain(b) && scan.pending == []
    ensures var next := Add(st, role, b);
      var n := |next.out|;
      n > 0 && next.out[n - 1].role == role && Settled(next.out, n) &&
      CallIdsOf(next.out[n - 1]) == scan.pending + if b.ToolUse? then [b.id] else []
  {
    hide Shaped, Settled, AnswerIds, CallIdsOf;
    var n := |st.out|;
    if n == 0 || st.out[n - 1].role != role {
      AnswersAppend(role, [], b);
      if n > 0 && st.out[n - 1].role == UserTurn { UserTurnsCallNothing(st); }
      assert scan.pending == [];
      SettledPush(st.out, Turn(role, [b]));
    } else {
      var c := st.out[n - 1].content;
      AnswersAppend(role, c, b);
      assert st.out[n - 1] == Turn(role, c);
      SettledSet(st.out, Turn(role, c + [b]), n);
    }
  }

  lemma AddBlocksLinked(st: State, scan: Scan, role: TurnRole, blocks: seq<Block>)
    requires Linked(st, scan) && !scan.answering && (forall b :: b in blocks ==> IsPlain(b))
    requires role == UserTurn ==> scan.pending == []
    ensures Linked(AddBlocks(st, role, blocks), scan)
    decreases |blocks|
  {
    if blocks != [] {
      AddPlainLinked(st, scan, role, blocks[0]);
      hide Linked, Add;
      AddBlocksLinked(Add(st, role, blocks[0]), scan, role, blocks[1..]);
    }
  }

  lemma AddPlainLinked(st: State, scan: Scan, role: TurnRole, b: Block)
    requires Linked(st, scan) && !scan.answering && IsPlain(b)
    requires role == UserTurn ==> scan.pending == []
    ensures Linked(Add(st, role, b), scan)
  {
    hide Shaped, Settled, AnswerIds, CallIdsOf, Add;
    AddPlainShaped(st, role, b);
    AddLinked(st, scan, role, b);
    assert scan.pending + [] == scan.pending;
  }

  lemma {:induction false} AddCallsLinked(st: State, scan: Scan, calls: seq<ToolCall>, wire: Wire)
    requires Linked(st, scan) && !scan.answering
    ensures Linked(AddCalls(st, calls, wire), Scan(scan.pending + WireIds(calls), false))
    decreases |calls|
  {
    hide Linked, Add, WireIds, UseOf, AddCalls;
    WireIdsStep(scan.pending, calls);
    AddCallsStep(st, calls, wire);
    if calls == [] {
      assert Scan(scan.pending, false) == scan;
    } else {
      var tc, next := calls[0], Add(st, AssistantTurn, UseOf(calls[0], wire));
      AddUseLinked(st, scan, tc, wire);
      AddCallsLinked(next.(calls := next.calls + {tc.WireId()}), Scan(scan.pending + [tc.WireId()], false), calls[1..], wire);
    }
  }

  lemma WireIdsStep(pending: seq<string>, calls: seq<ToolCall>)
    ensures calls == [] ==> pending + WireIds(calls) == pending
    ensures calls != [] ==> pending + WireIds(calls) == pending + [calls[0].WireId()] + WireIds(calls[1..])
  {
    if calls == [] {
      assert WireIds(calls) == [];
    } else {
      assert WireIds(calls) == [calls[0].WireId()] + WireIds(calls[1..]);
    }
  }

  lemma AddUseLinked(st: State, scan: Scan, tc: ToolCall, wire: Wire)
    requires Linked(st, scan) && !scan.answering
    ensures var next := Add(st, AssistantTurn, UseOf(tc, wire));
      Linked(next.(calls := next.calls + {tc.WireId()}), Scan(scan.pending + [tc.WireId()], false))
  {
    hide Shaped, Settled, AnswerIds, CallIdsOf, Add;
    AddUseShaped(st, UseOf(tc, wire));
    AddLinked(st, scan, AssistantTurn, UseOf(tc, wire));
  }

  /** The result that the scan expects next is accepted, and answers the oldest open call. */
  lemma AddResultLinked(st: State, scan: Scan, id: string, output: Bytes)
    requires Linked(st, scan) && scan.pending != [] && scan.pending[0] == id
    ensures Accepts(st, id)
    ensures Linked(AddResult(st, ToolResult(id, output)), Scan(scan.pending[1..], |scan.pending| > 1))
  {
    hide Settled, WellShaped;
    var n := |st.out|;
    assert id in scan.pending;
    assert id in LastUses(st.out);
    hide Shaped, LastUses;
    AddResultShaped(st, id, output);
    var block := ToolResult(id, output);
    if scan.answering {
      AnswerInserted(st, block);
      var t := AddResult(st, block).out[n - 1];
      SettledSet(st.out, t, n - 1);
      assert scan.pending == [id] + scan.pending[1..];
      assert AnswerIds(st.out[n - 1]) + scan.pending == AnswerIds(t) + scan.pending[1..];
      if |scan.pending| == 1 {
        assert AnswerIds(t) + [] == AnswerIds(t);
        SettledLast(AddResult(st, block).out);
        UserTurnsCallNothing(AddResult(st, block));
      }
    } else {
      var t := Turn(UserTurn, [block]);
      assert AddResult(st, block) == Raw(st.out + [t], st.calls, 1);
      AnswerOne(block);
      assert scan.pending == [id] + scan.pending[1..];
      if |scan.pending| == 1 {
        SettledPush(st.out, t);
        UserTurnsCallNothing(AddResult(st, block));
      } else {
        SettledPrefix(st.out, t);
      }
    }
  }

  lemma SettledPrefix(out: seq<Turn>, t: Turn)
    requires Settled(out, |out|)
    ensures Settled(out + [t], |out|)
  {
    hide AnswerIds, CallIdsOf;
    forall i | 0 < i < |out| ensures AnswerIds((out + [t])[i]) == CallIdsOf((out + [t])[i - 1]) {
      assert (out + [t])[i] == out[i] && (out + [t])[i - 1] == out[i - 1];
    }
  }

  lemma SettledLast(out: seq<Turn>)
    requires |out| > 1 && Settled(out, |out| - 1) && CallIdsOf(out[|out| - 2]) == AnswerIds(out[|out| - 1])
    ensures Settled(out, |out|)
  {
  }

  lemma AnswerOne(block: Block)
    requires block.ToolResult?
    ensures AnswerIds(Turn(UserTurn, [block])) == [block.useId]
  {
    OneResult(block);
  }

  lemma AnswerInserted(st: State, block: Block)
    requires Shaped(st) && block.ToolResult? && st.out != [] && st.out[|st.out| - 1].role == UserTurn
    ensures var n := |st.out|;
      var next := AddResult(st, block);
      |next.out| == n && next.out == st.out[n - 1 := next.out[n - 1]] && next.out[n - 1].role == UserTurn &&
      next.results == st.results + 1 && AnswerIds(next.out[n - 1]) == AnswerIds(st.out[n - 1]) + [block.useId]
  {
    hide ResultsIn, Others;
    var n := |st.out|;
    var c, k := st.out[n - 1].content, st.results;
    ShapedOthers(st.out[n - 1], k);
    InsertedOthers(c, k, block);
    ResultsAreResults(c);
    IdsAppend(ResultsIn(c), block);
  }

  lemma IdsAppend(a: seq<Block>, block: Block)
    requires block.ToolResult? && forall b :: b in a ==> b.ToolResult?
    ensures Ids(a + [block]) == Ids(a) + [block.useId]
  {
  }

  lemma StepLinked(st: State, scan: Scan, m: Message, wire: Wire)
    requires Linked(st, scan) && ScanOne(scan, m).Some?
    ensures Linked(AddMessage(st, m, wire), ScanOne(scan, m).value)
    ensures m.role == Tool ==> Accepts(st, m.toolCallId)
  {
    hide Linked, AddResult, AddBlocks, AddCalls, OwnBlocks, Accepts;
    if m.role == Tool {
      AddResultLinked(st, scan, m.toolCallId, m.content);
    } else {
      OwnBlocksPlain(m, wire);
      NotAnswering(st, scan, m);
      AddBlocksLinked(st, scan, RoleOf(m), OwnBlocks(m, wire));
      if m.role == Assistant {
        AddCallsLinked(AddBlocks(st, RoleOf(m), OwnBlocks(m, wire)), scan, m.calls, wire);
      }
    }
  }

  lemma NotAnswering(st: State, scan: Scan, m: Message)
    requires Linked(st, scan) && ScanOne(scan, m).Some? && m.role != Tool
    ensures !scan.answering && (RoleOf(m) == UserTurn ==> scan.pending == [])
    ensures m.role != Assistant ==> ScanOne(scan, m).value == scan
  {
  }

  /** The results of msgs that are sent, when every one of them is. */
  function AllResults(msgs: seq<Message>): seq<Block> {
    if msgs == [] then []
    else (if msgs[0].role == Tool then [ToolResult(msgs[0].toolCallId, msgs[0].content)] else []) + AllResults(msgs[1..])
  }

  lemma {:induction false} AddAllLinked(st: State, scan: Scan, msgs: seq<Message>, wire: Wire)
    requires Linked(st, scan) && ScanAll(scan, msgs).Some?
    ensures Linked(AddAll(st, msgs, wire), ScanAll(scan, msgs).value)
    ensures Accepted(st, msgs, wire) == AllResults(msgs)
    decreases |msgs|
  {
    if msgs != [] {
      hide Linked, AddMessage, Accepts, ScanOne;
      StepLinked(st, scan, msgs[0], wire);
      AddAllLinked(AddMessage(st, msgs[0], wire), ScanOne(scan, msgs[0]).value, msgs[1..], wire);
    }
  }

  lemma WindowLinked(msgs: seq<Message>, wire: Wire)
    requires Complete(msgs)
    ensures Linked(AddAll(START, msgs, wire), IDLE) && Accepted(START, msgs, wire) == AllResults(msgs)
  {
    hide Linked, AddAll, ScanAll, Accepted, AllResults;
    StartLinked();
    AddAllLinked(START, IDLE, msgs, wire);
  }

  lemma TurnAnswered(st: State, i: nat)
    requires Linked(st, IDLE) && i < |st.out|
    ensures CallIdsOf(st.out[i]) == if i + 1 < |st.out| then AnswerIds(st.out[i + 1]) else []
  {
    hide Shaped, AnswerIds, CallIdsOf;
    if i + 1 < |st.out| { assert AnswerIds(st.out[i + 1]) == CallIdsOf(st.out[i + 1 - 1]); }
  }

  /** Main result: on every window of complete rounds, no result is dropped, and each turn answers
      exactly the calls of the turn before it, in call order; a turn with calls is never the last. */
  lemma CompleteWindowTurns(msgs: seq<Message>, wire: Wire)
    requires Complete(msgs)
    ensures var out := AddAll(START, msgs, wire).out;
      ResultsIn(Contents(out)) == AllResults(msgs) &&
      forall i :: 0 <= i < |out| ==> CallIdsOf(out[i]) == if i + 1 < |out| then AnswerIds(out[i + 1]) else []
  {
    hide AddAll, ScanAll, Accepted, Contents, AllResults, AnswerIds, CallIdsOf, ResultsIn, Shaped, Complete, Others, Sent;
    StartLinked();
    StartEmpty();
    WindowLinked(msgs, wire);
    AddAllOrder(START, msgs, wire);
    Empty(AllResults(msgs));
    var st := AddAll(START, msgs, wire);
    forall i | 0 <= i < |st.out| ensures CallIdsOf(st.out[i]) == if i + 1 < |st.out| then AnswerIds(st.out[i + 1]) else [] {
      TurnAnswered(st, i);
    }
  }

  lemma StartLinked()
    ensures Linked(START, IDLE) && Shaped(START)
  {
  }

  lemma StartEmpty()
    ensures ResultsIn(Contents(START.out)) == []
  {
  }
}
