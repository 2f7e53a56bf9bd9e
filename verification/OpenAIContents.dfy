/** What the input items of a window are, message by message and call by call (openai/openai.go,
    marshalMessagesToInput): for every window, complete or not. */
module OpenAIContents {
  import opened Messages
  import opened OpenAIInput
  import opened Sequences
  import ContextWindow

  function Wire(tc: ToolCall): string {
    if tc.callId == "" then tc.id else tc.callId
  }

  function ItemKey(tc: ToolCall): string {
    if tc.id == "" then tc.callId else tc.id
  }

  /** Message i is a result for id that no call took yet. */
  predicate Free(msgs: seq<Message>, id: string, paired: set<nat>, i: nat)
    requires i < |msgs|
  {
    id != "" && msgs[i].role == Tool && msgs[i].toolCallId == id && i !in paired
  }

  ghost predicate SomeFree(msgs: seq<Message>, id: string, paired: set<nat>) {
    exists i: nat :: i < |msgs| && Free(msgs, id, paired, i)
  }

  predicate FirstFree(msgs: seq<Message>, id: string, paired: set<nat>, i: int) {
    0 <= i < |msgs| && Free(msgs, id, paired, i) && forall j: nat :: j < i ==> !Free(msgs, id, paired, j)
  }

  /** A call takes the first free result for its wire id, or else the first for its item key. */
  ghost predicate Takes(msgs: seq<Message>, tc: ToolCall, paired: set<nat>, i: int) {
    if SomeFree(msgs, Wire(tc), paired) then FirstFree(msgs, Wire(tc), paired, i)
    else if SomeFree(msgs, ItemKey(tc), paired) then FirstFree(msgs, ItemKey(tc), paired, i)
    else i == -1
  }

  predicate IsCall(tc: ToolCall, item: Item) {
    item.FunctionCall? && item.callId == Wire(tc) &&
    item.name == (if tc.namespace == "" then tc.name else tc.namespace + "__" + tc.name) &&
    (if tc.arguments == "" then item.arguments == "{}" else item.arguments == tc.arguments) &&
    if tc.status in {"in_progress", "incomplete"} then item.status == tc.status else item.status == "completed"
  }

  /** The items of calls, with the results that earlier calls took; `after` are those taken then. */
  ghost predicate CallsSent(msgs: seq<Message>, calls: seq<ToolCall>, paired: set<nat>, items: seq<Item>, after: set<nat>)
    decreases |calls|
  {
    if calls == [] then items == [] && after == paired
    else items != [] && IsCall(calls[0], items[0]) && exists i: int :: CallSent(msgs, calls, paired, items, after, i)
  }

  /** The first call takes result i, or none: its output follows it at once. */
  ghost predicate CallSent(msgs: seq<Message>, calls: seq<ToolCall>, paired: set<nat>, items: seq<Item>, after: set<nat>,
                           i: int)
    requires calls != [] && items != []
    decreases |calls|, 0
  {
    Takes(msgs, calls[0], paired, i) &&
    if i < 0 then CallsSent(msgs, calls[1..], paired, items[1..], after)
    else
      i < |msgs| && |items| > 1 && items[1] == FunctionOutput(Wire(calls[0]), msgs[i].content, false) &&
      CallsSent(msgs, calls[1..], paired + {i}, items[2..], after)
  }

  /** The items of a message: itself, unless it is a result or a reply without content; and its calls. */
  ghost predicate MessageSent(msgs: seq<Message>, m: Message, stamp: bool, paired: set<nat>, items: seq<Item>, after: set<nat>) {
    match m.role
    case Tool => items == [] && after == paired
    case Reasoning => items == [Reasoned(m)] && after == paired
    case Assistant =>
      if m.content == "" && m.parts == [] then CallsSent(msgs, m.calls, paired, items, after)
      else items != [] && items[0] == Content(m, false) && CallsSent(msgs, m.calls, paired, items[1..], after)
    case _ =>
      after == paired && |items| == 1 && items[0].Content? && items[0].message == m &&
      (items[0].stamped <==> stamp && m.role == Developer && ContextWindow.IsPlanDocument(m))
  }

  /** items are those of the messages from `from` on, one after another. */
  ghost predicate AllSent(msgs: seq<Message>, from: nat, stamp: bool, paired: set<nat>, items: seq<Item>)
    requires from <= |msgs|
    decreases |msgs| - from
  {
    if from == |msgs| then items == []
    else exists n: nat, after: set<nat> ::
      n <= |items| && MessageSent(msgs, msgs[from], stamp, paired, items[..n], after) &&
      AllSent(msgs, from + 1, stamp, after, items[n..])
  }

  /** out is items with the last output stamped, when there is one and stamps are asked for. */
  predicate LastStamped(items: seq<Item>, stamp: bool, out: seq<Item>) {
    |out| == |items| && forall j :: 0 <= j < |items| ==>
      out[j] == if stamp && IsLastOutput(items, j) then FunctionOutput(items[j].outputOf, items[j].output, true) else items[j]
  }

  predicate IsLastOutput(items: seq<Item>, j: nat)
    requires j < |items|
  {
    items[j].FunctionOutput? && forall k :: j < k < |items| ==> !items[k].FunctionOutput?
  }

  // ---------------------------------------------------------------------------------------------
  // Every step sends what it must
  // ---------------------------------------------------------------------------------------------

  lemma FirstIsFree(msgs: seq<Message>, id: string, paired: set<nat>)
    requires id != ""
    ensures var i := FirstResult(msgs, id, paired, 0);
      if SomeFree(msgs, id, paired) then FirstFree(msgs, id, paired, i) else i == -1
  {
    hide FirstResult;
    var i := FirstResult(msgs, id, paired, 0);
    if i >= 0 { assert Free(msgs, id, paired, i); }
  }

  lemma TakeTakes(msgs: seq<Message>, tc: ToolCall, paired: set<nat>)
    ensures Takes(msgs, tc, paired, Take(msgs, tc, paired))
  {
    hide FirstResult, SomeFree, FirstFree;
    if Wire(tc) != "" { FirstIsFree(msgs, Wire(tc), paired); } else { NoneFree(msgs, paired); }
    if ItemKey(tc) != "" { FirstIsFree(msgs, ItemKey(tc), paired); } else { NoneFree(msgs, paired); }
    FirstRange(msgs, Wire(tc), paired);
  }

  lemma NoneFree(msgs: seq<Message>, paired: set<nat>)
    ensures !SomeFree(msgs, "", paired)
  {
  }

  lemma FirstRange(msgs: seq<Message>, id: string, paired: set<nat>)
    ensures forall i :: FirstFree(msgs, id, paired, i) ==> i >= 0
  {
  }

  function CallItems(msgs: seq<Message>, tc: ToolCall, i: int): seq<Item>
    requires i < |msgs|
  {
    [CallItem(tc)] + if i < 0 then [] else [FunctionOutput(tc.WireId(), msgs[i].content, false)]
  }

  lemma CallAdds(msgs: seq<Message>, st: State, tc: ToolCall, rest: seq<Item>)
    ensures var i := Take(msgs, tc, st.paired);
      var next := AddCall(msgs, st, tc);
      next.items + rest == st.items + (CallItems(msgs, tc, i) + rest) &&
      next.paired == st.paired + if i < 0 then {} else {i}
  {
    hide Take, CallItem;
  }

  lemma FirstSent(msgs: seq<Message>, calls: seq<ToolCall>, paired: set<nat>, rest: seq<Item>, after: set<nat>)
    requires calls != []
    requires var i := Take(msgs, calls[0], paired); CallsSent(msgs, calls[1..], paired + (if i < 0 then {} else {i}), rest, after)
    ensures CallsSent(msgs, calls, paired, CallItems(msgs, calls[0], Take(msgs, calls[0], paired)) + rest, after)
  {
    hide Take, Takes, CallItem, IsCall;
    var i := Take(msgs, calls[0], paired);
    var items := CallItems(msgs, calls[0], i) + rest;
    TakeTakes(msgs, calls[0], paired);
    CallIsCall(calls[0]);
    assert items[if i < 0 then 1 else 2..] == rest;
    assert paired + {} == paired;
    assert CallSent(msgs, calls, paired, items, after, i);
  }

  lemma {:induction false} CallsHold(msgs: seq<Message>, st: State, calls: seq<ToolCall>) returns (more: seq<Item>)
    ensures var after := AddCalls(msgs, st, calls);
      after.items == st.items + more && CallsSent(msgs, calls, st.paired, more, after.paired)
    decreases |calls|
  {
    if calls == [] {
      more := [];
    } else {
      hide Take, CallItem, AddCall, CallsSent, CallSent;
      var next := AddCall(msgs, st, calls[0]);
      var i := Take(msgs, calls[0], st.paired);
      var rest := CallsHold(msgs, next, calls[1..]);
      more := CallItems(msgs, calls[0], i) + rest;
      CallAdds(msgs, st, calls[0], rest);
      FirstSent(msgs, calls, st.paired, rest, AddCalls(msgs, st, calls).paired);
    }
  }

  lemma CallIsCall(tc: ToolCall)
    ensures IsCall(tc, CallItem(tc)) && tc.WireId() == Wire(tc)
  {
  }

  lemma OwnSent(msgs: seq<Message>, m: Message, stamp: bool, paired: set<nat>, rest: seq<Item>, after: set<nat>)
    requires CallsSent(msgs, Calls(m), paired, rest, after)
    ensures MessageSent(msgs, m, stamp, paired, OwnItems(m, stamp) + rest, after)
  {
    hide CallSent, IsCall;
    var own := OwnItems(m, stamp);
    if m.role != Assistant { assert rest == [] && own + [] == own; }
    if own == [] { assert own + rest == rest; } else { assert (own + rest)[1..] == rest; }
  }

  lemma MessageHolds(msgs: seq<Message>, st: State, m: Message, stamp: bool) returns (more: seq<Item>)
    ensures var after := AddMessage(msgs, st, m, stamp);
      after.items == st.items + more && MessageSent(msgs, m, stamp, st.paired, more, after.paired)
  {
    hide AddCalls, CallsSent, MessageSent, OwnItems, AddMessage;
    var own := OwnItems(m, stamp);
    AddMessageIs(msgs, st, m, stamp);
    var mid := State(st.items + own, st.paired, st.lastOut);
    var rest := CallsHold(msgs, mid, Calls(m));
    more := own + rest;
    Assoc(st.items, own, rest);
    OwnSent(msgs, m, stamp, st.paired, rest, AddCalls(msgs, mid, Calls(m)).paired);
  }

  lemma {:induction false} AllHold(msgs: seq<Message>, st: State, from: nat, stamp: bool) returns (more: seq<Item>)
    requires from <= |msgs|
    ensures AddAll(msgs, st, from, stamp).items == st.items + more && AllSent(msgs, from, stamp, st.paired, more)
    decreases |msgs| - from
  {
    hide AddMessage, MessageSent;
    if from == |msgs| {
      more := [];
    } else {
      var first := MessageHolds(msgs, st, msgs[from], stamp);
      var next := AddMessage(msgs, st, msgs[from], stamp);
      var rest := AllHold(msgs, next, from + 1, stamp);
      more := first + rest;
      Assoc(st.items, first, rest);
      assert more[..|first|] == first && more[|first|..] == rest;
    }
  }

  // ---------------------------------------------------------------------------------------------
  // The stamp
  // ---------------------------------------------------------------------------------------------

  /** The encoder knows where the last output is. */
  ghost predicate KnowsLast(st: State) {
    if st.lastOut == -1 then forall j :: 0 <= j < |st.items| ==> !st.items[j].FunctionOutput?
    else 0 <= st.lastOut < |st.items| && IsLastOutput(st.items, st.lastOut)
  }

  lemma {:induction false} CallsKnow(msgs: seq<Message>, st: State, calls: seq<ToolCall>)
    requires KnowsLast(st)
    ensures KnowsLast(AddCalls(msgs, st, calls))
    decreases |calls|
  {
    if calls != [] {
      CallKnows(msgs, st, calls[0]);
      hide AddCall, KnowsLast;
      CallsKnow(msgs, AddCall(msgs, st, calls[0]), calls[1..]);
    }
  }

  lemma CallKnows(msgs: seq<Message>, st: State, tc: ToolCall)
    requires KnowsLast(st)
    ensures KnowsLast(AddCall(msgs, st, tc))
  {
    hide Take;
  }

  lemma MessageKnows(msgs: seq<Message>, st: State, m: Message, stamp: bool)
    requires KnowsLast(st)
    ensures KnowsLast(AddMessage(msgs, st, m, stamp))
  {
    hide AddCalls;
    if m.role == Assistant {
      CallsKnow(msgs, if m.content != "" || m.parts != [] then Push(st, Content(m, false)) else st, m.calls);
    }
  }

  lemma {:induction false} AllKnow(msgs: seq<Message>, st: State, from: nat, stamp: bool)
    requires from <= |msgs| && KnowsLast(st)
    ensures KnowsLast(AddAll(msgs, st, from, stamp))
    decreases |msgs| - from
  {
    if from < |msgs| {
      hide AddMessage, KnowsLast;
      MessageKnows(msgs, st, msgs[from], stamp);
      AllKnow(msgs, AddMessage(msgs, st, msgs[from], stamp), from + 1, stamp);
    }
  }

  lemma StampIsLast(st: State, stamp: bool)
    requires KnowsLast(st)
    ensures LastStamped(st.items, stamp, Stamp(st, stamp))
  {
  }

  /** Main result: for every window, the input is the prompt, when there is one, and then each
      message's items in order, each call with its output right after it, from the first result for
      its wire id that no call took, or else for its item key; and the last output is stamped. */
  lemma InputHolds(msgs: seq<Message>, prompt: Bytes, stamp: bool) returns (items: seq<Item>)
    ensures AllSent(msgs, 0, stamp, {}, items)
    ensures LastStamped((if prompt != "" then [Prompt(prompt, stamp)] else []) + items, stamp, Input(msgs, prompt, stamp))
  {
    hide AddAll, AllSent, Stamp, LastStamped;
    var start := Start(prompt, stamp);
    items := AllHold(msgs, start, 0, stamp);
    AllKnow(msgs, start, 0, stamp);
    StampIsLast(AddAll(msgs, start, 0, stamp), stamp);
  }
}
