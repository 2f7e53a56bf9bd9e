/** The Responses API input of a window (openai/openai.go, marshalMessagesToInput): every call is
    followed at once by its output, so a request never holds one without the other. */
module OpenAIInput {
  import opened Messages
  import ContextWindow
  import opened Sequences

  /** An input item. Outputs may carry the prompt-cache stamp. */
  datatype Item =
    | Prompt(text: Bytes, stamped: bool)
    | Content(message: Message, stamped: bool)
    | Reasoned(message: Message)
    | FunctionCall(callId: string, name: string, arguments: string, status: string)
    | FunctionOutput(outputOf: string, output: Bytes, stamped: bool)

  /** The encoder's state: the items so far, which tool messages are taken, by position, and the
      position of the last output. */
  datatype State = State(items: seq<Item>, paired: set<nat>, lastOut: int)

  /** The first tool message at or after `from` that answers id and is not taken, or -1. */
  function FirstResult(msgs: seq<Message>, id: string, paired: set<nat>, from: nat): (i: int)
    requires from <= |msgs|
    ensures i == -1 || (from <= i < |msgs| && msgs[i].role == Tool && msgs[i].toolCallId == id && i !in paired)
    ensures forall j :: from <= j < (if i < 0 then |msgs| else i) ==>
              !(msgs[j].role == Tool && msgs[j].toolCallId == id && j !in paired)
    decreases |msgs| - from
  {
    if from == |msgs| then -1
    else if msgs[from].role == Tool && msgs[from].toolCallId == id && from !in paired then from
    else FirstResult(msgs, id, paired, from + 1)
  }

  /** The tool message a call takes: by wire id, else by the provider's item id. */
  function Take(msgs: seq<Message>, tc: ToolCall, paired: set<nat>): (i: int)
    ensures -1 <= i < |msgs|
  {
    var byWire := if tc.WireId() == "" then -1 else FirstResult(msgs, tc.WireId(), paired, 0);
    if byWire >= 0 then byWire
    else if tc.Key() == "" then -1
    else FirstResult(msgs, tc.Key(), paired, 0)
  }

  function CallItem(tc: ToolCall): Item {
    FunctionCall(tc.WireId(),
                 if tc.namespace != "" then tc.namespace + "__" + tc.name else tc.name,
                 if tc.arguments == "" then "{}" else tc.arguments,
                 if tc.status == "in_progress" || tc.status == "incomplete" then tc.status else "completed")
  }

  function AddCall(msgs: seq<Message>, st: State, tc: ToolCall): State {
    var items := st.items + [CallItem(tc)];
    var out := Take(msgs, tc, st.paired);
    if out < 0 then State(items, st.paired, st.lastOut)
    else State(items + [FunctionOutput(tc.WireId(), msgs[out].content, false)], st.paired + {out}, |items|)
  }

  function AddCalls(msgs: seq<Message>, st: State, calls: seq<ToolCall>): State
    decreases |calls|
  {
    if calls == [] then st else AddCalls(msgs, AddCall(msgs, st, calls[0]), calls[1..])
  }

  function Push(st: State, item: Item): State {
    st.(items := st.items + [item])
  }

  /** One message of the window. `stamp` asks for prompt-cache stamps. */
  function AddMessage(msgs: seq<Message>, st: State, m: Message, stamp: bool): State {
    match m.role
    case Tool => st
    case User => Push(st, Content(m, false))
    case System => Push(st, Content(m, false))
    case Developer => Push(st, Content(m, stamp && ContextWindow.IsPlanDocument(m)))
    case Reasoning => Push(st, Reasoned(m))
    case Assistant =>
      AddCalls(msgs, if m.content != "" || m.parts != [] then Push(st, Content(m, false)) else st, m.calls)
  }

  function AddAll(msgs: seq<Message>, st: State, from: nat, stamp: bool): State
    requires from <= |msgs|
    decreases |msgs| - from
  {
    if from == |msgs| then st
    else AddAll(msgs, AddMessage(msgs, st, msgs[from], stamp), from + 1, stamp)
  }

  function Start(prompt: Bytes, stamp: bool): State {
    State(if prompt == "" then [] else [Prompt(prompt, stamp)], {}, -1)
  }

  function Stamped(item: Item): Item
    requires item.FunctionOutput?
  {
    FunctionOutput(item.outputOf, item.output, true)
  }

  /** Stamps the last output. */
  function Stamp(st: State, stamp: bool): seq<Item> {
    if stamp && 0 <= st.lastOut < |st.items| && st.items[st.lastOut].FunctionOutput?
    then st.items[st.lastOut := Stamped(st.items[st.lastOut])]
    else st.items
  }

  /** The whole input. `prompt` is the system prompt, trimmed. */
  function Input(msgs: seq<Message>, prompt: Bytes, stamp: bool): seq<Item> {
    Stamp(AddAll(msgs, Start(prompt, stamp), 0, stamp), stamp)
  }

  // ---------------------------------------------------------------------------------------------
  // The loops of the source
  // ---------------------------------------------------------------------------------------------

  method TakeToolOutput(msgs: seq<Message>, tc: ToolCall, paired: set<nat>) returns (out: int)
    ensures out == Take(msgs, tc, paired)
  {
    var wire, key := tc.WireId(), tc.Key();
    var byKey := -1;
    for i := 0 to |msgs|
      invariant wire != "" ==> FirstResult(msgs, wire, paired, 0) == FirstResult(msgs, wire, paired, i)
      invariant byKey == -1 || (0 <= byKey < i && key != "" && byKey == FirstResult(msgs, key, paired, 0))
      invariant byKey == -1 && key != "" ==> FirstResult(msgs, key, paired, 0) == FirstResult(msgs, key, paired, i)
    {
      if msgs[i].role == Tool && i !in paired {
        if wire != "" && msgs[i].toolCallId == wire {
          return i;
        }
        if byKey == -1 && key != "" && msgs[i].toolCallId == key {
          byKey := i;
        }
      }
    }
    out := byKey;
  }

  method MarshalMessages(msgs: seq<Message>, prompt: Bytes, stamp: bool)
    returns (items: seq<Item>)
    ensures items == Input(msgs, prompt, stamp)
  {
    var paired: set<nat> := {};
    var lastOut := -1;
    items := [];
    if prompt != "" {
      items := [Prompt(prompt, stamp)];
    }
    for i := 0 to |msgs|
      invariant AddAll(msgs, Start(prompt, stamp), 0, stamp)
             == AddAll(msgs, State(items, paired, lastOut), i, stamp)
    {
      var m := msgs[i];
      ghost var before := State(items, paired, lastOut);
      match m.role {
        case Tool =>
        case User => items := items + [Content(m, false)];
        case System => items := items + [Content(m, false)];
        case Developer => items := items + [Content(m, stamp && ContextWindow.IsPlanDocument(m))];
        case Reasoning => items := items + [Reasoned(m)];
        case Assistant =>
          if m.content != "" || m.parts != [] {
            items := items + [Content(m, false)];
          }
          for c := 0 to |m.calls|
            invariant AddMessage(msgs, before, m, stamp)
                   == AddCalls(msgs, State(items, paired, lastOut), m.calls[c..])
          {
            assert m.calls[c..][1..] == m.calls[c + 1..];
            items := items + [CallItem(m.calls[c])];
            var out := TakeToolOutput(msgs, m.calls[c], paired);
            if out >= 0 {
              lastOut := |items|;
              items := items + [FunctionOutput(m.calls[c].WireId(), msgs[out].content, false)];
              paired := paired + {out};
            }
          }
      }
      assert State(items, paired, lastOut) == AddMessage(msgs, before, m, stamp);
    }
    if stamp && 0 <= lastOut < |items| && items[lastOut].FunctionOutput? {
      items := items[lastOut := Stamped(items[lastOut])];
    }
  }

  // ---------------------------------------------------------------------------------------------
  // On a complete window, the search by id pairs calls and results by position
  // ---------------------------------------------------------------------------------------------

  /** The positions of the tool messages of msgs, from `from` on. */
  function ToolsFrom(msgs: seq<Message>, from: nat): (ps: seq<nat>)
    requires from <= |msgs|
    ensures forall k :: 0 <= k < |ps| ==> from <= ps[k] < |msgs| && msgs[ps[k]].role == Tool
    ensures forall j, k :: 0 <= j < k < |ps| ==> ps[j] < ps[k]
    ensures forall i :: from <= i < |msgs| && msgs[i].role == Tool ==> i in ps
    decreases |msgs| - from
  {
    if from == |msgs| then []
    else (if msgs[from].role == Tool then [from] else []) + ToolsFrom(msgs, from + 1)
  }

  function First(ps: seq<nat>, c: nat): set<nat>
    requires c <= |ps|
  {
    set k | 0 <= k < c :: ps[k]
  }

  lemma FirstGrows(ps: seq<nat>, c: nat)
    requires c < |ps|
    ensures First(ps, c) + {ps[c]} == First(ps, c + 1)
  {
  }

  /** With the first c results taken, a call with the id of the next result takes that result. */
  lemma TakeNext(msgs: seq<Message>, tc: ToolCall, ps: seq<nat>, c: nat)
    requires ps == ToolsFrom(msgs, 0) && c < |ps|
    requires tc.WireId() != "" && msgs[ps[c]].toolCallId == tc.WireId()
    ensures Take(msgs, tc, First(ps, c)) == ps[c]
  {
    hide FirstResult, ToolsFrom;
    var i := FirstResult(msgs, tc.WireId(), First(ps, c), 0);
    assert ps[c] !in First(ps, c);
    assert 0 <= i <= ps[c];
    assert forall d :: 0 <= d < c ==> ps[d] in First(ps, c);
    var d :| 0 <= d < |ps| && ps[d] == i;
    assert d >= c;
  }

  /** Each call followed by its output: call number k goes with result number k. */
  function Pairs(calls: seq<ToolCall>, results: seq<Message>): seq<Item>
    requires |results| >= |calls|
    decreases |calls|
  {
    if calls == [] then []
    else [CallItem(calls[0]), FunctionOutput(calls[0].WireId(), results[0].content, false)]
         + Pairs(calls[1..], results[1..])
  }

  /** What a message sends besides calls and their outputs. */
  function OwnItems(m: Message, stamp: bool): seq<Item> {
    match m.role
    case Tool => []
    case User => [Content(m, false)]
    case System => [Content(m, false)]
    case Developer => [Content(m, stamp && ContextWindow.IsPlanDocument(m))]
    case Reasoning => [Reasoned(m)]
    case Assistant => if m.content != "" || m.parts != [] then [Content(m, false)] else []
  }

  function Calls(m: Message): seq<ToolCall> {
    if m.role == Assistant then m.calls else []
  }

  /** The simple form of the encoder: the calls of msgs go with `results` in order. */
  function ByPosition(msgs: seq<Message>, results: seq<Message>, stamp: bool): seq<Item>
    requires |CallIds(msgs)| <= |results|
    decreases |msgs|
  {
    if msgs == [] then []
    else
      var n := |Calls(msgs[0])|;
      OwnItems(msgs[0], stamp) + Pairs(Calls(msgs[0]), results[..n])
      + ByPosition(msgs[1..], results[n..], stamp)
  }

  /** The tool messages of msgs, in order. */
  function Results(msgs: seq<Message>): (rs: seq<Message>)
    ensures |rs| == |ResultIds(msgs)|
    ensures forall k :: 0 <= k < |rs| ==> rs[k].toolCallId == ResultIds(msgs)[k]
  {
    if msgs == [] then [] else (if msgs[0].role == Tool then [msgs[0]] else []) + Results(msgs[1..])
  }

  predicate Named(calls: seq<ToolCall>) {
    forall k :: 0 <= k < |calls| ==> calls[k].WireId() != ""
  }

  predicate AllNamed(msgs: seq<Message>) {
    forall m :: m in msgs ==> Named(m.calls)
  }

  /** The ids of calls are those of the first results, in order. */
  predicate Answer(ids: seq<string>, results: seq<Message>) {
    |ids| <= |results| && forall k :: 0 <= k < |ids| ==> results[k].toolCallId == ids[k]
  }

  /** The results that are not taken when the first c are. */
  ghost predicate Untaken(msgs: seq<Message>, paired: set<nat>, results: seq<Message>) {
    var ps := ToolsFrom(msgs, 0);
    |results| <= |ps| && paired == First(ps, |ps| - |results|) &&
    forall k :: 0 <= k < |results| ==> results[k] == msgs[ps[|ps| - |results| + k]]
  }

  lemma UntakenStart(msgs: seq<Message>)
    ensures Untaken(msgs, {}, Results(msgs))
  {
    hide ToolsFrom, Results, First;
    ToolsAreResults(msgs, 0);
    assert msgs[0..] == msgs;
    FirstNone(ToolsFrom(msgs, 0));
    var ps, results := ToolsFrom(msgs, 0), Results(msgs);
    assert |results| == |ps|;
    forall k | 0 <= k < |results| ensures results[k] == msgs[ps[|ps| - |results| + k]] { }
  }

  lemma FirstNone(ps: seq<nat>)
    ensures First(ps, 0) == {}
  {
  }

  lemma {:induction false} ToolsAreResults(msgs: seq<Message>, from: nat)
    requires from <= |msgs|
    ensures Picks(msgs, ToolsFrom(msgs, from), Results(msgs[from..]))
    decreases |msgs| - from
  {
    hide *;
    if from == |msgs| {
      NoTools(msgs);
    } else {
      ToolsAreResults(msgs, from + 1);
      ToolsStep(msgs, from);
      if msgs[from].role == Tool {
        PicksCons(msgs, from, ToolsFrom(msgs, from + 1), Results(msgs[from + 1..]));
      } else {
        Empty(ToolsFrom(msgs, from + 1));
        Empty(Results(msgs[from + 1..]));
      }
    }
  }

  /** The messages at places ps are rs. */
  predicate Picks(msgs: seq<Message>, ps: seq<nat>, rs: seq<Message>) {
    |ps| == |rs| && forall k :: 0 <= k < |ps| ==> ps[k] < |msgs| && msgs[ps[k]] == rs[k]
  }

  lemma PicksCons(msgs: seq<Message>, p: nat, ps: seq<nat>, rs: seq<Message>)
    requires p < |msgs| && Picks(msgs, ps, rs)
    ensures Picks(msgs, [p] + ps, [msgs[p]] + rs)
  {
  }

  lemma NoTools(msgs: seq<Message>)
    ensures Picks(msgs, ToolsFrom(msgs, |msgs|), Results(msgs[|msgs|..]))
  {
  }

  lemma ToolsStep(msgs: seq<Message>, from: nat)
    requires from < |msgs|
    ensures ToolsFrom(msgs, from) == (if msgs[from].role == Tool then [from] else []) + ToolsFrom(msgs, from + 1)
    ensures Results(msgs[from..]) == (if msgs[from].role == Tool then [msgs[from]] else []) + Results(msgs[from + 1..])
  {
    Suffix(msgs, from);
  }

  lemma AddCallNext(msgs: seq<Message>, st: State, tc: ToolCall, results: seq<Message>)
    requires Untaken(msgs, st.paired, results) && results != []
    requires tc.WireId() != "" && results[0].toolCallId == tc.WireId()
    ensures var after := AddCall(msgs, st, tc);
      after.items == st.items + Pairs([tc], results) && Untaken(msgs, after.paired, results[1..])
  {
    hide Take, ToolsFrom, First, CallItem;
    var ps := ToolsFrom(msgs, 0);
    var c := |ps| - |results|;
    assert results[0] == msgs[ps[c + 0]];
    TakeNext(msgs, tc, ps, c);
    FirstGrows(ps, c);
    assert Pairs([tc], results) == [CallItem(tc), FunctionOutput(tc.WireId(), results[0].content, false)] + [];
  }

  lemma {:induction false} AddCallsPairs(msgs: seq<Message>, st: State, calls: seq<ToolCall>, results: seq<Message>)
    requires Untaken(msgs, st.paired, results) && Named(calls) && Answer(WireIds(calls), results)
    ensures var after := AddCalls(msgs, st, calls);
      after.items == st.items + Pairs(calls, results[..|calls|]) && Untaken(msgs, after.paired, results[|calls|..])
    decreases |calls|
  {
    hide AddCall, Untaken, Pairs, Answer, Named;
    if calls == [] {
      assert results[0..] == results;
      assert Pairs(calls, results[..0]) == [] by { PairsNone(results); }
      assert st.items + [] == st.items;
    } else {
      AnswerTail(calls, results);
      AddCallNext(msgs, st, calls[0], results);
      AddCallsPairs(msgs, AddCall(msgs, st, calls[0]), calls[1..], results[1..]);
      PairsCons(calls, results);
      assert results[1..][|calls| - 1..] == results[|calls|..];
    }
  }

  lemma PairsNone(results: seq<Message>)
    ensures Pairs([], results[..0]) == []
  {
  }

  lemma AnswerHead(calls: seq<ToolCall>, results: seq<Message>)
    requires calls != [] && Answer(WireIds(calls), results)
    ensures results != [] && results[0].toolCallId == calls[0].WireId() && Answer(WireIds(calls[1..]), results[1..])
  {
    assert WireIds(calls)[0] == calls[0].WireId();
    assert WireIds(calls[1..]) == WireIds(calls)[1..];
  }

  lemma AnswerTail(calls: seq<ToolCall>, results: seq<Message>)
    requires calls != [] && Named(calls) && Answer(WireIds(calls), results)
    ensures results != [] && results[0].toolCallId == calls[0].WireId() != "" && |results| >= |calls|
    ensures Named(calls[1..]) && Answer(WireIds(calls[1..]), results[1..])
  {
    AnswerHead(calls, results);
  }

  lemma PairsCons(calls: seq<ToolCall>, results: seq<Message>)
    requires calls != [] && |results| >= |calls|
    ensures Pairs(calls, results[..|calls|]) == Pairs([calls[0]], results) + Pairs(calls[1..], results[1..][..|calls| - 1])
  {
    hide CallItem;
    assert results[..|calls|][1..] == results[1..][..|calls| - 1] && results[..|calls|][0] == results[0];
    PairsOne(calls[0], results);
  }

  lemma PairsOne(tc: ToolCall, results: seq<Message>)
    requires results != []
    ensures Pairs([tc], results) == [CallItem(tc), FunctionOutput(tc.WireId(), results[0].content, false)]
  {
    hide CallItem;
    assert [tc][1..] == [];
    Empty([CallItem(tc), FunctionOutput(tc.WireId(), results[0].content, false)]);
  }

  lemma AddMessageIs(msgs: seq<Message>, st: State, m: Message, stamp: bool)
    ensures AddMessage(msgs, st, m, stamp)
         == AddCalls(msgs, State(st.items + OwnItems(m, stamp), st.paired, st.lastOut), Calls(m))
  {
    assert st.items + [] == st.items;
  }

  lemma {:induction false} AddAllByPosition(msgs: seq<Message>, st: State, from: nat, results: seq<Message>, stamp: bool)
    requires from <= |msgs| && AllNamed(msgs)
    requires Untaken(msgs, st.paired, results) && Answer(CallIds(msgs[from..]), results)
    ensures AddAll(msgs, st, from, stamp).items == st.items + ByPosition(msgs[from..], results, stamp)
    decreases |msgs| - from
  {
    hide AddCalls, AddMessage, OwnItems, Untaken, Answer, Pairs, CallIds, WireIds, ByPosition;
    if from == |msgs| {
      NoneByPosition(msgs[from..], results, stamp);
      Empty(st.items);
    } else {
      var m, n := msgs[from], |Calls(msgs[from])|;
      Suffix(msgs, from);
      AnswerSizesOf(msgs[from..], results);
      ByPositionStep(msgs[from..], results, stamp);
      AnswerSplit(msgs[from..], results);
      var own := State(st.items + OwnItems(m, stamp), st.paired, st.lastOut);
      AddCallsPairs(msgs, own, Calls(m), results);
      AddMessageIs(msgs, st, m, stamp);
      AddAllByPosition(msgs, AddMessage(msgs, st, m, stamp), from + 1, results[n..], stamp);
      Assoc(st.items, OwnItems(m, stamp), Pairs(Calls(m), results[..n]));
      Assoc(st.items, OwnItems(m, stamp) + Pairs(Calls(m), results[..n]), ByPosition(msgs[from + 1..], results[n..], stamp));
    }
  }

  lemma NoneByPosition(msgs: seq<Message>, results: seq<Message>, stamp: bool)
    requires msgs == []
    ensures |CallIds(msgs)| <= |results| && ByPosition(msgs, results, stamp) == []
  {
  }

  lemma AnswerSizesOf(msgs: seq<Message>, results: seq<Message>)
    requires Answer(CallIds(msgs), results)
    ensures |CallIds(msgs)| <= |results|
  {
  }

  lemma CallIdsHead(msgs: seq<Message>)
    requires msgs != []
    ensures CallIds(msgs) == WireIds(Calls(msgs[0])) + CallIds(msgs[1..]) && |WireIds(Calls(msgs[0]))| == |Calls(msgs[0])|
  {
  }

  lemma AnswerSplit(msgs: seq<Message>, results: seq<Message>)
    requires msgs != [] && Answer(CallIds(msgs), results)
    ensures |Calls(msgs[0])| <= |results|
    ensures Answer(WireIds(Calls(msgs[0])), results)
    ensures Answer(CallIds(msgs[1..]), results[|Calls(msgs[0])|..])
  {
    hide WireIds, CallIds;
    var own, rest := WireIds(Calls(msgs[0])), CallIds(msgs[1..]);
    CallIdsHead(msgs);
    forall k | 0 <= k < |own| ensures results[k].toolCallId == own[k] {
      assert CallIds(msgs)[k] == own[k];
    }
    forall k | 0 <= k < |rest| ensures results[|own|..][k].toolCallId == rest[k] {
      assert CallIds(msgs)[|own| + k] == rest[k];
    }
  }

  /** On every window of complete rounds with non-empty wire ids, the encoder emits each call with
      its own result, and each result once: it refines pairing by position. */
  lemma CompleteWindowPairs(msgs: seq<Message>, prompt: Bytes, stamp: bool)
    requires Complete(msgs) && AllNamed(msgs)
    ensures |CallIds(msgs)| == |Results(msgs)|
    ensures AddAll(msgs, Start(prompt, stamp), 0, stamp).items
         == Start(prompt, stamp).items + ByPosition(msgs, Results(msgs), stamp)
  {
    hide AddAll, ByPosition, Untaken;
    ResultsMatchCalls(msgs);
    UntakenStart(msgs);
    assert msgs[0..] == msgs;
    AddAllByPosition(msgs, Start(prompt, stamp), 0, Results(msgs), stamp);
  }

  // ---------------------------------------------------------------------------------------------
  // What the simple form says
  // ---------------------------------------------------------------------------------------------

  function Outputs(items: seq<Item>): seq<(string, Bytes)> {
    if items == [] then []
    else (if items[0].FunctionOutput? then [(items[0].outputOf, items[0].output)] else []) + Outputs(items[1..])
  }

  function Answers(results: seq<Message>): seq<(string, Bytes)> {
    seq(|results|, k requires 0 <= k < |results| => (results[k].toolCallId, results[k].content))
  }

  /** Every call has its output right after it, and no output stands elsewhere. */
  predicate Interleaved(items: seq<Item>)
    decreases |items|
  {
    items == [] ||
    if items[0].FunctionCall? then
      |items| > 1 && items[1].FunctionOutput? && items[1].outputOf == items[0].callId && Interleaved(items[2..])
    else !items[0].FunctionOutput? && Interleaved(items[1..])
  }

  lemma {:induction false} OutputsAppend(a: seq<Item>, b: seq<Item>)
    ensures Outputs(a + b) == Outputs(a) + Outputs(b)
  {
    if a == [] {
      Empty(b);
    } else {
      Uncons(a, b);
      OutputsAppend(a[1..], b);
      Assoc(if a[0].FunctionOutput? then [(a[0].outputOf, a[0].output)] else [], Outputs(a[1..]), Outputs(b));
    }
  }

  lemma {:induction false} InterleavedAppend(a: seq<Item>, b: seq<Item>)
    requires Interleaved(a) && Interleaved(b)
    ensures Interleaved(a + b)
    decreases |a|
  {
    if a == [] {
      assert a + b == b;
    } else {
      var n := if a[0].FunctionCall? then 2 else 1;
      assert (a + b)[n..] == a[n..] + b;
      InterleavedAppend(a[n..], b);
    }
  }

  lemma {:induction false} PairsShape(calls: seq<ToolCall>, results: seq<Message>)
    requires |results| == |calls| && Answer(WireIds(calls), results)
    ensures Interleaved(Pairs(calls, results)) && Outputs(Pairs(calls, results)) == Answers(results)
    decreases |calls|
  {
    hide *;
    if calls == [] {
      NoPairs(results);
    } else {
      var head := [CallItem(calls[0]), FunctionOutput(calls[0].WireId(), results[0].content, false)];
      AnswerHead(calls, results);
      PairsHead(calls, results);
      PairsShape(calls[1..], results[1..]);
      PairShape(calls[0], results[0]);
      InterleavedAppend(head, Pairs(calls[1..], results[1..]));
      OutputsAppend(head, Pairs(calls[1..], results[1..]));
      AnswersHead(results);
    }
  }

  lemma NoPairs(results: seq<Message>)
    requires results == []
    ensures Interleaved(Pairs([], results)) && Outputs(Pairs([], results)) == Answers(results)
  {
  }

  lemma PairShape(tc: ToolCall, result: Message)
    ensures var pair := [CallItem(tc), FunctionOutput(tc.WireId(), result.content, false)];
      Interleaved(pair) && Outputs(pair) == [(tc.WireId(), result.content)]
  {
    var pair := [CallItem(tc), FunctionOutput(tc.WireId(), result.content, false)];
    assert pair[2..] == [];
    assert pair[1..] == [pair[1]] && [pair[1]][1..] == [];
    assert Outputs([pair[1]]) == [(tc.WireId(), result.content)];
  }

  lemma PairsHead(calls: seq<ToolCall>, results: seq<Message>)
    requires calls != [] && |results| == |calls|
    ensures Pairs(calls, results) ==
      [CallItem(calls[0]), FunctionOutput(calls[0].WireId(), results[0].content, false)] + Pairs(calls[1..], results[1..])
  {
    hide CallItem;
  }

  lemma AnswersHead(results: seq<Message>)
    requires results != []
    ensures Answers(results) == [(results[0].toolCallId, results[0].content)] + Answers(results[1..])
  {
  }

  lemma {:induction false} ByPositionShape(msgs: seq<Message>, results: seq<Message>, stamp: bool)
    requires |CallIds(msgs)| == |results| && Answer(CallIds(msgs), results)
    ensures Interleaved(ByPosition(msgs, results, stamp))
    ensures Outputs(ByPosition(msgs, results, stamp)) == Answers(results)
    decreases |msgs|
  {
    if msgs == [] {
      assert results == [];
    } else {
      hide *;
      var n := |Calls(msgs[0])|;
      AnswerSizes(msgs, results);
      ByPositionShape(msgs[1..], results[n..], stamp);
      ByPositionJoin(msgs, results, stamp);
    }
  }

  lemma ByPositionJoin(msgs: seq<Message>, results: seq<Message>, stamp: bool)
    requires msgs != [] && |CallIds(msgs)| == |results| && |Calls(msgs[0])| <= |results|
    requires |CallIds(msgs[1..])| == |results| - |Calls(msgs[0])|
    requires Answer(WireIds(Calls(msgs[0])), results[..|Calls(msgs[0])|])
    requires Interleaved(ByPosition(msgs[1..], results[|Calls(msgs[0])|..], stamp))
    requires Outputs(ByPosition(msgs[1..], results[|Calls(msgs[0])|..], stamp)) == Answers(results[|Calls(msgs[0])|..])
    ensures Interleaved(ByPosition(msgs, results, stamp))
    ensures Outputs(ByPosition(msgs, results, stamp)) == Answers(results)
  {
    hide *;
    var n := |Calls(msgs[0])|;
    PairsShape(Calls(msgs[0]), results[..n]);
    OwnShape(msgs[0], stamp);
    ByPositionStep(msgs, results, stamp);
    ThreeParts(OwnItems(msgs[0], stamp), Pairs(Calls(msgs[0]), results[..n]),
               ByPosition(msgs[1..], results[n..], stamp));
    AnswersSplit(results, n);
    assert [] + Answers(results[..n]) == Answers(results[..n]);
  }

  lemma ByPositionStep(msgs: seq<Message>, results: seq<Message>, stamp: bool)
    requires msgs != [] && |CallIds(msgs)| <= |results|
    ensures var n := |Calls(msgs[0])|;
      n <= |results| && |CallIds(msgs[1..])| <= |results| - n &&
      ByPosition(msgs, results, stamp) == OwnItems(msgs[0], stamp) +
        Pairs(Calls(msgs[0]), results[..n]) + ByPosition(msgs[1..], results[n..], stamp)
  {
  }

  lemma AnswersSplit(results: seq<Message>, n: nat)
    requires n <= |results|
    ensures Answers(results[..n]) + Answers(results[n..]) == Answers(results)
  {
  }

  lemma ThreeParts(a: seq<Item>, b: seq<Item>, c: seq<Item>)
    requires Interleaved(a) && Interleaved(b) && Interleaved(c)
    ensures Interleaved(a + b + c) && Outputs(a + b + c) == Outputs(a) + Outputs(b) + Outputs(c)
  {
    hide Interleaved, Outputs;
    InterleavedAppend(a, b);
    InterleavedAppend(a + b, c);
    OutputsAppend(a, b);
    OutputsAppend(a + b, c);
  }

  lemma AnswerSizes(msgs: seq<Message>, results: seq<Message>)
    requires msgs != [] && |CallIds(msgs)| == |results| && Answer(CallIds(msgs), results)
    ensures |Calls(msgs[0])| <= |results| && |CallIds(msgs[1..])| == |results| - |Calls(msgs[0])|
    ensures Answer(WireIds(Calls(msgs[0])), results[..|Calls(msgs[0])|])
    ensures Answer(CallIds(msgs[1..]), results[|Calls(msgs[0])|..])
  {
    hide WireIds, CallIds;
    AnswerSplit(msgs, results);
    CallIdsHead(msgs);
  }

  lemma OwnShape(m: Message, stamp: bool)
    ensures Interleaved(OwnItems(m, stamp)) && Outputs(OwnItems(m, stamp)) == []
  {
    var own := OwnItems(m, stamp);
    if own != [] { assert own == [own[0]] && own[1..] == []; }
  }

  lemma StampShape(st: State, stamp: bool)
    requires Interleaved(st.items)
    ensures Interleaved(Stamp(st, stamp)) && Outputs(Stamp(st, stamp)) == Outputs(st.items)
  {
    if stamp && 0 <= st.lastOut < |st.items| && st.items[st.lastOut].FunctionOutput? {
      StampedShape(st.items, st.lastOut);
    }
  }

  lemma {:induction false} StampedShape(items: seq<Item>, k: nat)
    requires k < |items| && items[k].FunctionOutput?
    ensures Outputs(items[k := Stamped(items[k])]) == Outputs(items)
    ensures Interleaved(items) ==> Interleaved(items[k := Stamped(items[k])])
    decreases k
  {
    var after := items[k := Stamped(items[k])];
    if k == 0 {
      assert after[1..] == items[1..];
    } else {
      assert after[1..] == items[1..][k - 1 := Stamped(items[k])];
      StampedShape(items[1..], k - 1);
      if k == 1 {
        assert after[2..] == items[2..];
      } else {
        assert after[2..] == items[2..][k - 2 := Stamped(items[k])];
        StampedShape(items[2..], k - 2);
      }
    }
  }

  lemma ResultsAnswer(msgs: seq<Message>)
    requires Complete(msgs)
    ensures |CallIds(msgs)| == |Results(msgs)| && Answer(CallIds(msgs), Results(msgs))
  {
    hide Complete, CallIds, Results, ResultIds;
    ResultsMatchCalls(msgs);
  }

  lemma StartShape(prompt: Bytes, stamp: bool)
    ensures Interleaved(Start(prompt, stamp).items) && Outputs(Start(prompt, stamp).items) == []
  {
    var start := Start(prompt, stamp).items;
    if start != [] { assert start[1..] == []; }
  }

  /** Main result: the request of a complete window holds every result once, in order, each right
      after the call with its id. */
  lemma CompleteWindowInput(msgs: seq<Message>, prompt: Bytes, stamp: bool)
    requires Complete(msgs) && AllNamed(msgs)
    ensures Interleaved(Input(msgs, prompt, stamp))
    ensures Outputs(Input(msgs, prompt, stamp)) == Answers(Results(msgs))
  {
    hide AddAll, ByPosition, Stamp, Complete, Interleaved, Outputs, Answers, Results, Start, CallIds, ResultIds;
    CompleteWindowPairs(msgs, prompt, stamp);
    ResultsAnswer(msgs);
    var start, items := Start(prompt, stamp).items, ByPosition(msgs, Results(msgs), stamp);
    ByPositionShape(msgs, Results(msgs), stamp);
    StartShape(prompt, stamp);
    InterleavedAppend(start, items);
    OutputsAppend(start, items);
    Empty(Answers(Results(msgs)));
    StampShape(AddAll(msgs, Start(prompt, stamp), 0, stamp), stamp);
  }
}
