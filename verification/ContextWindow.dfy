/** The context window: committed messages, the provider's count of the last request on them, and
    the rules that keep every request under the model's context size (window.go). */
module ContextWindow {
  import opened Messages
  import opened Sequences

  datatype Error = ArchiveFailed | SummaryFailed | KeepFailed | CountFailed | RoundTooLarge | NothingToCollapse | NoPlan

  datatype Result<T> = Ok(value: T) | Err(error: Error)

  // ---------------------------------------------------------------------------------------------
  // Sizes
  // ---------------------------------------------------------------------------------------------

  /** The provider's count of a request's messages, with the harness's system prompt and tools;
      the encoded size of a message; and the encoded size of that prompt and those tools. */
  datatype Meter = Meter(tokens: seq<Message> -> nat, size: Message -> nat, fixed: nat)

  function MessagesSize(meter: Meter, msgs: seq<Message>): nat {
    if msgs == [] then 0 else meter.size(msgs[0]) + MessagesSize(meter, msgs[1..])
  }

  function EncodedSize(meter: Meter, msgs: seq<Message>): nat {
    meter.fixed + MessagesSize(meter, msgs)
  }

  /** What the source relies on of a tokenizer: every token has at least one byte of the encoding. */
  ghost predicate Bounded(meter: Meter) {
    (forall msgs: seq<Message> :: meter.tokens(msgs) <= EncodedSize(meter, msgs)) &&
    (forall a: seq<Message>, b: seq<Message> :: meter.tokens(a + b) <= meter.tokens(a) + MessagesSize(meter, b))
  }

  /** The provider's count of the last request, and how many messages it carried; zero is no count. */
  datatype Count = Count(tokens: nat, messages: nat)

  const NO_COUNT := Count(0, 0)

  /** A count that bounds the request on the first count.messages messages of msgs. */
  ghost predicate Counts(meter: Meter, count: Count, msgs: seq<Message>) {
    count.messages <= |msgs| &&
    if count.tokens == 0 then count.messages == 0 else meter.tokens(msgs[..count.messages]) <= count.tokens
  }

  function Bound(meter: Meter, count: Count, msgs: seq<Message>, round: seq<Message>): nat
    requires count.messages <= |msgs|
  {
    if count.tokens == 0 then EncodedSize(meter, msgs + round)
    else count.tokens + MessagesSize(meter, msgs[count.messages..]) + MessagesSize(meter, round)
  }

  lemma {:induction false} SizeAppend(meter: Meter, a: seq<Message>, b: seq<Message>)
    ensures MessagesSize(meter, a + b) == MessagesSize(meter, a) + MessagesSize(meter, b)
  {
    if a == [] {
      Empty(b);
    } else {
      Uncons(a, b);
      SizeAppend(meter, a[1..], b);
    }
  }

  /** The bound of the counted request is its count, every message adds its encoded size, in the window
      or in the round, and without a count it starts at the size of an empty request. */
  lemma BoundAdds(meter: Meter, count: Count, msgs: seq<Message>, round: seq<Message>, m: Message)
    requires count.messages <= |msgs| && (count.tokens == 0 ==> count.messages == 0)
    ensures Bound(meter, count, msgs, round + [m]) == Bound(meter, count, msgs, round) + meter.size(m)
    ensures Bound(meter, count, msgs + [m], []) == Bound(meter, count, msgs, []) + meter.size(m)
    ensures Bound(meter, count, msgs + round, []) == Bound(meter, count, msgs, round)
    ensures Bound(meter, count, msgs[..count.messages], []) == if count.tokens == 0 then meter.fixed else count.tokens
  {
    hide MessagesSize;
    var rest := msgs[count.messages..];
    SizeOne(meter, m);
    SizeAppend(meter, round, [m]);
    SizeAppend(meter, msgs, [m]);
    SizeAppend(meter, rest, [m]);
    SizeAppend(meter, msgs, round);
    SizeAppend(meter, msgs, round + [m]);
    SizeAppend(meter, rest, round);
    assert (msgs + [m])[count.messages..] == rest + [m] && (msgs + round)[count.messages..] == rest + round;
    assert msgs[..count.messages][count.messages..] == [];
    Empty(msgs + [m]);
    Empty(msgs);
    Empty(msgs + round);
    Empty(msgs[..count.messages]);
  }

  lemma SizeOne(meter: Meter, m: Message)
    ensures MessagesSize(meter, [m]) == meter.size(m) && MessagesSize(meter, []) == 0
  {
    assert [m][1..] == [];
  }

  /** The bound is an upper bound of what the request takes. */
  lemma BoundIsUpper(meter: Meter, count: Count, msgs: seq<Message>, round: seq<Message>)
    requires Bounded(meter) && Counts(meter, count, msgs)
    ensures meter.tokens(msgs + round) <= Bound(meter, count, msgs, round)
  {
    if count.tokens > 0 {
      var rest := msgs[count.messages..] + round;
      assert msgs + round == msgs[..count.messages] + rest;
      assert meter.tokens(msgs[..count.messages] + rest) <= meter.tokens(msgs[..count.messages]) + MessagesSize(meter, rest);
      SizeAppend(meter, msgs[count.messages..], round);
    }
  }

  /** The size over which a commit collapses the window: 0.85 of it, rounded down. */
  function Threshold(size: nat): (t: nat)
    ensures t <= size && 100 * t <= 85 * size < 100 * (t + 1)
  {
    ((size as real) * 0.85).Floor
  }

  // ---------------------------------------------------------------------------------------------
  // What a window holds
  // ---------------------------------------------------------------------------------------------

  const RULE: Bytes := "\U{E2}\U{94}\U{80}"
  const RULES: Bytes := RULE + RULE + RULE + RULE + RULE + RULE + RULE + RULE + RULE + RULE + RULE + RULE
  const PLAN_PREFIX: Bytes := "PROJECT PLAN\n" + RULES + "\n"
  const SUMMARY_PREFIX: Bytes := "CONVERSATION SUMMARY\n" + RULES + "\n"
  const HISTORY_NOTE: Bytes := "The full earlier conversation is saved. Use the search tool to find its exact messages, and open to read one."
  const NUDGE: Bytes := "The plan still has incomplete todos. Continue executing now: work the in-progress todo (or the next pending one), call tools as needed, and do not stop for user confirmation. Do not restate the handoff; act on the next todo."

  predicate IsPlanDocument(m: Message) {
    PLAN_PREFIX <= m.content
  }

  function PlanDocument(plan: Bytes): Message {
    Plain(Developer, PLAN_PREFIX + plan)
  }

  function Summary(text: Bytes, kept: bool): Message {
    Plain(Developer, SUMMARY_PREFIX + text + if kept then "\n\n" + HISTORY_NOTE else "")
  }

  /** What a collapse keeps: the first user message, and the plan document after it. */
  function Protected(msgs: seq<Message>): (n: nat)
    ensures n <= |msgs|
  {
    if |msgs| > 1 && IsPlanDocument(msgs[1]) then 2 else if |msgs| < 1 then |msgs| else 1
  }

  /** What a collapse would keep is a reply that reads as a plan document, without the results of its
      calls. */
  predicate PlanCalls(msgs: seq<Message>) {
    |msgs| > 1 && IsPlanDocument(msgs[1]) && msgs[1].role == Assistant && msgs[1].calls != []
  }

  predicate StartsWithUser(msgs: seq<Message>) {
    msgs != [] ==> msgs[0].role == User
  }

  /** A window as commits build it: complete rounds after a first user message. */
  predicate Sound(msgs: seq<Message>) {
    Complete(msgs) && StartsWithUser(msgs) && !PlanCalls(msgs)
  }

  /** The protected prefix ends at a round boundary exactly when it is not such a reply. */
  lemma ProtectedExactly(msgs: seq<Message>)
    requires Complete(msgs) && StartsWithUser(msgs)
    ensures Complete(msgs[..Protected(msgs)]) <==> !PlanCalls(msgs)
    ensures !PlanCalls(msgs) ==> Complete(msgs[Protected(msgs)..])
  {
    var n := Protected(msgs);
    assert msgs == msgs[..n] + msgs[n..];
    if n > 0 {
      CompleteHead(msgs[0]);
      assert msgs[..1] == [msgs[0]];
      if n == 2 {
        assert msgs == msgs[..1] + msgs[1..] && msgs[1] in msgs;
        CompleteAppend(msgs[..1], msgs[1..]);
        assert msgs[1].role != Tool by {
          assert ScanOne(IDLE, msgs[1..][0]).Some?;
        }
        assert msgs[..2] == [msgs[0]] + [msgs[1]];
        CompleteAppend([msgs[0]], [msgs[1]]);
        if PlanCalls(msgs) { CallsPending(msgs[1]); } else { CompleteHead(msgs[1]); }
      }
    }
    if !PlanCalls(msgs) { CompleteAppend(msgs[..n], msgs[n..]); }
  }

  lemma CallsPending(m: Message)
    requires m.role == Assistant && m.calls != []
    ensures ScanAll(IDLE, [m]) == Some(Scan(WireIds(m.calls), false)) && !Complete([m])
  {
    assert [] + WireIds(m.calls) == WireIds(m.calls) && |WireIds(m.calls)| > 0 && [m][1..] == [];
    assert ScanOne(IDLE, m) == Some(Scan(WireIds(m.calls), false));
  }

  lemma CompleteHead(m: Message)
    requires m.role != Tool && (m.role == Assistant ==> m.calls == [])
    ensures Complete([m])
  {
    CompleteOne(m.(calls := []));
    assert [m][1..] == [];
    assert m.role == Assistant ==> m == m.(calls := []);
    assert ScanAll(IDLE, [m]) == ScanAll(IDLE, [m][1..]);
  }

  /** Such a window is complete, as a first reply that reads as a plan and calls makes it. */
  lemma PlanReplySplitsRound(call: ToolCall)
    ensures var reply := Plain(Assistant, PLAN_PREFIX).(calls := [call]);
      var msgs := [Plain(User, "go"), reply, Plain(Tool, "").(toolCallId := call.WireId())];
      Complete(msgs) && PlanCalls(msgs) && !Complete(msgs[..Protected(msgs)])
  {
    var reply := Plain(Assistant, PLAN_PREFIX).(calls := [call]);
    var result := Plain(Tool, "").(toolCallId := call.WireId());
    var user := Plain(User, "go");
    CompleteHead(user);
    CallsPending(reply);
    assert WireIds([call]) == [call.WireId()];
    var busy := Scan([call.WireId()], false);
    assert busy.pending[1..] == [] && [result][1..] == [];
    assert ScanAll(busy, [result]) == ScanAll(IDLE, []) == Some(IDLE);
    ScanAppend(IDLE, [reply], [result]);
    CompleteAppend([user], [reply] + [result]);
    var msgs := [user, reply, result];
    assert msgs == [user] + ([reply] + [result]);
    ProtectedExactly(msgs);
  }

  /** Two lists that differ in contents only scan alike. */
  predicate SameFrame(a: Message, b: Message) {
    b == a.(content := b.content)
  }

  lemma {:induction false} ScanSame(st: Scan, a: seq<Message>, b: seq<Message>)
    requires |a| == |b| && forall i :: 0 <= i < |a| ==> SameFrame(a[i], b[i])
    ensures ScanAll(st, a) == ScanAll(st, b)
    decreases |a|
  {
    if a != [] {
      assert SameFrame(a[0], b[0]);
      if ScanOne(st, a[0]).Some? {
        ScanSame(ScanOne(st, a[0]).value, a[1..], b[1..]);
      }
    }
  }
}
