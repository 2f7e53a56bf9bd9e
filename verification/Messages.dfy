/** The conversation messages of a context window (message/message.go), and the shape that every
    committed window has: complete rounds, each a reply whose calls are followed by exactly one
    result per call, in call order (drive.go, durable_steps.go). */
module Messages {
  import opened Sequences

  datatype Option<T> = None | Some(value: T)

  /** A Go string: each character is one byte. */
  type Bytes = string

  datatype Role = User | Assistant | Reasoning | System | Developer | Tool

  datatype ToolCall = ToolCall(id: string, callId: string, name: string, namespace: string, arguments: string, status: string) {
    /** The provider's call_id field: the call id, else the item id. */
    function WireId(): string {
      if callId != "" then callId else id
    }

    function Key(): string {
      if id != "" then id else callId
    }
  }

  /** A content part; media is the block a provider client makes of it, when it makes one. */
  datatype Part = Part(raw: string, media: Option<string>)

  datatype Message = Message(role: Role, content: Bytes, messageId: string, encrypted: string,
                             parts: seq<Part>, calls: seq<ToolCall>, toolCallId: string)

  function Plain(role: Role, content: Bytes): Message {
    Message(role, content, "", "", [], [], "")
  }

  // ---------------------------------------------------------------------------------------------
  // Complete rounds
  // ---------------------------------------------------------------------------------------------

  /** What a scan of a window is in the middle of: the calls without a result yet, by wire id, and
      whether the reply is over and its results have begun. */
  datatype Scan = Scan(pending: seq<string>, answering: bool)

  const IDLE := Scan([], false)

  function WireIds(calls: seq<ToolCall>): seq<string> {
    seq(|calls|, i requires 0 <= i < |calls| => calls[i].WireId())
  }

  function ScanOne(st: Scan, m: Message): Option<Scan> {
    match m.role
    case Tool =>
      if st.pending != [] && st.pending[0] == m.toolCallId
      then Some(Scan(st.pending[1..], |st.pending| > 1)) else None
    case Assistant => if st.answering then None else Some(Scan(st.pending + WireIds(m.calls), false))
    case Reasoning => if st.answering then None else Some(st)
    case _ => if st.pending == [] then Some(st) else None
  }

  function ScanAll(st: Scan, msgs: seq<Message>): Option<Scan>
    decreases |msgs|
  {
    if msgs == [] then Some(st)
    else
      match ScanOne(st, msgs[0])
      case None => None
      case Some(next) => ScanAll(next, msgs[1..])
  }

  /** msgs is a concatenation of complete rounds and of messages that carry no call. */
  predicate Complete(msgs: seq<Message>) {
    ScanAll(IDLE, msgs) == Some(IDLE)
  }

  lemma {:induction false} ScanAppend(st: Scan, a: seq<Message>, b: seq<Message>)
    ensures ScanAll(st, a + b) == match ScanAll(st, a) { case None => None case Some(mid) => ScanAll(mid, b) }
    decreases |a|
  {
    if a == [] {
      Empty(b);
    } else {
      Uncons(a, b);
      if ScanOne(st, a[0]).Some? {
        ScanAppend(ScanOne(st, a[0]).value, a[1..], b);
      }
    }
  }

  lemma CompleteAppend(a: seq<Message>, b: seq<Message>)
    requires Complete(a)
    ensures Complete(a + b) <==> Complete(b)
  {
    ScanAppend(IDLE, a, b);
  }

  /** Cutting a complete window at a place where it is complete leaves a complete rest. */
  lemma CompleteSuffix(msgs: seq<Message>, k: nat)
    requires k <= |msgs| && Complete(msgs) && Complete(msgs[..k])
    ensures Complete(msgs[k..])
  {
    assert msgs == msgs[..k] + msgs[k..];
    CompleteAppend(msgs[..k], msgs[k..]);
  }

  lemma CompleteOne(m: Message)
    requires m.role != Tool && m.calls == []
    ensures Complete([m])
  {
    assert [m][1..] == [];
    assert IDLE.pending + WireIds(m.calls) == [];
    assert ScanOne(IDLE, m) == Some(IDLE);
    assert ScanAll(IDLE, [m]) == ScanAll(IDLE, [m][1..]);
  }

  function WithoutReasoning(msgs: seq<Message>): (r: seq<Message>)
    ensures forall m :: m in r <==> m in msgs && m.role != Reasoning
  {
    if msgs == [] then [] else (if msgs[0].role == Reasoning then [] else [msgs[0]]) + WithoutReasoning(msgs[1..])
  }

  /** rest are the messages at the positions `at`, which are all but the reasoning's. */
  ghost predicate KeptAt(msgs: seq<Message>, rest: seq<Message>, at: seq<nat>) {
    Rising(at, |msgs|) && |at| == |rest| && (forall i: nat :: i < |msgs| ==> (i in at <==> msgs[i].role != Reasoning)) &&
    forall j :: 0 <= j < |at| ==> rest[j] == msgs[at[j]]
  }

  lemma KeptAtLast(msgs: seq<Message>, m: Message, rest: seq<Message>, at: seq<nat>) returns (next: seq<nat>)
    requires KeptAt(msgs, rest, at)
    ensures KeptAt(msgs + [m], rest + (if m.role == Reasoning then [] else [m]), next)
  {
    var n: nat := |msgs|;
    Empty(rest);
    assert n !in at;
    next := at;
    if m.role != Reasoning {
      next := at + [n];
      assert forall i :: i in next <==> i in at || i == n;
    }
  }

  lemma {:induction false} ReasoningLast(msgs: seq<Message>, m: Message)
    ensures WithoutReasoning(msgs + [m]) == WithoutReasoning(msgs) + if m.role == Reasoning then [] else [m]
  {
    if msgs == [] {
      assert msgs + [m] == [m] && [m][1..] == [];
    } else {
      Uncons(msgs, [m]);
      ReasoningLast(msgs[1..], m);
      Assoc(if msgs[0].role == Reasoning then [] else [msgs[0]], WithoutReasoning(msgs[1..]), if m.role == Reasoning then [] else [m]);
    }
  }

  /** The messages but the reasoning, each once and in order. */
  lemma {:induction false} WithoutReasoningAt(msgs: seq<Message>) returns (at: seq<nat>)
    ensures KeptAt(msgs, WithoutReasoning(msgs), at)
    decreases |msgs|
  {
    if msgs == [] {
      at := [];
    } else {
      hide WithoutReasoning, KeptAt;
      var init, m := msgs[..|msgs| - 1], msgs[|msgs| - 1];
      Snoc(msgs);
      at := WithoutReasoningAt(init);
      ReasoningLast(init, m);
      at := KeptAtLast(init, m, WithoutReasoning(init), at);
    }
  }

  lemma {:induction false} ScanWithoutReasoning(st: Scan, msgs: seq<Message>)
    requires ScanAll(st, msgs).Some?
    ensures ScanAll(st, WithoutReasoning(msgs)) == ScanAll(st, msgs)
    decreases |msgs|
  {
    if msgs != [] {
      var next := ScanOne(st, msgs[0]).value;
      ScanWithoutReasoning(next, msgs[1..]);
      if msgs[0].role != Reasoning {
        assert WithoutReasoning(msgs)[1..] == WithoutReasoning(msgs[1..]);
      } else {
        assert WithoutReasoning(msgs) == WithoutReasoning(msgs[1..]);
      }
    }
  }

  /** The wire ids of the calls of msgs, in order. */
  function CallIds(msgs: seq<Message>): seq<string> {
    if msgs == [] then []
    else (if msgs[0].role == Assistant then WireIds(msgs[0].calls) else []) + CallIds(msgs[1..])
  }

  /** The ids the tool messages of msgs answer, in order. */
  function ResultIds(msgs: seq<Message>): seq<string> {
    if msgs == [] then [] else (if msgs[0].role == Tool then [msgs[0].toolCallId] else []) + ResultIds(msgs[1..])
  }

  /** One message: what it adds to the calls it takes from the queue or leaves in it. */
  lemma ScanOneQueue(st: Scan, m: Message, calls: seq<string>)
    requires ScanOne(st, m).Some?
    ensures st.pending + ((if m.role == Assistant then WireIds(m.calls) else []) + calls) ==
            (if m.role == Tool then [m.toolCallId] else []) + (ScanOne(st, m).value.pending + calls)
  {
    hide WireIds;
    if m.role == Tool { assert st.pending == [st.pending[0]] + st.pending[1..]; }
  }

  /** Calls enter the queue and results leave it, in the same order. */
  lemma {:induction false} ScanQueue(st: Scan, msgs: seq<Message>)
    requires ScanAll(st, msgs).Some?
    ensures st.pending + CallIds(msgs) == ResultIds(msgs) + ScanAll(st, msgs).value.pending
    decreases |msgs|
  {
    hide ScanOne, WireIds;
    if msgs == [] {
      assert st.pending + [] == [] + st.pending;
    } else {
      var m, next := msgs[0], ScanOne(st, msgs[0]).value;
      ScanQueue(next, msgs[1..]);
      ScanOneQueue(st, m, CallIds(msgs[1..]));
      var first, end := if m.role == Tool then [m.toolCallId] else [], ScanAll(st, msgs).value.pending;
      assert first + (ResultIds(msgs[1..]) + end) == ResultIds(msgs) + end;
    }
  }

  /** In a complete window, the results answer the calls one for one, in call order. */
  lemma ResultsMatchCalls(msgs: seq<Message>)
    requires Complete(msgs)
    ensures ResultIds(msgs) == CallIds(msgs)
  {
    ScanQueue(IDLE, msgs);
    assert [] + CallIds(msgs) == CallIds(msgs) && ResultIds(msgs) + [] == ResultIds(msgs);
  }
}
