/** How a reply's text reaches a reader: the harness turns model chunks into events (model_tasks.go,
    agent.go), a lossy live channel and a durable log carry them (session/live.go), Merge makes one
    stream of the two, and a follow counts what it sent (server/protocol.go). */
module Streaming {
  import opened Messages

  datatype Type = MessageText | ReasoningText | FunctionCall | TurnComplete | TurnError | TurnInterrupt | NoType | OtherType

  /** A text message of a turn. */
  datatype Key = Key(kind: Type, messageId: string)

  datatype Chunk = Chunk(kind: Type, messageId: string, content: Bytes, isComplete: bool, calls: seq<ToolCall>,
                         encrypted: string, inputTokens: nat, failed: bool)

  /** `offset` is where a delta starts in its message's text; `streamed` is how much of a complete
      event's content the reader has. */
  datatype Event = Event(kind: Type, messageId: string, delta: bool, offset: nat, content: Bytes, streamed: nat)

  predicate IsText(kind: Type) {
    kind == MessageText || kind == ReasoningText
  }

  predicate EndsTurn(kind: Type) {
    kind == TurnComplete || kind == TurnError || kind == TurnInterrupt
  }

  predicate IsDelta(c: Chunk) {
    !c.isComplete && c.content != "" && IsText(c.kind)
  }

  // ---------------------------------------------------------------------------------------------
  // The assembler
  // ---------------------------------------------------------------------------------------------

  function KeyOf(c: Chunk): Key {
    Key(c.kind, c.messageId)
  }

  function TextOf(buf: map<Key, Bytes>, k: Key): Bytes {
    if k in buf then buf[k] else ""
  }

  function Added(buf: map<Key, Bytes>, c: Chunk): map<Key, Bytes> {
    if IsDelta(c) then buf[KeyOf(c) := TextOf(buf, KeyOf(c)) + c.content] else buf
  }

  function CompleteText(buf: map<Key, Bytes>, c: Chunk): Bytes {
    if TextOf(buf, KeyOf(c)) != "" then TextOf(buf, KeyOf(c)) else c.content
  }

  /** The event of a chunk, before the assembler takes it. */
  function EventOf(buf: map<Key, Bytes>, c: Chunk): Option<Event> {
    if c.kind == NoType || c.kind == TurnComplete then None
    else if IsDelta(c) then Some(Event(c.kind, c.messageId, true, |TextOf(buf, KeyOf(c))|, c.content, 0))
    else if c.isComplete && IsText(c.kind) then Some(Event(c.kind, c.messageId, false, 0, CompleteText(buf, c), 0))
    else Some(Event(c.kind, c.messageId, false, 0, c.content, 0))
  }

  class StreamAssembler {
    var buf: map<Key, Bytes>

    constructor ()
      ensures buf == map[]
    {
      buf := map[];
    }

    method Streamed(c: Chunk) returns (text: Bytes)
      ensures text == TextOf(buf, KeyOf(c))
    {
      text := if KeyOf(c) in buf then buf[KeyOf(c)] else "";
    }

    method AddDelta(c: Chunk)
      modifies this
      ensures buf == Added(old(buf), c)
    {
      if IsDelta(c) {
        var text := Streamed(c);
        buf := buf[KeyOf(c) := text + c.content];
      }
    }

    method CompleteContent(c: Chunk) returns (text: Bytes)
      ensures text == CompleteText(buf, c)
    {
      text := Streamed(c);
      if text == "" {
        text := c.content;
      }
    }

    /** The window's message of a completed text chunk. */
    method MessageFromComplete(c: Chunk) returns (m: Message)
      ensures m == Message(if c.kind == ReasoningText then Reasoning else Assistant, CompleteText(buf, c), c.messageId,
                           c.encrypted, [], c.calls, "")
    {
      var text := CompleteContent(c);
      var role := Assistant;
      if c.kind == ReasoningText {
        role := Reasoning;
      }
      m := Message(role, text, c.messageId, c.encrypted, [], c.calls, "");
    }
  }

  method StreamChunk(c: Chunk, asm: StreamAssembler) returns (ev: Option<Event>)
    ensures ev == EventOf(asm.buf, c)
  {
    if c.kind == NoType || c.kind == TurnComplete {
      return None;
    }
    var e := Event(c.kind, c.messageId, false, 0, c.content, 0);
    if IsDelta(c) {
      var text := asm.Streamed(c);
      e := e.(delta := true, offset := |text|);
    } else if c.isComplete && IsText(c.kind) {
      var text := asm.CompleteContent(c);
      e := e.(content := text);
    }
    ev := Some(e);
  }

  /** What the assembler has after a stream of chunks. */
  function AddedAll(cs: seq<Chunk>): map<Key, Bytes> {
    if cs == [] then map[] else Added(AddedAll(cs[..|cs| - 1]), cs[|cs| - 1])
  }

  /** The pieces of a message's text in a stream, joined. */
  function Pieces(cs: seq<Chunk>, k: Key): Bytes {
    if cs == [] then ""
    else (if IsDelta(cs[0]) && KeyOf(cs[0]) == k then cs[0].content else "") + Pieces(cs[1..], k)
  }

  lemma {:induction false} PiecesLast(cs: seq<Chunk>, c: Chunk, k: Key)
    ensures Pieces(cs + [c], k) == Pieces(cs, k) + if IsDelta(c) && KeyOf(c) == k then c.content else ""
  {
    if cs == [] {
      assert cs + [c] == [c] && [c][1..] == [];
      assert Pieces([c], k) == (if IsDelta(c) && KeyOf(c) == k then c.content else "") + "";
    } else {
      assert (cs + [c])[1..] == cs[1..] + [c];
      PiecesLast(cs[1..], c, k);
    }
  }

  /** The assembler has the text that streamed of every message. */
  lemma {:induction false} AssembledText(cs: seq<Chunk>, k: Key)
    ensures TextOf(AddedAll(cs), k) == Pieces(cs, k)
    decreases |cs|
  {
    if cs != [] {
      var init, c := cs[..|cs| - 1], cs[|cs| - 1];
      assert cs == init + [c];
      AssembledText(init, k);
      PiecesLast(init, c, k);
      assert Pieces(init, k) + "" == Pieces(init, k);
    }
  }

  /** The event of a piece is the text from its offset on, once the piece has streamed; the event of a
      message's end has the text that streamed, or the end's own when nothing did. */
  lemma ChunkEvents(cs: seq<Chunk>, c: Chunk)
    requires IsText(c.kind) && (IsDelta(c) || c.isComplete)
    ensures var ev, k := EventOf(AddedAll(cs), c), KeyOf(c);
      ev.Some? && ev.value.delta == IsDelta(c) && EventKey(ev.value) == k &&
      (IsDelta(c) ==> ev.value.offset <= |Pieces(cs + [c], k)| && ev.value.content == Pieces(cs + [c], k)[ev.value.offset..] &&
                      Pieces(cs, k) == Pieces(cs + [c], k)[..ev.value.offset]) &&
      (c.isComplete ==> ev.value.content == (if Pieces(cs, k) != "" then Pieces(cs, k) else c.content))
  {
    AssembledText(cs, KeyOf(c));
    PiecesLast(cs, c, KeyOf(c));
  }

  // ---------------------------------------------------------------------------------------------
  // The live channel
  // ---------------------------------------------------------------------------------------------

  const LIVE_BUFFER := 256

  /** A reader with room gets the event; another misses it. */
  function Offered(queue: seq<Event>, ev: Event): seq<Event> {
    if |queue| < LIVE_BUFFER then queue + [ev] else queue
  }

  class Live {
    /** Each session's readers, by channel, and what each has not taken yet. */
    var readers: map<string, map<nat, seq<Event>>>

    constructor ()
      ensures readers == map[]
    {
      readers := map[];
    }

    method Publish(id: string, ev: Event)
      modifies this
      ensures readers.Keys == old(readers).Keys
      ensures forall x :: x in readers && x != id ==> readers[x] == old(readers)[x]
      ensures id in readers ==>
        readers[id] == map ch | ch in old(readers)[id] ::
          if |old(readers)[id][ch]| < 256 then old(readers)[id][ch] + [ev] else old(readers)[id][ch]
    {
      if id !in readers {
        return;
      }
      var queues, left := readers[id], readers[id].Keys;
      while left != {}
        invariant left <= readers[id].Keys == queues.Keys && readers == old(readers)
        invariant forall ch :: ch in queues ==>
          queues[ch] == if ch in left then readers[id][ch] else Offered(readers[id][ch], ev)
        decreases |left|
      {
        var ch: nat :| ch in left;
        left := left - {ch};
        if |queues[ch]| < LIVE_BUFFER {
          queues := queues[ch := queues[ch] + [ev]];
        }
      }
      readers := readers[id := queues];
    }
  }

  // ---------------------------------------------------------------------------------------------
  // Merge and the follow
  // ---------------------------------------------------------------------------------------------

  /** What Merge sent of a message: its length, and whether its complete event went out. */
  datatype Text = Text(sent: nat, done: bool)

  function EventKey(ev: Event): Key {
    Key(ev.kind, ev.messageId)
  }

  function TextAt(texts: map<Key, Text>, k: Key): Text {
    if k in texts then texts[k] else Text(0, false)
  }

  predicate Sends(texts: map<Key, Text>, ev: Event) {
    IsText(ev.kind) && ev.delta ==> !TextAt(texts, EventKey(ev)).done && ev.offset == TextAt(texts, EventKey(ev)).sent
  }

  /** What sendable notes. */
  function Noted(texts: map<Key, Text>, ev: Event): map<Key, Text> {
    if EndsTurn(ev.kind) then map[]
    else if !IsText(ev.kind) then texts
    else
      var k, t := EventKey(ev), TextAt(texts, EventKey(ev));
      if !ev.delta then texts[k := t.(done := true)]
      else if Sends(texts, ev) then texts[k := t.(sent := t.sent + |ev.content|)]
      else texts[k := t]
  }

  class Merger {
    var texts: map<Key, Text>

    constructor ()
      ensures texts == map[]
    {
      texts := map[];
    }

    method Sendable(ev: Event) returns (ok: bool)
      modifies this
      ensures ok == Sends(old(texts), ev) && texts == Noted(old(texts), ev)
    {
      if EndsTurn(ev.kind) {
        texts := map[];
        return true;
      }
      if !IsText(ev.kind) {
        return true;
      }
      var k := EventKey(ev);
      if k !in texts {
        texts := texts[k := Text(0, false)];
      }
      var t := texts[k];
      if !ev.delta {
        texts := texts[k := t.(done := true)];
        return true;
      }
      if t.done || ev.offset != t.sent {
        assert texts == old(texts)[k := t];
        return false;
      }
      texts := texts[k := t.(sent := t.sent + |ev.content|)];
      ok := true;
    }
  }

  function CountAt(streamed: map<Key, nat>, k: Key): nat {
    if k in streamed then streamed[k] else 0
  }

  function Min(a: nat, b: nat): nat {
    if a < b then a else b
  }

  function Counted(streamed: map<Key, nat>, ev: Event): map<Key, nat> {
    if !IsText(ev.kind) then streamed
    else if ev.delta then streamed[EventKey(ev) := CountAt(streamed, EventKey(ev)) + |ev.content|]
    else streamed - {EventKey(ev)}
  }

  /** The event as the follow delivers it. */
  function Delivered(streamed: map<Key, nat>, ev: Event): Event {
    if IsText(ev.kind) && !ev.delta then ev.(streamed := Min(CountAt(streamed, EventKey(ev)), |ev.content|)) else ev
  }

  class Follow {
    var streamed: map<Key, nat>

    constructor ()
      ensures streamed == map[]
    {
      streamed := map[];
    }

    method NoteStreamed(ev: Event) returns (r: Event)
      modifies this
      ensures r == Delivered(old(streamed), ev) && streamed == Counted(old(streamed), ev)
    {
      if ev.kind != MessageText && ev.kind != ReasoningText {
        return ev;
      }
      var k := EventKey(ev);
      if ev.delta {
        streamed := streamed[k := CountAt(streamed, k) + |ev.content|];
        return ev;
      }
      r := ev.(streamed := Min(CountAt(streamed, k), |ev.content|));
      streamed := streamed - {k};
    }
  }
}
