/** Over every loss of live deltas and every interleaving of them with the log, a reader gets each
    byte of a message once (session/live.go, Merge; server/protocol.go, noteStreamed). */
module ExactlyOnce {
  import opened Messages
  import opened Sequences
  import opened Streaming

  /** The writer's assembler and the messages it completed; the reader's two channels; what Merge
      and the follow keep; and what the reader got. */
  datatype World = World(buf: map<Key, Bytes>, completed: map<Key, Bytes>, live: seq<Event>, log: seq<Event>,
                         texts: map<Key, Text>, streamed: map<Key, nat>, out: seq<Event>)

  datatype Step =
    | Write(c: Chunk, heard: bool)  // the model sends a chunk; `heard` says the reader listens now
    | End(kind: Type)               // the turn ends: its last event goes to the log
    | TakeLive
    | TakeLog

  const START := World(map[], map[], [], [], map[], map[], [])

  /** A model's text chunk is a piece of text, or completes a message, once and as its last chunk. */
  predicate Proper(w: World, c: Chunk) {
    IsText(c.kind) ==> KeyOf(c) !in w.completed && (c.isComplete || c.content != "")
  }

  predicate Can(w: World, step: Step) {
    match step
    case Write(c, _) => !EndsTurn(c.kind)
    case End(kind) => EndsTurn(kind)
    case TakeLive => w.live != []
    case TakeLog => w.log != []
  }

  /** Merge takes ev; the follow delivers it when it is sent. */
  function Take(w: World, ev: Event): World {
    if Sends(w.texts, ev)
    then w.(texts := Noted(w.texts, ev), streamed := Counted(w.streamed, ev), out := w.out + [Delivered(w.streamed, ev)])
    else w.(texts := Noted(w.texts, ev))
  }

  function WriteChunk(w: World, c: Chunk, heard: bool): World {
    var ev := EventOf(w.buf, c);
    var next := w.(buf := Added(w.buf, c),
                   completed := if IsText(c.kind) && c.isComplete then w.completed[KeyOf(c) := CompleteText(w.buf, c)]
                                else w.completed);
    if ev.None? then next
    else if ev.value.delta then next.(live := if heard then Offered(w.live, ev.value) else w.live)
    else next.(log := w.log + [ev.value])
  }

  function Next(w: World, step: Step): World {
    match step
    case Write(c, heard) => WriteChunk(w, c, heard)
    case End(kind) => w.(log := w.log + [Event(kind, "", false, 0, "", 0)])
    case TakeLive => if w.live == [] then w else Take(w.(live := w.live[1..]), w.live[0])
    case TakeLog => if w.log == [] then w else Take(w.(log := w.log[1..]), w.log[0])
  }

  // ---------------------------------------------------------------------------------------------
  // What a reader may get of a message
  // ---------------------------------------------------------------------------------------------

  predicate DeltaOf(ev: Event, k: Key) {
    IsText(ev.kind) && ev.delta && EventKey(ev) == k
  }

  predicate WholeOf(ev: Event, k: Key) {
    IsText(ev.kind) && !ev.delta && EventKey(ev) == k
  }

  /** The text of the deltas of k, joined. */
  function DeltaText(out: seq<Event>, k: Key): Bytes {
    if out == [] then ""
    else DeltaText(out[..|out| - 1], k) + if DeltaOf(out[|out| - 1], k) then out[|out| - 1].content else ""
  }

  /** The contents of the complete events of k. */
  function Wholes(evs: seq<Event>, k: Key): seq<Bytes> {
    if evs == [] then [] else (if WholeOf(evs[0], k) then [evs[0].content] else []) + Wholes(evs[1..], k)
  }

  /** No delta of k follows its complete event; a complete event continues the deltas where they
      end: they are a prefix of its content, and `streamed` is their length. */
  predicate Once(out: seq<Event>, k: Key) {
    out == [] ||
    (var before, ev := out[..|out| - 1], out[|out| - 1];
     Once(before, k) &&
     (DeltaOf(ev, k) ==> Wholes(before, k) == []) &&
     (WholeOf(ev, k) ==>
        Wholes(before, k) == [] && DeltaText(before, k) <= ev.content && ev.streamed == |DeltaText(before, k)|))
  }

  lemma {:induction false} WholesAppend(a: seq<Event>, b: seq<Event>, k: Key)
    ensures Wholes(a + b, k) == Wholes(a, k) + Wholes(b, k)
  {
    if a == [] {
      Empty(b);
    } else {
      Uncons(a, b);
      WholesAppend(a[1..], b, k);
      Assoc(if WholeOf(a[0], k) then [a[0].content] else [], Wholes(a[1..], k), Wholes(b, k));
    }
  }

  lemma WholesOne(ev: Event, k: Key)
    ensures Wholes([ev], k) == if WholeOf(ev, k) then [ev.content] else []
  {
    assert [ev][1..] == [];
  }

  // ---------------------------------------------------------------------------------------------
  // The invariant, message by message
  // ---------------------------------------------------------------------------------------------

  /** The live deltas of k are pieces of its text, in order. */
  predicate LivePieces(live: seq<Event>, k: Key, text: Bytes) {
    (forall e :: e in live && DeltaOf(e, k) ==>
       e.content != "" && e.offset + |e.content| <= |text| && text[e.offset..e.offset + |e.content|] == e.content) &&
    (forall e :: e in live ==> IsText(e.kind) && e.delta) &&
    forall i, j :: 0 <= i < j < |live| && DeltaOf(live[i], k) && DeltaOf(live[j], k) ==> live[i].offset < live[j].offset
  }

  predicate NoFirst(live: seq<Event>, k: Key) {
    forall e :: e in live && DeltaOf(e, k) ==> e.offset > 0
  }

  /** k's text in the log: at most one complete event, of the whole text. */
  predicate LoggedOnce(w: World, k: Key) {
    Wholes(w.out, k) + Wholes(w.log, k) == (if k in w.completed then [w.completed[k]] else []) &&
    (k in w.completed && TextOf(w.buf, k) != "" ==> w.completed[k] == TextOf(w.buf, k))
  }

  /** What the reader has is the start of the text, and Merge and the follow know how much. */
  predicate Tracked(w: World, k: Key) {
    var t, got := TextAt(w.texts, k), DeltaText(w.out, k);
    got <= TextOf(w.buf, k) &&
    (got != "" ==> NoFirst(w.live, k)) &&
    if Wholes(w.out, k) == [] then
      CountAt(w.streamed, k) == |got| && !t.done && (t.sent == |got| || (t.sent == 0 && NoFirst(w.live, k)))
    else t.done || (t.sent == 0 && NoFirst(w.live, k))
  }

  predicate Inv(w: World, k: Key) {
    LivePieces(w.live, k, TextOf(w.buf, k)) && LoggedOnce(w, k) && Tracked(w, k) && Once(w.out, k) &&
    forall e :: e in w.log ==> !e.delta
  }

  /** When the event that ends a turn is taken, no first delta of a message that the reader has
      whole is still on its way. */
  predicate Calm(w: World, step: Step) {
    step.TakeLog? && w.log != [] && EndsTurn(w.log[0].kind) ==>
      forall e :: e in w.live && IsText(e.kind) && e.offset == 0 ==> Wholes(w.out, EventKey(e)) == []
  }

  lemma OutOne(out: seq<Event>, ev: Event, k: Key)
    ensures DeltaText(out + [ev], k) == DeltaText(out, k) + if DeltaOf(ev, k) then ev.content else ""
    ensures Wholes(out + [ev], k) == Wholes(out, k) + if WholeOf(ev, k) then [ev.content] else []
    ensures Once(out + [ev], k) <==>
      Once(out, k) && (DeltaOf(ev, k) ==> Wholes(out, k) == []) &&
      (WholeOf(ev, k) ==>
         Wholes(out, k) == [] && DeltaText(out, k) <= ev.content && ev.streamed == |DeltaText(out, k)|)
  {
    WholesAppend(out, [ev], k);
    WholesOne(ev, k);
    assert (out + [ev])[..|out|] == out;
  }

  lemma LogOne(log: seq<Event>, ev: Event, k: Key)
    ensures Wholes(log + [ev], k) == Wholes(log, k) + if WholeOf(ev, k) then [ev.content] else []
  {
    WholesAppend(log, [ev], k);
    WholesOne(ev, k);
  }

  lemma PiecesGrow(live: seq<Event>, k: Key, text: Bytes, more: Bytes)
    requires LivePieces(live, k, text)
    ensures LivePieces(live, k, text + more)
  {
    forall e | e in live && DeltaOf(e, k)
      ensures e.offset + |e.content| <= |text + more| && (text + more)[e.offset..e.offset + |e.content|] == e.content
    {
      assert (text + more)[e.offset..e.offset + |e.content|] == text[e.offset..e.offset + |e.content|];
    }
  }

  lemma PiecesAdd(live: seq<Event>, k: Key, text: Bytes, ev: Event)
    requires LivePieces(live, k, text) && DeltaOf(ev, k) && ev.content != "" && ev.offset == |text|
    ensures LivePieces(live + [ev], k, text + ev.content)
  {
    PiecesGrow(live, k, text, ev.content);
    assert (text + ev.content)[ev.offset..ev.offset + |ev.content|] == ev.content;
    forall i | 0 <= i < |live| && DeltaOf(live[i], k) ensures live[i].offset < ev.offset { assert live[i] in live; }
  }

  lemma PiecesOther(live: seq<Event>, k: Key, text: Bytes, ev: Event)
    requires LivePieces(live, k, text) && !DeltaOf(ev, k) && ev.delta && IsText(ev.kind)
    ensures LivePieces(live + [ev], k, text)
  {
  }

  /** A delta of k is written. */
  lemma WriteDelta(w: World, c: Chunk, heard: bool, k: Key)
    requires Inv(w, k) && IsDelta(c) && Proper(w, c) && KeyOf(c) == k
    ensures Inv(WriteChunk(w, c, heard), k)
  {
    hide Once, DeltaText, Wholes;
    var text := TextOf(w.buf, k);
    var ev := EventOf(w.buf, c).value;
    assert DeltaOf(ev, k) && ev.offset == |text| && ev.content == c.content;
    PiecesGrow(w.live, k, text, c.content);
    PiecesAdd(w.live, k, text, ev);
    var next := WriteChunk(w, c, heard);
    assert TextOf(next.buf, k) == text + c.content;
    assert next.live == w.live || next.live == w.live + [ev];
    assert DeltaText(w.out, k) <= text + c.content;
    assert Wholes(w.out, k) + Wholes(w.log, k) == [];
  }

  /** A message is completed. */
  lemma WriteWhole(w: World, c: Chunk, heard: bool, k: Key)
    requires Inv(w, k) && IsText(c.kind) && c.isComplete && Proper(w, c)
    ensures Inv(WriteChunk(w, c, heard), k)
  {
    hide Once, DeltaText, Wholes, LivePieces, Tracked, CompleteText;
    var ev := EventOf(w.buf, c).value;
    var next := WriteChunk(w, c, heard);
    assert next == w.(completed := w.completed[KeyOf(c) := CompleteText(w.buf, c)], log := w.log + [ev]);
    assert Tracked(next, k) by { TrackedSame(w, next, k); }
    assert LoggedOnce(next, k) by { LogWhole(w, c, ev, k); }
  }

  lemma TrackedSame(w: World, next: World, k: Key)
    requires Tracked(w, k) && next.texts == w.texts && next.out == w.out && next.live == w.live && next.streamed == w.streamed
    requires next.buf == w.buf
    ensures Tracked(next, k)
  {
    hide Wholes, DeltaText, NoFirst;
  }

  lemma LogWhole(w: World, c: Chunk, ev: Event, k: Key)
    requires LoggedOnce(w, k) && IsText(c.kind) && c.isComplete && Proper(w, c) && Some(ev) == EventOf(w.buf, c)
    ensures LoggedOnce(w.(completed := w.completed[KeyOf(c) := CompleteText(w.buf, c)], log := w.log + [ev]), k)
  {
    hide Wholes;
    LogOne(w.log, ev, k);
    if KeyOf(c) == k {
      assert Wholes(w.out, k) + Wholes(w.log, k) == [];
      assert Wholes(w.out, k) + (Wholes(w.log, k) + [ev.content]) == [ev.content];
    } else {
      assert Wholes(w.log, k) + [] == Wholes(w.log, k);
    }
  }

  lemma WriteKeeps(w: World, c: Chunk, heard: bool, k: Key)
    requires Inv(w, k) && Can(w, Write(c, heard)) && Proper(w, c)
    ensures Inv(WriteChunk(w, c, heard), k)
  {
    hide Inv, WriteChunk;
    if IsDelta(c) {
      if KeyOf(c) == k { WriteDelta(w, c, heard, k); } else { WriteOther(w, c, heard, k); }
    } else if IsText(c.kind) {
      WriteWhole(w, c, heard, k);
    } else {
      WriteEvent(w, c, heard, k);
    }
  }

  /** A delta of another message is written. */
  lemma WriteOther(w: World, c: Chunk, heard: bool, k: Key)
    requires Inv(w, k) && IsDelta(c) && !EndsTurn(c.kind) && KeyOf(c) != k
    ensures Inv(WriteChunk(w, c, heard), k)
  {
    hide Once, DeltaText, Wholes, LivePieces;
    PiecesOther(w.live, k, TextOf(w.buf, k), EventOf(w.buf, c).value);
  }

  /** A chunk that is no text. */
  lemma WriteEvent(w: World, c: Chunk, heard: bool, k: Key)
    requires Inv(w, k) && !IsText(c.kind)
    ensures Inv(WriteChunk(w, c, heard), k)
  {
    hide Once, DeltaText, Wholes, LivePieces;
    var ev := EventOf(w.buf, c);
    if ev.Some? {
      LogOne(w.log, ev.value, k);
      Empty(Wholes(w.log, k));
    }
  }

  lemma PiecesRest(live: seq<Event>, k: Key, text: Bytes)
    requires LivePieces(live, k, text) && live != []
    ensures LivePieces(live[1..], k, text) && (NoFirst(live, k) ==> NoFirst(live[1..], k))
    ensures DeltaOf(live[0], k) ==> NoFirst(live[1..], k)
  {
    assert forall e :: e in live[1..] ==> e in live;
    if DeltaOf(live[0], k) {
      forall e | e in live[1..] && DeltaOf(e, k) ensures e.offset > 0 {
        var j :| 0 <= j < |live[1..]| && live[1..][j] == e;
        assert live[0].offset < live[j + 1].offset;
      }
    }
  }

  lemma JoinPiece(text: Bytes, got: Bytes, piece: Bytes)
    requires got <= text && |got| + |piece| <= |text| && text[|got|..|got| + |piece|] == piece
    ensures got + piece <= text
  {
    assert text[..|got| + |piece|] == text[..|got|] + text[|got|..|got| + |piece|];
  }

  /** A delta of another message leaves what Merge and the follow know of k. */
  lemma NotesOther(w: World, ev: Event, k: Key)
    requires IsText(ev.kind) && ev.delta && EventKey(ev) != k
    ensures TextAt(Noted(w.texts, ev), k) == TextAt(w.texts, k) && CountAt(Counted(w.streamed, ev), k) == CountAt(w.streamed, k)
  {
  }

  /** A live event that is not of k changes nothing of k. */
  lemma OtherStep(w: World, k: Key)
    requires w.live != [] && !DeltaOf(w.live[0], k) && w.live[0].delta && IsText(w.live[0].kind)
    ensures var next := Next(w, TakeLive);
      next.live == w.live[1..] && next.log == w.log && next.buf == w.buf && next.completed == w.completed &&
      TextAt(next.texts, k) == TextAt(w.texts, k) && CountAt(next.streamed, k) == CountAt(w.streamed, k) &&
      DeltaText(next.out, k) == DeltaText(w.out, k) && Wholes(next.out, k) == Wholes(w.out, k) && (Once(next.out, k) <==> Once(w.out, k))
  {
    hide Once, DeltaText, Wholes, Noted, Counted, TextAt, CountAt;
    var ev := w.live[0];
    OutOne(w.out, ev, k);
    NotesOther(w, ev, k);
    assert Delivered(w.streamed, ev) == ev;
    assert Wholes(w.out, k) + [] == Wholes(w.out, k) && DeltaText(w.out, k) + "" == DeltaText(w.out, k);
  }

  lemma TakeLiveOther(w: World, k: Key)
    requires Inv(w, k) && w.live != [] && !DeltaOf(w.live[0], k)
    ensures Inv(Next(w, TakeLive), k)
  {
    hide Once, DeltaText, Wholes, LivePieces, NoFirst, Next, TextAt, CountAt;
    LiveFirst(w.live, k, TextOf(w.buf, k));
    PiecesRest(w.live, k, TextOf(w.buf, k));
    OtherStep(w, k);
  }

  /** A delta of k that Merge drops. */
  lemma TakeLiveDropped(w: World, k: Key)
    requires Inv(w, k) && w.live != [] && DeltaOf(w.live[0], k) && !Sends(w.texts, w.live[0])
    ensures Inv(Next(w, TakeLive), k)
  {
    hide Once, DeltaText, Wholes, LivePieces, NoFirst;
    PiecesRest(w.live, k, TextOf(w.buf, k));
  }

  /** A delta of k that Merge sends. */
  lemma TakeLiveSent(w: World, k: Key)
    requires Inv(w, k) && w.live != [] && DeltaOf(w.live[0], k) && Sends(w.texts, w.live[0])
    ensures Inv(Next(w, TakeLive), k)
  {
    hide Once, DeltaText, Wholes, LivePieces, NoFirst;
    var ev, got := w.live[0], DeltaText(w.out, k);
    LiveFirst(w.live, k, TextOf(w.buf, k));
    PiecesRest(w.live, k, TextOf(w.buf, k));
    OutOne(w.out, ev, k);
    assert Delivered(w.streamed, ev) == ev;
    assert Wholes(w.out, k) + [] == Wholes(w.out, k);
    assert Wholes(w.out, k) == [] by { FirstSent(w, ev, k); }
    assert |got| == ev.offset by { OffsetSent(w, ev, k); }
    JoinPiece(TextOf(w.buf, k), got, ev.content);
  }

  lemma TakeLiveKeeps(w: World, k: Key)
    requires Inv(w, k) && w.live != []
    ensures Inv(Next(w, TakeLive), k)
  {
    hide Inv, Next;
    if !DeltaOf(w.live[0], k) {
      TakeLiveOther(w, k);
    } else if Sends(w.texts, w.live[0]) {
      TakeLiveSent(w, k);
    } else {
      TakeLiveDropped(w, k);
    }
  }

  lemma LiveFirst(live: seq<Event>, k: Key, text: Bytes)
    requires LivePieces(live, k, text) && live != []
    ensures live[0].delta && IsText(live[0].kind)
    ensures DeltaOf(live[0], k) ==> var ev := live[0];
      ev.content != "" && ev.offset + |ev.content| <= |text| && text[ev.offset..ev.offset + |ev.content|] == ev.content
  {
    assert live[0] in live;
  }

  /** A delta that Merge sends comes before its message's complete event. */
  lemma FirstSent(w: World, ev: Event, k: Key)
    requires Tracked(w, k) && w.live != [] && ev == w.live[0] && DeltaOf(ev, k) && Sends(w.texts, ev)
    ensures Wholes(w.out, k) == []
  {
    assert ev in w.live;
  }

  lemma OffsetSent(w: World, ev: Event, k: Key)
    requires Tracked(w, k) && w.live != [] && ev == w.live[0] && DeltaOf(ev, k) && Sends(w.texts, ev)
    ensures |DeltaText(w.out, k)| == ev.offset
  {
    assert ev in w.live;
  }

  lemma LogRest(w: World, k: Key)
    requires w.log != [] && LoggedOnce(w, k)
    ensures Wholes(w.log, k) == (if WholeOf(w.log[0], k) then [w.log[0].content] else []) + Wholes(w.log[1..], k)
    ensures WholeOf(w.log[0], k) ==>
      Wholes(w.out, k) == [] && Wholes(w.log[1..], k) == [] && k in w.completed && w.completed[k] == w.log[0].content
  {
    if WholeOf(w.log[0], k) {
      var all := Wholes(w.out, k) + ([w.log[0].content] + Wholes(w.log[1..], k));
      assert |all| <= 1;
      assert all[0] == w.log[0].content by { assert Wholes(w.out, k) == []; }
    }
  }

  /** The complete event of k. */
  lemma TakeWhole(w: World, k: Key)
    requires Inv(w, k) && w.log != [] && WholeOf(w.log[0], k)
    ensures Inv(Next(w, TakeLog), k)
  {
    hide Once, DeltaText, Wholes, LivePieces, NoFirst, TextAt, CountAt, TextOf, Next;
    var got, content := DeltaText(w.out, k), w.log[0].content;
    LogRest(w, k);
    assert got <= content by { assert TextOf(w.buf, k) == "" ==> got == ""; }
    WholeStep(w, k);
    OutOne(w.out, w.log[0].(streamed := |got|), k);
    Empty(got);
    Empty([content]);
    assert forall e :: e in w.log[1..] ==> e in w.log;
  }

  lemma WholeStep(w: World, k: Key)
    requires w.log != [] && WholeOf(w.log[0], k) && !TextAt(w.texts, k).done && CountAt(w.streamed, k) <= |w.log[0].content|
    ensures var next := Next(w, TakeLog);
      next.log == w.log[1..] && next.live == w.live && next.buf == w.buf && next.completed == w.completed &&
      TextAt(next.texts, k).done && next.out == w.out + [w.log[0].(streamed := CountAt(w.streamed, k))]
  {
  }

  /** The end of a turn. */
  lemma TakeEnd(w: World, k: Key)
    requires Inv(w, k) && w.log != [] && EndsTurn(w.log[0].kind) && Calm(w, TakeLog)
    ensures Inv(Next(w, TakeLog), k)
  {
    hide Once, DeltaText, Wholes, LivePieces;
    var ev := w.log[0];
    LogRest(w, k);
    OutOne(w.out, ev, k);
    assert Delivered(w.streamed, ev) == ev;
    assert [] + Wholes(w.log[1..], k) == Wholes(w.log[1..], k);
    assert Wholes(w.out, k) + [] == Wholes(w.out, k) && DeltaText(w.out, k) + "" == DeltaText(w.out, k);
    assert forall e :: e in w.log[1..] ==> e in w.log;
  }

  /** Any other event of the log. */
  lemma TakeOther(w: World, k: Key)
    requires Inv(w, k) && w.log != [] && !EndsTurn(w.log[0].kind) && !WholeOf(w.log[0], k)
    ensures Inv(Next(w, TakeLog), k)
  {
    hide Once, DeltaText, Wholes, LivePieces, NoFirst, TextAt, CountAt, TextOf, Next;
    assert w.log[0] in w.log;
    OtherLog(w, k);
    assert forall e :: e in w.log[1..] ==> e in w.log;
  }

  /** An event of the log that is not of k, and ends no turn, changes nothing of k. */
  lemma OtherLog(w: World, k: Key)
    requires w.log != [] && !w.log[0].delta && !EndsTurn(w.log[0].kind) && !WholeOf(w.log[0], k)
    ensures var next := Next(w, TakeLog);
      next.live == w.live && next.log == w.log[1..] && next.buf == w.buf && next.completed == w.completed &&
      TextAt(next.texts, k) == TextAt(w.texts, k) && CountAt(next.streamed, k) == CountAt(w.streamed, k) &&
      DeltaText(next.out, k) == DeltaText(w.out, k) && Wholes(next.out, k) == Wholes(w.out, k) &&
      (Once(next.out, k) <==> Once(w.out, k)) && Wholes(next.log, k) == Wholes(w.log, k)
  {
    hide Once, DeltaText, Wholes, Min;
    var ev := Delivered(w.streamed, w.log[0]);
    OutOne(w.out, ev, k);
    WholesFirst(w.log, k);
    Empty(Wholes(w.log[1..], k));
    Empty(Wholes(w.out, k));
    Empty(DeltaText(w.out, k));
  }

  lemma WholesFirst(evs: seq<Event>, k: Key)
    requires evs != []
    ensures Wholes(evs, k) == (if WholeOf(evs[0], k) then [evs[0].content] else []) + Wholes(evs[1..], k)
  {
  }

  lemma TakeLogKeeps(w: World, k: Key)
    requires Inv(w, k) && w.log != [] && Calm(w, TakeLog)
    ensures Inv(Next(w, TakeLog), k)
  {
    hide Inv;
    if EndsTurn(w.log[0].kind) {
      TakeEnd(w, k);
    } else if WholeOf(w.log[0], k) {
      TakeWhole(w, k);
    } else {
      TakeOther(w, k);
    }
  }

  lemma EndKeeps(w: World, kind: Type, k: Key)
    requires Inv(w, k) && EndsTurn(kind)
    ensures Inv(Next(w, End(kind)), k)
  {
    hide Once, DeltaText, Wholes, LivePieces, NoFirst;
    LogOne(w.log, Event(kind, "", false, 0, "", 0), k);
    assert Wholes(w.log, k) + [] == Wholes(w.log, k);
  }

  lemma StepKeeps(w: World, step: Step, k: Key)
    requires Inv(w, k) && Can(w, step) && Calm(w, step) && (step.Write? ==> Proper(w, step.c))
    ensures Inv(Next(w, step), k)
  {
    hide Inv;
    match step {
      case Write(c, heard) => WriteKeeps(w, c, heard, k);
      case End(kind) => EndKeeps(w, kind, k);
      case TakeLive => TakeLiveKeeps(w, k);
      case TakeLog => TakeLogKeeps(w, k);
    }
  }

  // ---------------------------------------------------------------------------------------------
  // Over whole runs
  // ---------------------------------------------------------------------------------------------

  function Run(steps: seq<Step>): World {
    if steps == [] then START else Next(Run(steps[..|steps| - 1]), steps[|steps| - 1])
  }

  /** Every step can happen, every chunk is proper, and every turn ends calmly. */
  predicate Runs(steps: seq<Step>) {
    steps == [] ||
    (var before, step := steps[..|steps| - 1], steps[|steps| - 1];
     Runs(before) && Can(Run(before), step) && Calm(Run(before), step) &&
     (step.Write? ==> Proper(Run(before), step.c)))
  }

  lemma {:induction false} RunKeeps(steps: seq<Step>, k: Key)
    requires Runs(steps)
    ensures Inv(Run(steps), k)
    decreases |steps|
  {
    if steps == [] {
      assert Inv(START, k);
    } else {
      hide Inv, Next, Can, Calm, Proper;
      RunKeeps(steps[..|steps| - 1], k);
      StepKeeps(Run(steps[..|steps| - 1]), steps[|steps| - 1], k);
    }
  }

  /** The whole text of a message, once it is complete; until then, what was written of it. */
  function FullText(w: World, k: Key): Bytes {
    if k in w.completed then w.completed[k] else TextOf(w.buf, k)
  }

  /** What Once says of a complete event: what streamed before it, and its rest, are its content. */
  lemma {:induction false} OnceMeans(out: seq<Event>, k: Key, i: nat)
    requires Once(out, k) && i < |out| && WholeOf(out[i], k)
    ensures out[i].streamed <= |out[i].content|
    ensures DeltaText(out, k) + out[i].content[out[i].streamed..] == out[i].content
    ensures forall j :: i < j < |out| ==> !DeltaOf(out[j], k)
    ensures Wholes(out, k) != []
    decreases |out|
  {
    var before, ev := out[..|out| - 1], out[|out| - 1];
    assert out == before + [ev];
    OutOne(before, ev, k);
    if i == |out| - 1 {
      assert DeltaText(out, k) + "" == DeltaText(out, k);
    } else {
      OnceMeans(before, k, i);
      assert DeltaText(before, k) + "" == DeltaText(before, k);
    }
  }

  /** Main result: in every run, with any loss and any interleaving, the deltas a reader gets of a
      message join to a prefix of its full text; none follows its complete event, which comes at
      most once and carries the full text; and that prefix and `content[streamed..]` are the text. */
  lemma ReadOnce(steps: seq<Step>, k: Key)
    requires Runs(steps)
    ensures var w := Run(steps);
      DeltaText(w.out, k) <= FullText(w, k) && |Wholes(w.out, k)| <= 1 &&
      forall i :: 0 <= i < |w.out| && WholeOf(w.out[i], k) ==>
        w.out[i].content == FullText(w, k) && w.out[i].streamed <= |w.out[i].content| &&
        DeltaText(w.out, k) + w.out[i].content[w.out[i].streamed..] == FullText(w, k) &&
        forall j :: i < j < |w.out| ==> !DeltaOf(w.out[j], k)
  {
    hide Once, DeltaText, Wholes, LivePieces, NoFirst;
    RunKeeps(steps, k);
    var w := Run(steps);
    assert |Wholes(w.out, k)| <= |Wholes(w.out, k) + Wholes(w.log, k)| <= 1;
    assert DeltaText(w.out, k) <= FullText(w, k) by {
      assert TextOf(w.buf, k) == "" ==> DeltaText(w.out, k) == "";
    }
    forall i | 0 <= i < |w.out| && WholeOf(w.out[i], k)
      ensures w.out[i].content == FullText(w, k) && w.out[i].streamed <= |w.out[i].content|
      ensures DeltaText(w.out, k) + w.out[i].content[w.out[i].streamed..] == w.out[i].content
      ensures forall j :: i < j < |w.out| ==> !DeltaOf(w.out[j], k)
    {
      OnceMeans(w.out, k, i);
      WholeContent(w.out, k, i);
      assert w.out[i].content in Wholes(w.out, k) + Wholes(w.log, k);
    }
  }

  lemma {:induction false} WholeContent(out: seq<Event>, k: Key, i: nat)
    requires i < |out| && WholeOf(out[i], k)
    ensures out[i].content in Wholes(out, k)
  {
    if i > 0 { WholeContent(out[1..], k, i - 1); }
  }

  // ---------------------------------------------------------------------------------------------
  // The end of a turn
  // ---------------------------------------------------------------------------------------------

  /** The reader takes all that is live. */
  function Drain(w: World): World
    decreases |w.live|
  {
    if w.live == [] then w else Drain(Next(w, TakeLive))
  }

  lemma {:induction false} DrainKeeps(w: World, k: Key)
    requires Inv(w, k)
    ensures Inv(Drain(w), k)
    decreases |w.live|
  {
    hide Inv;
    if w.live != [] {
      TakeLiveKeeps(w, k);
      DrainKeeps(Next(w, TakeLive), k);
    }
  }

  lemma DrainStep(w: World)
    ensures Drain(w) == if w.live == [] then w else Drain(Next(w, TakeLive))
    ensures w.live != [] ==> |Next(w, TakeLive).live| < |w.live|
  {
    hide Sends, Noted, Counted, Delivered;
  }

  lemma TakenGrows(w: World, k: Key)
    requires !Once(w.out, k) && w.live != []
    ensures !Once(Next(w, TakeLive).out, k)
  {
    hide Once, Sends, Noted, Counted;
    OutOne(w.out, Delivered(w.streamed, w.live[0]), k);
  }

  /** Merge sends the first delta of a message again after it forgot it. */
  lemma LateSent(w: World, k: Key)
    requires w.live != [] && DeltaOf(w.live[0], k) && w.live[0].offset == 0
    requires TextAt(w.texts, k) == Text(0, false) && Wholes(w.out, k) != []
    ensures !Once(Next(w, TakeLive).out, k)
  {
    hide Once, Wholes, Noted, Counted;
    OutOne(w.out, Delivered(w.streamed, w.live[0]), k);
    assert Sends(w.texts, w.live[0]);
  }

  lemma {:induction false} DrainGrows(w: World, k: Key)
    requires !Once(w.out, k)
    ensures !Once(Drain(w).out, k)
    decreases |w.live|
  {
    hide Once, Next, Drain;
    DrainStep(w);
    if w.live != [] {
      TakenGrows(w, k);
      DrainGrows(Next(w, TakeLive), k);
    }
  }

  /** A first delta that comes after its message's complete event and the turn's end is sent. */
  lemma {:induction false} LateFirst(w: World, k: Key, i: nat)
    requires TextAt(w.texts, k) == Text(0, false) && Wholes(w.out, k) != []
    requires forall j :: 0 <= j < |w.live| ==> IsText(w.live[j].kind) && w.live[j].delta
    requires i < |w.live| && DeltaOf(w.live[i], k) && w.live[i].offset == 0
    requires forall j :: 0 <= j < i ==> !DeltaOf(w.live[j], k)
    ensures !Once(Drain(w).out, k)
    decreases i
  {
    hide Once, Wholes, Next, Drain, TextAt;
    DrainStep(w);
    if i == 0 {
      LateSent(w, k);
      DrainGrows(Next(w, TakeLive), k);
    } else {
      assert !DeltaOf(w.live[0], k);
      OtherStep(w, k);
      LateFirst(Next(w, TakeLive), k, i - 1);
    }
  }

  /** The reader takes all of the log. */
  function DrainLog(w: World): World
    decreases |w.log|
  {
    if w.log == [] then w else DrainLog(Next(w, TakeLog))
  }

  /** Merge takes an event, and the follow delivers it when it is sent. */
  method TakeOne(ghost w: World, m: Merger, f: Follow, ev: Event) returns (sent: Option<Event>)
    requires m.texts == w.texts && f.streamed == w.streamed
    modifies m, f
    ensures m.texts == Take(w, ev).texts && f.streamed == Take(w, ev).streamed
    ensures Take(w, ev).out == w.out + if sent.Some? then [sent.value] else []
  {
    var ok := m.Sendable(ev);
    if !ok {
      return None;
    }
    var delivered := f.NoteStreamed(ev);
    sent := Some(delivered);
  }

  /** The reader's loop over what is there: live deltas go first. */
  method ReadAll(ghost w: World, m: Merger, f: Follow, live: seq<Event>, log: seq<Event>) returns (out: seq<Event>)
    requires m.texts == w.texts && f.streamed == w.streamed && w.live == live && w.log == log
    modifies m, f
    ensures w.out + out == DrainLog(Drain(w)).out
    ensures m.texts == DrainLog(Drain(w)).texts && f.streamed == DrainLog(Drain(w)).streamed
  {
    hide Take;
    ghost var now := w;
    out := [];
    var left := live;
    while left != []
      invariant now.live == left && now.log == log && Drain(now) == Drain(w)
      invariant m.texts == now.texts && f.streamed == now.streamed && w.out + out == now.out
      decreases |left|
    {
      ghost var rest := now.(live := left[1..]);
      TakesQueues(rest, left[0]);
      var sent := TakeOne(rest, m, f, left[0]);
      out := out + if sent.Some? then [sent.value] else [];
      now, left := Take(rest, left[0]), left[1..];
    }
    left := log;
    while left != []
      invariant now.live == [] && now.log == left && DrainLog(now) == DrainLog(Drain(w))
      invariant m.texts == now.texts && f.streamed == now.streamed && w.out + out == now.out
      decreases |left|
    {
      ghost var rest := now.(log := left[1..]);
      TakesQueues(rest, left[0]);
      var sent := TakeOne(rest, m, f, left[0]);
      out := out + if sent.Some? then [sent.value] else [];
      now, left := Take(rest, left[0]), left[1..];
    }
  }

  lemma TakesQueues(w: World, ev: Event)
    ensures Take(w, ev).live == w.live && Take(w, ev).log == w.log
  {
  }

  /** When a turn's last event is taken, what is live afterwards reaches the reader without a repeat
      if and only if no first delta of a message it already has whole is among it. */
  lemma TurnEndsOnce(w: World)
    requires forall k :: Inv(w, k)
    requires w.log != [] && EndsTurn(w.log[0].kind)
    ensures Calm(w, TakeLog) <==> forall k :: Once(Drain(Next(w, TakeLog)).out, k)
  {
    if Calm(w, TakeLog) {
      forall k ensures Once(Drain(Next(w, TakeLog)).out, k) {
        TakeEnd(w, k);
        DrainKeeps(Next(w, TakeLog), k);
      }
    } else {
      var e :| e in w.live && IsText(e.kind) && e.offset == 0 && Wholes(w.out, EventKey(e)) != [];
      Repeats(w, e);
    }
  }

  lemma Repeats(w: World, e: Event)
    requires Inv(w, EventKey(e)) && w.log != [] && EndsTurn(w.log[0].kind)
    requires e in w.live && IsText(e.kind) && e.offset == 0 && Wholes(w.out, EventKey(e)) != []
    ensures !Once(Drain(Next(w, TakeLog)).out, EventKey(e))
  {
    hide Once, Wholes, DeltaText;
    var k := EventKey(e);
    var i :| 0 <= i < |w.live| && w.live[i] == e;
    forall j | 0 <= j < |w.live| ensures IsText(w.live[j].kind) && w.live[j].delta { assert w.live[j] in w.live; }
    forall j | 0 <= j < i ensures !DeltaOf(w.live[j], k) { assert w.live[j].offset >= 0; }
    var next := Next(w, TakeLog);
    OutOne(w.out, Delivered(w.streamed, w.log[0]), k);
    assert next.live == w.live && next.texts == map[];
    LateFirst(next, k, i);
  }

  // ---------------------------------------------------------------------------------------------
  // Which text chunks keep one complete event a message
  // ---------------------------------------------------------------------------------------------

  /** A piece that comes after its message's end and is all of its text, of which nothing streamed. */
  predicate LateWhole(w: World, c: Chunk) {
    IsDelta(c) && KeyOf(c) in w.completed && TextOf(w.buf, KeyOf(c)) == "" && c.content == w.completed[KeyOf(c)]
  }

  /** A text chunk keeps its message at one logged complete event, of its whole text, if and only if it
      is proper, or is all of that text again. So an empty chunk that completes nothing never does, nor
      does a second end, nor a piece after the end of a message that streamed. */
  lemma ChunkExactly(w: World, c: Chunk, heard: bool)
    requires Inv(w, KeyOf(c)) && IsText(c.kind)
    ensures LoggedOnce(WriteChunk(w, c, heard), KeyOf(c)) <==> Proper(w, c) || LateWhole(w, c)
    ensures !c.isComplete && c.content == "" ==> !LoggedOnce(WriteChunk(w, c, heard), KeyOf(c))
    ensures KeyOf(c) in w.completed && (c.isComplete || TextOf(w.buf, KeyOf(c)) != "") ==>
              !LoggedOnce(WriteChunk(w, c, heard), KeyOf(c))
  {
    hide Wholes, Once, LivePieces, Tracked;
    var k := KeyOf(c);
    var ev := EventOf(w.buf, c).value;
    if IsDelta(c) {
      assert TextOf(WriteChunk(w, c, heard).buf, k) == TextOf(w.buf, k) + c.content;
      assert TextOf(w.buf, k) == "" ==> TextOf(w.buf, k) + c.content == c.content;
      assert |TextOf(w.buf, k) + c.content| > |TextOf(w.buf, k)|;
    } else {
      LogOne(w.log, ev, k);
      assert Wholes(w.out, k) + (Wholes(w.log, k) + [ev.content]) == Wholes(w.out, k) + Wholes(w.log, k) + [ev.content];
    }
  }

  lemma {:induction false} DrainLogWholes(w: World, k: Key)
    requires forall e :: e in w.log ==> !e.delta
    ensures Wholes(DrainLog(w).out, k) == Wholes(w.out, k) + Wholes(w.log, k)
    decreases |w.log|
  {
    hide Wholes;
    if w.log != [] {
      var ev, next := w.log[0], Next(w, TakeLog);
      assert ev in w.log && forall e :: e in w.log[1..] ==> e in w.log;
      DrainLogWholes(next, k);
      TakeLogWholes(w, k);
    } else {
      WholesNone(w.out, k);
    }
  }

  lemma TakeLogWholes(w: World, k: Key)
    requires w.log != [] && !w.log[0].delta
    ensures Wholes(Next(w, TakeLog).out, k) + Wholes(w.log[1..], k) == Wholes(w.out, k) + Wholes(w.log, k)
    ensures Next(w, TakeLog).log == w.log[1..]
  {
    hide Wholes, Once, Noted, Counted, DeltaText;
    var ev := w.log[0];
    OutOne(w.out, Delivered(w.streamed, ev), k);
    WholesOne(ev, k);
    WholesAppend([ev], w.log[1..], k);
    assert w.log == [ev] + w.log[1..];
    assert Wholes([Delivered(w.streamed, ev)], k) == Wholes([ev], k) by { WholesOne(Delivered(w.streamed, ev), k); }
    assert Wholes(w.out, k) + Wholes([ev], k) + Wholes(w.log[1..], k) == Wholes(w.out, k) + (Wholes([ev], k) + Wholes(w.log[1..], k));
  }

  lemma WholesNone(out: seq<Event>, k: Key)
    ensures Wholes(out, k) + Wholes([], k) == Wholes(out, k)
  {
  }

  lemma {:induction false} OnceAtMost(out: seq<Event>, k: Key)
    requires Once(out, k)
    ensures |Wholes(out, k)| <= 1
    decreases |out|
  {
    if out != [] {
      var before, ev := out[..|out| - 1], out[|out| - 1];
      assert out == before + [ev];
      OutOne(before, ev, k);
      OnceAtMost(before, k);
    }
  }

  /** A text chunk that is no piece and not proper gives the reader a message twice: as soon as the
      message is complete and the reader takes the log. */
  lemma ImproperRepeats(w: World, c: Chunk, last: Chunk, heard: bool)
    requires Inv(w, KeyOf(c)) && IsText(c.kind) && !IsDelta(c) && !Proper(w, c)
    requires KeyOf(last) == KeyOf(c) && last.isComplete
    ensures var next := WriteChunk(w, c, heard);
      var done := if KeyOf(c) in w.completed then next else WriteChunk(next, last, heard);
      !Once(DrainLog(done).out, KeyOf(c))
  {
    hide Wholes, Once, LivePieces, Tracked;
    var k := KeyOf(c);
    var next := WriteChunk(w, c, heard);
    LogOne(w.log, EventOf(w.buf, c).value, k);
    var done := next;
    if k !in w.completed {
      done := WriteChunk(next, last, heard);
      LogOne(next.log, EventOf(next.buf, last).value, k);
    }
    DrainLogWholes(done, k);
    assert |Wholes(done.out, k) + Wholes(done.log, k)| > 1;
    if Once(DrainLog(done).out, k) { OnceAtMost(DrainLog(done).out, k); }
  }
}
