/** Exactly which events Merge sends, told by what the reader already has (session/live.go, Merge,
    sendable): in every run, with any loss and any interleaving. */
module MergeExact {
  import opened Messages
  import opened Sequences
  import opened Streaming
  import opened ExactlyOnce

  /** The events since the last one that ended a turn. */
  function ThisTurn(out: seq<Event>): seq<Event> {
    if out == [] then []
    else
      var before, ev := out[..|out| - 1], out[|out| - 1];
      if EndsTurn(ev.kind) then [] else ThisTurn(before) + [ev]
  }

  /** A delta starts where the text of its message ends that the reader got this turn, and no complete
      event of the message came this turn. */
  predicate Continues(out: seq<Event>, ev: Event) {
    var now, k := ThisTurn(out), EventKey(ev);
    Wholes(now, k) == [] && ev.offset == |DeltaText(now, k)|
  }

  // ---------------------------------------------------------------------------------------------
  // What Merge knows of a message is what the reader got of it this turn
  // ---------------------------------------------------------------------------------------------

  predicate Knows(w: World, k: Key) {
    var t, now := TextAt(w.texts, k), ThisTurn(w.out);
    t.sent == |DeltaText(now, k)| && (t.done <==> Wholes(now, k) != [])
  }

  predicate Queued(w: World) {
    (forall e :: e in w.live ==> IsText(e.kind) && e.delta) && forall e :: e in w.log ==> !e.delta
  }

  lemma TurnOne(out: seq<Event>, ev: Event, k: Key)
    ensures ThisTurn(out + [ev]) == if EndsTurn(ev.kind) then [] else ThisTurn(out) + [ev]
    ensures !EndsTurn(ev.kind) ==>
      DeltaText(ThisTurn(out + [ev]), k) == DeltaText(ThisTurn(out), k) + (if DeltaOf(ev, k) then ev.content else "") &&
      Wholes(ThisTurn(out + [ev]), k) == Wholes(ThisTurn(out), k) + if WholeOf(ev, k) then [ev.content] else []
    ensures EndsTurn(ev.kind) ==> DeltaText(ThisTurn(out + [ev]), k) == "" && Wholes(ThisTurn(out + [ev]), k) == []
  {
    hide DeltaText, Wholes, Once;
    assert (out + [ev])[..|out|] == out;
    OutOne(ThisTurn(out), ev, k);
    NothingYet(k);
  }

  lemma NothingYet(k: Key)
    ensures DeltaText([], k) == "" && Wholes([], k) == []
  {
  }

  lemma DeliveredSame(streamed: map<Key, nat>, ev: Event)
    ensures var e := Delivered(streamed, ev); e == ev.(streamed := e.streamed)
    ensures ev.delta ==> Delivered(streamed, ev) == ev
  {
  }

  lemma TakeKnows(w: World, ev: Event, k: Key)
    requires Knows(w, k)
    ensures Knows(Take(w, ev), k)
  {
    hide DeltaText, Wholes, ThisTurn, Delivered, Counted;
    DeliveredSame(w.streamed, ev);
    TurnOne(w.out, Delivered(w.streamed, ev), k);
  }

  lemma NextKnows(w: World, step: Step, k: Key)
    requires Knows(w, k)
    ensures Knows(Next(w, step), k)
  {
    hide DeltaText, Wholes, ThisTurn, Take;
    match step {
      case TakeLive => if w.live != [] { TakeKnows(w.(live := w.live[1..]), w.live[0], k); }
      case TakeLog => if w.log != [] { TakeKnows(w.(log := w.log[1..]), w.log[0], k); }
      case _ =>
    }
  }

  lemma NextQueued(w: World, step: Step)
    requires Queued(w)
    ensures Queued(Next(w, step))
  {
    hide Sends, Noted, Counted, Delivered;
    if step == TakeLive && w.live != [] { assert forall e :: e in w.live[1..] ==> e in w.live; }
    if step == TakeLog && w.log != [] { assert forall e :: e in w.log[1..] ==> e in w.log; }
  }

  lemma {:induction false} RunKnows(steps: seq<Step>, k: Key)
    ensures Knows(Run(steps), k) && Queued(Run(steps))
    decreases |steps|
  {
    if steps == [] {
    } else {
      hide Knows, Queued, Next;
      RunKnows(steps[..|steps| - 1], k);
      NextKnows(Run(steps[..|steps| - 1]), steps[|steps| - 1], k);
      NextQueued(Run(steps[..|steps| - 1]), steps[|steps| - 1]);
    }
  }

  /** Main result: in every run, the next live delta is sent, as it is, if and only if it continues
      what the reader got of its message this turn; and every event of the log is sent. */
  lemma TakenExactly(steps: seq<Step>)
    ensures var w := Run(steps);
      (w.live != [] ==>
         IsText(w.live[0].kind) && w.live[0].delta &&
         Next(w, TakeLive).out == w.out + if Continues(w.out, w.live[0]) then [w.live[0]] else []) &&
      (w.log != [] ==>
         var out := Next(w, TakeLog).out;
         |out| == |w.out| + 1 && out == w.out + [w.log[0].(streamed := out[|w.out|].streamed)])
  {
    hide DeltaText, Wholes, ThisTurn, Run, Noted, Counted, Delivered;
    var w := Run(steps);
    if w.live != [] {
      RunKnows(steps, EventKey(w.live[0]));
      assert w.live[0] in w.live;
      DeliveredSame(w.streamed, w.live[0]);
      Empty(w.out);
    }
    if w.log != [] {
      RunKnows(steps, EventKey(w.log[0]));
      assert w.log[0] in w.log;
      DeliveredSame(w.streamed, w.log[0]);
    }
  }

  // ---------------------------------------------------------------------------------------------
  // Without loss
  // ---------------------------------------------------------------------------------------------

  /** The reader hears every piece, with room in its channel. */
  predicate Lossless(steps: seq<Step>) {
    steps == [] ||
    (var before, step := steps[..|steps| - 1], steps[|steps| - 1];
     Lossless(before) && (step.Write? && IsDelta(step.c) ==> step.heard && |Run(before).live| < LIVE_BUFFER))
  }

  /** The live deltas of k follow each other from `at` on. */
  predicate Lined(live: seq<Event>, k: Key, at: nat) {
    live == [] ||
    if DeltaOf(live[0], k) then live[0].offset == at && Lined(live[1..], k, at + |live[0].content|)
    else Lined(live[1..], k, at)
  }

  /** The reader's text of k is all of this turn, and no complete event of k came. */
  predicate Open(out: seq<Event>, k: Key) {
    Wholes(out, k) == [] && DeltaText(ThisTurn(out), k) == DeltaText(out, k)
  }

  /** What is written of k is what the reader got and what is on its way. */
  predicate Whole(w: World, k: Key) {
    Open(w.out, k) ==>
      DeltaText(w.out, k) + DeltaText(w.live, k) == TextOf(w.buf, k) && Lined(w.live, k, |DeltaText(w.out, k)|)
  }

  lemma DeltaOne(ev: Event, k: Key)
    ensures DeltaText([ev], k) == if DeltaOf(ev, k) then ev.content else ""
  {
    assert [ev][..0] == [];
  }

  lemma {:induction false} DeltaAppend(a: seq<Event>, b: seq<Event>, k: Key)
    ensures DeltaText(a + b, k) == DeltaText(a, k) + DeltaText(b, k)
    decreases |b|
  {
    if b == [] {
      Empty(a);
      Empty(DeltaText(a, k));
    } else {
      var init, ev := b[..|b| - 1], b[|b| - 1];
      assert (a + b)[..|a + b| - 1] == a + init;
      DeltaAppend(a, init, k);
      Assoc(DeltaText(a, k), DeltaText(init, k), if DeltaOf(ev, k) then ev.content else "");
    }
  }

  lemma DeltaFirst(live: seq<Event>, k: Key)
    requires live != []
    ensures DeltaText(live, k) == (if DeltaOf(live[0], k) then live[0].content else "") + DeltaText(live[1..], k)
  {
    hide DeltaText;
    assert live == [live[0]] + live[1..];
    DeltaAppend([live[0]], live[1..], k);
    DeltaOne(live[0], k);
  }

  lemma {:induction false} LinedLast(live: seq<Event>, ev: Event, k: Key, at: nat)
    requires Lined(live, k, at) && (DeltaOf(ev, k) ==> ev.offset == at + |DeltaText(live, k)|)
    ensures Lined(live + [ev], k, at)
    decreases |live|
  {
    hide DeltaText;
    if live == [] {
      NothingYet(k);
      assert live + [ev] == [ev] && [ev][1..] == [];
    } else {
      Uncons(live, [ev]);
      DeltaFirst(live, k);
      LinedLast(live[1..], ev, k, if DeltaOf(live[0], k) then at + |live[0].content| else at);
    }
  }

  /** What came this turn is part of all that came. */
  lemma {:induction false} TurnIsPart(out: seq<Event>, k: Key)
    ensures |DeltaText(ThisTurn(out), k)| <= |DeltaText(out, k)|
    ensures |DeltaText(ThisTurn(out), k)| == |DeltaText(out, k)| ==> DeltaText(ThisTurn(out), k) == DeltaText(out, k)
    ensures Wholes(out, k) == [] ==> Wholes(ThisTurn(out), k) == []
    decreases |out|
  {
    if out != [] {
      hide DeltaText, Wholes, ThisTurn, Once;
      var init, ev := out[..|out| - 1], out[|out| - 1];
      Snoc(out);
      TurnIsPart(init, k);
      TurnOne(init, ev, k);
      OutOne(init, ev, k);
    } else {
      NothingYet(k);
    }
  }

  /** A message that is open after an event was open before it. */
  lemma OpenBefore(out: seq<Event>, ev: Event, k: Key)
    requires Open(out + [ev], k)
    ensures Open(out, k) && !WholeOf(ev, k)
    ensures DeltaText(out + [ev], k) == DeltaText(out, k) + if DeltaOf(ev, k) then ev.content else ""
  {
    hide DeltaText, Wholes, ThisTurn, Once;
    TurnOne(out, ev, k);
    OutOne(out, ev, k);
    TurnIsPart(out, k);
    if !EndsTurn(ev.kind) {
      SameEnd(DeltaText(ThisTurn(out), k), DeltaText(out, k), if DeltaOf(ev, k) then ev.content else "");
    }
  }

  lemma SameEnd(a: Bytes, b: Bytes, c: Bytes)
    requires a + c == b + c
    ensures a == b
  {
    assert |a| == |b| && a == (a + c)[..|a|] && b == (b + c)[..|b|];
  }

  /** Of a message whose complete event did not come, a live delta that starts where the reader's text
      ends is sent if and only if that text is all of this turn. */
  lemma NextIsSent(steps: seq<Step>, k: Key)
    requires var w := Run(steps);
      w.live != [] && DeltaOf(w.live[0], k) && Wholes(w.out, k) == [] && w.live[0].offset == |DeltaText(w.out, k)|
    ensures var w := Run(steps);
      Next(w, TakeLive).out == w.out + if Open(w.out, k) then [w.live[0]] else []
  {
    hide DeltaText, Wholes, ThisTurn, Run, Next;
    TakenExactly(steps);
    TurnIsPart(Run(steps).out, k);
  }

  const CUT_KEY := Key(MessageText, "m")

  function Piece(text: Bytes): Chunk {
    Chunk(MessageText, "m", text, false, [], "", 0, false)
  }

  const CUT_START := [Write(Piece("He"), true), TakeLive, Write(Piece("llo"), true)]
  const CUT_RUN := CUT_START + [End(TurnError), TakeLog, TakeLive]

  function Delta(offset: nat, text: Bytes): Event {
    Event(MessageText, "m", true, offset, text, 0)
  }

  lemma RunOne(steps: seq<Step>, step: Step)
    ensures Run(steps + [step]) == Next(Run(steps), step)
    ensures Lossless(steps + [step]) <==>
      Lossless(steps) && (step.Write? && IsDelta(step.c) ==> step.heard && |Run(steps).live| < LIVE_BUFFER)
    ensures Runs(steps + [step]) <==>
      Runs(steps) && Can(Run(steps), step) && Calm(Run(steps), step) && (step.Write? ==> Proper(Run(steps), step.c))
  {
    assert (steps + [step])[..|steps|] == steps;
  }

  const HE_SENT := World(map[CUT_KEY := "He"], map[], [Delta(0, "He")], [], map[], map[], [])
  const HE_READ := World(map[CUT_KEY := "He"], map[], [], [], map[CUT_KEY := Text(2, false)], map[CUT_KEY := 2], [Delta(0, "He")])

  lemma CutHe()
    ensures IsDelta(Piece("He")) && Proper(START, Piece("He")) && Can(START, Write(Piece("He"), true))
    ensures Next(START, Write(Piece("He"), true)) == HE_SENT
    ensures Next(HE_SENT, TakeLive) == HE_READ
  {
    assert "" + "He" == "He";
    var he := EventOf(map[], Piece("He"));
    assert he == Some(Delta(0, "He"));
    assert Offered([], Delta(0, "He")) == [Delta(0, "He")];
  }

  lemma CutLlo()
    ensures IsDelta(Piece("llo")) && Proper(HE_READ, Piece("llo")) && Can(HE_READ, Write(Piece("llo"), true))
    ensures Next(HE_READ, Write(Piece("llo"), true)) ==
      HE_READ.(buf := map[CUT_KEY := "Hello"], live := [Delta(2, "llo")])
  {
    assert "He" + "llo" == "Hello";
    var llo := EventOf(HE_READ.buf, Piece("llo"));
    assert llo == Some(Delta(2, "llo"));
    assert Offered([], Delta(2, "llo")) == [Delta(2, "llo")];
  }

  lemma CutStart()
    ensures Lossless(CUT_START) && Runs(CUT_START)
    ensures Run(CUT_START) == World(map[CUT_KEY := "Hello"], map[], [Delta(2, "llo")], [], map[CUT_KEY := Text(2, false)],
                                    map[CUT_KEY := 2], [Delta(0, "He")])
  {
    hide Run, Lossless, Runs, Next, Proper, Wholes;
    var he, llo := Write(Piece("He"), true), Write(Piece("llo"), true);
    assert CUT_START == [] + [he] + [TakeLive] + [llo];
    CutHe();
    CutLlo();
    RunNone();
    RunOne([], he);
    RunOne([] + [he], TakeLive);
    RunOne([] + [he] + [TakeLive], llo);
  }

  lemma RunNone()
    ensures Run([]) == START && Lossless([]) && Runs([])
  {
  }

  predicate IsCutStart(w: World) {
    w.buf == map[CUT_KEY := "Hello"] && w.live == [Delta(2, "llo")] && w.log == [] && w.out == [Delta(0, "He")]
  }

  lemma CutTail(w: World)
    requires IsCutStart(w)
    ensures var end := Next(Next(Next(w, End(TurnError)), TakeLog), TakeLive);
      end.buf == w.buf && end.live == [] && DeltaText(end.out, CUT_KEY) == "He" && Wholes(end.out, CUT_KEY) == []
  {
    hide DeltaText, Wholes, Once;
    var error := Event(TurnError, "", false, 0, "", 0);
    var w1 := Next(w, End(TurnError));
    assert w1.log == [error];
    var w2 := Next(w1, TakeLog);
    assert w2.texts == map[] && w2.live == [Delta(2, "llo")] && w2.out == [Delta(0, "He")] + [error];
    assert Next(w2, TakeLive).out == w2.out;
    NothingYet(CUT_KEY);
    Empty([Delta(0, "He")]);
    OutOne([], Delta(0, "He"), CUT_KEY);
    OutOne([Delta(0, "He")], error, CUT_KEY);
  }

  lemma CutCalm(w: World)
    requires IsCutStart(w)
    ensures var w1 := Next(w, End(TurnError));
      Can(w, End(TurnError)) && Can(w1, TakeLog) && Calm(w1, TakeLog) && Can(Next(w1, TakeLog), TakeLive)
  {
    hide Wholes, DeltaText, Noted, Counted, Delivered, Sends;
  }

  /** A turn that ends before all of a message's pieces are taken: "He" is read, the turn fails, and
      "llo" is never sent, though it was heard and starts where "He" ends. */
  lemma EndCuts()
    ensures Lossless(CUT_RUN) && Runs(CUT_RUN)
    ensures var w := Run(CUT_RUN);
      w.live == [] && Wholes(w.out, CUT_KEY) == [] && DeltaText(w.out, CUT_KEY) == "He" && TextOf(w.buf, CUT_KEY) == "Hello"
  {
    CutStart();
    var error := Event(TurnError, "", false, 0, "", 0);
    var w := Run(CUT_START);
    assert CUT_RUN == CUT_START + [End(TurnError)] + [TakeLog] + [TakeLive];
    RunOne(CUT_START, End(TurnError));
    RunOne(CUT_START + [End(TurnError)], TakeLog);
    RunOne(CUT_START + [End(TurnError)] + [TakeLog], TakeLive);
    CutTail(w);
    CutCalm(w);
  }

  lemma WriteWholeText(w: World, c: Chunk, k: Key)
    requires Whole(w, k) && |w.live| < LIVE_BUFFER
    ensures Whole(WriteChunk(w, c, true), k)
  {
    hide DeltaText, Wholes, ThisTurn, Lined, Open, CompleteText;
    if IsDelta(c) {
      var ev := EventOf(w.buf, c).value;
      if Open(w.out, k) {
        DeltaAppend(w.live, [ev], k);
        DeltaOne(ev, k);
        Assoc(DeltaText(w.out, k), DeltaText(w.live, k), DeltaText([ev], k));
        LinedLast(w.live, ev, k, |DeltaText(w.out, k)|);
        if KeyOf(c) != k { Empty(TextOf(w.buf, k)); }
      }
    }
  }

  lemma WriteSilent(w: World, c: Chunk, heard: bool, k: Key)
    requires Whole(w, k) && !IsDelta(c)
    ensures Whole(WriteChunk(w, c, heard), k)
  {
    hide DeltaText, Wholes, ThisTurn, Lined, Open, CompleteText;
  }

  lemma TakeLiveWhole(w: World, k: Key)
    requires Whole(w, k) && Knows(w, k) && Queued(w) && w.live != []
    ensures Whole(Next(w, TakeLive), k)
  {
    hide DeltaText, Wholes, ThisTurn, Noted, Counted, Delivered, Open, TextAt;
    var ev, next := w.live[0], Next(w, TakeLive);
    assert ev in w.live;
    DeliveredSame(w.streamed, ev);
    assert next.live == w.live[1..] && next.buf == w.buf;
    assert next.out == w.out || next.out == w.out + [ev];
    if Open(next.out, k) {
      if next.out != w.out { OpenBefore(w.out, ev, k); }
      DeltaFirst(w.live, k);
      if DeltaOf(ev, k) {
        OpenSends(w, k);
        assert next.out == w.out + [ev];
        Assoc(DeltaText(w.out, k), ev.content, DeltaText(w.live[1..], k));
      } else {
        Empty(DeltaText(w.out, k));
        Empty(DeltaText(w.live[1..], k));
      }
    }
  }

  /** A live delta of an open message that comes next is sent. */
  lemma OpenSends(w: World, k: Key)
    requires Knows(w, k) && w.live != [] && DeltaOf(w.live[0], k)
    requires Open(w.out, k) && w.live[0].offset == |DeltaText(w.out, k)|
    ensures Sends(w.texts, w.live[0])
  {
    hide DeltaText, Wholes, ThisTurn;
    TurnIsPart(w.out, k);
  }

  lemma TakeLogWhole(w: World, k: Key)
    requires Whole(w, k) && Queued(w) && w.log != []
    ensures Whole(Next(w, TakeLog), k)
  {
    hide DeltaText, Wholes, ThisTurn, Noted, Counted, Delivered, Lined, Open;
    var ev, next := Delivered(w.streamed, w.log[0]), Next(w, TakeLog);
    assert w.log[0] in w.log;
    DeliveredSame(w.streamed, w.log[0]);
    assert next.live == w.live && next.buf == w.buf && next.out == w.out + [ev];
    if Open(next.out, k) {
      OpenBefore(w.out, ev, k);
      Empty(DeltaText(w.out, k));
    }
  }

  lemma {:induction false} RunWhole(steps: seq<Step>, k: Key)
    requires Lossless(steps)
    ensures Whole(Run(steps), k)
    decreases |steps|
  {
    if steps == [] {
    } else {
      var before, step := steps[..|steps| - 1], steps[|steps| - 1];
      RunWhole(before, k);
      var w := Run(before);
      assert Run(steps) == Next(w, step);
      hide Whole, Knows, Queued, Run, WriteChunk, IsDelta, Take;
      RunKnows(before, k);
      match step {
        case Write(c, heard) => if IsDelta(c) { WriteWholeText(w, c, k); } else { WriteSilent(w, c, heard, k); }
        case End(kind) => EndWhole(w, kind, k);
        case TakeLive => if w.live != [] { TakeLiveWhole(w, k); }
        case TakeLog => if w.log != [] { TakeLogWhole(w, k); }
      }
    }
  }

  lemma EndWhole(w: World, kind: Type, k: Key)
    requires Whole(w, k)
    ensures Whole(Next(w, End(kind)), k)
  {
    hide DeltaText, Open, Lined;
  }

  /** Main result: in every run without loss, until the complete event of a message comes, and unless
      a turn ended after its first delta, the deltas that the reader got join to all that was taken of
      the message: with what is on its way, they are all that was written. */
  lemma ReadsAll(steps: seq<Step>, k: Key)
    requires Lossless(steps) && Open(Run(steps).out, k)
    ensures var w := Run(steps);
      DeltaText(w.out, k) + DeltaText(w.live, k) == TextOf(w.buf, k) &&
      (w.live == [] ==> DeltaText(w.out, k) == TextOf(w.buf, k))
  {
    hide DeltaText, Open, Lined, Run;
    RunWhole(steps, k);
    NothingYet(k);
    Empty(DeltaText(Run(steps).out, k));
  }
}
