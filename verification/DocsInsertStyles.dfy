/** Where the text styles of an insert script land (vfs/docs_map.go, mapInsertBlocks): the styles
    of an item are placed before bullets strip the tabs of the items above it in its list. */
module DocsInsertStyles {
  import opened Inline
  import opened DocsBody
  import opened DocsReplace
  import opened DocsInsert
  import opened DocsInsertText
  import opened Sequences

  /** The style requests on the units where the texts really are. */
  function RightStyles(tab: string, at: nat, blocks: seq<NewBlock>): seq<Request>
    decreases |blocks|
  {
    if blocks == [] then []
    else if blocks[0].kind == NewImage then RightStyles(tab, at, blocks[1..])
    else InlineStyles(tab, at, blocks[0].runs) + RightStyles(tab, at + |Utf16(Line(blocks[0]))|, blocks[1..])
  }

  /** No run of text has marks. */
  predicate Unstyled(runs: seq<Inline.Run>) {
    runs == [] || (!(runs[0].text != "" && HasMarks(runs[0])) && Unstyled(runs[1..]))
  }

  /** No item below a nested one of its list has styles; `shift` counts the tabs above. */
  predicate FlatList(items: seq<NewBlock>, shift: nat)
    decreases |items|
  {
    items == [] || ((shift == 0 || Unstyled(items[0].runs)) && FlatList(items[1..], shift + Nesting(items[0])))
  }

  predicate Flat(blocks: seq<NewBlock>)
    decreases |blocks|
  {
    if blocks == [] then true
    else if blocks[0].kind == NewItem then
      var n := RunLen(blocks, blocks[0].listId);
      FlatList(blocks[..n], 0) && Flat(blocks[n..])
    else Flat(blocks[1..])
  }

  lemma SomeUnits(s: string)
    ensures s != "" <==> |Utf16(s)| > 0
  {
  }

  lemma UnstyledStep(runs: seq<Inline.Run>)
    ensures Unstyled(runs) <==> runs == [] || (!(runs[0].text != "" && HasMarks(runs[0])) && Unstyled(runs[1..]))
  {
    hide HasMarks;
  }

  lemma NoRuns(tab: string, at: nat)
    ensures InlineStyles(tab, at, []) == []
  {
  }

  lemma {:induction false} StylesShift(tab: string, a: nat, b: nat, runs: seq<Inline.Run>)
    ensures |InlineStyles(tab, a, runs)| == |InlineStyles(tab, b, runs)|
    ensures InlineStyles(tab, a, runs) == InlineStyles(tab, b, runs) <==> a == b || Unstyled(runs)
    decreases |runs|
  {
    hide *;
    UnstyledStep(runs);
    if runs == [] {
      NoRuns(tab, a);
      NoRuns(tab, b);
    } else {
      var r := runs[0];
      var n := |Utf16(r.text)|;
      SomeUnits(r.text);
      StylesShift(tab, a + n, b + n, runs[1..]);
      StylesFrom(tab, a, runs, 0);
      StylesFrom(tab, b, runs, 0);
      assert runs[0..] == runs;
      OneShift(tab, a, b, r);
      SplitEqual(OneStyle(tab, a, r), InlineStyles(tab, a + n, runs[1..]), OneStyle(tab, b, r), InlineStyles(tab, b + n, runs[1..]));
    }
  }

  lemma OneShift(tab: string, a: nat, b: nat, r: Inline.Run)
    ensures |OneStyle(tab, a, r)| == |OneStyle(tab, b, r)|
    ensures OneStyle(tab, a, r) == OneStyle(tab, b, r) <==> a == b || |Utf16(r.text)| == 0 || !HasMarks(r)
  {
    hide HasMarks, StyleOf, Utf16;
    if |Utf16(r.text)| > 0 && HasMarks(r) {
      assert OneStyle(tab, a, r)[0].start == a && OneStyle(tab, b, r)[0].start == b;
    }
  }

  lemma SplitEqual<T>(a: seq<T>, b: seq<T>, c: seq<T>, d: seq<T>)
    requires |a| == |c|
    ensures a + b == c + d <==> a == c && b == d
  {
    if a + b == c + d {
      assert a == (a + b)[..|a|] == (c + d)[..|a|] == c;
      assert b == (a + b)[|a|..] == (c + d)[|a|..] == d;
    }
  }

  lemma {:induction false} ListStyles(tab: string, at: nat, shift: nat, items: seq<NewBlock>)
    requires forall b :: b in items ==> b.kind == NewItem
    ensures var got, want := StylePart(ListReqs(tab, at + shift, items)), RightStyles(tab, at, items);
      |got| == |want| && (got == want <==> FlatList(items, shift))
    decreases |items|
  {
    hide *;
    if items == [] {
      ListNone(tab, at, shift);
    } else {
      var b, rest := items[0], items[1..];
      assert b in items;
      ListStyles(tab, at + |Utf16(Line(b))|, shift + Nesting(b), rest);
      PayloadUnits(b);
      assert at + |Utf16(Line(b))| + (shift + Nesting(b)) == at + shift + PayloadLen(b);
      ListUnfold(tab, at, shift, items);
      StylesShift(tab, at + shift, at, b.runs);
      SplitEqual(InlineStyles(tab, at + shift, b.runs), StylePart(ListReqs(tab, at + shift + PayloadLen(b), rest)),
                 InlineStyles(tab, at, b.runs), RightStyles(tab, at + |Utf16(Line(b))|, rest));
    }
  }

  lemma ListNone(tab: string, at: nat, shift: nat)
    ensures StylePart(ListReqs(tab, at + shift, [])) == [] == RightStyles(tab, at, []) && FlatList([], shift)
  {
  }

  lemma ListUnfold(tab: string, at: nat, shift: nat, items: seq<NewBlock>)
    requires items != [] && items[0].kind == NewItem
    ensures StylePart(ListReqs(tab, at + shift, items)) ==
            InlineStyles(tab, at + shift, items[0].runs) + StylePart(ListReqs(tab, at + shift + PayloadLen(items[0]), items[1..]))
    ensures RightStyles(tab, at, items) ==
            InlineStyles(tab, at, items[0].runs) + RightStyles(tab, at + |Utf16(Line(items[0]))|, items[1..])
    ensures FlatList(items, shift) <==>
            (shift == 0 || Unstyled(items[0].runs)) && FlatList(items[1..], shift + Nesting(items[0]))
  {
    hide InlineStyles, InsertOne, StylePart, Utf16, Unstyled;
    PartsAppend(InsertOne(tab, at + shift, items[0]), ListReqs(tab, at + shift + PayloadLen(items[0]), items[1..]));
    TextOfOne(tab, at + shift, items[0]);
  }

  lemma NoStyles()
    ensures StylePart([]) == []
  {
  }

  lemma {:induction false} RightAppend(tab: string, at: nat, a: seq<NewBlock>, b: seq<NewBlock>)
    ensures RightStyles(tab, at, a + b) == RightStyles(tab, at, a) + RightStyles(tab, at + |Utf16(Text(a))|, b)
    decreases |a|
  {
    hide *;
    if a == [] {
      Empty(b);
      DocsInsertText.NoBlocks();
      EmptyUnits();
      RightNone(tab, at);
      Empty(RightStyles(tab, at, b));
    } else {
      Uncons(a, b);
      if a[0].kind == NewImage {
        RightAppend(tab, at, a[1..], b);
        ImageText(a);
        RightImage(tab, at, a);
        RightImage(tab, at, a + b);
      } else {
        RightAppend(tab, at + |Utf16(Line(a[0]))|, a[1..], b);
        LineText(a);
        RightBlock(tab, at, a);
        RightBlock(tab, at, a + b);
        Assoc(InlineStyles(tab, at, a[0].runs), RightStyles(tab, at + |Utf16(Line(a[0]))|, a[1..]),
              RightStyles(tab, at + |Utf16(Text(a))|, b));
      }
    }
  }

  lemma StylesStep(tab: string, at: nat, first: seq<Request>, rest: seq<Request>, a: seq<NewBlock>, b: seq<NewBlock>)
    requires |StylePart(first)| == |RightStyles(tab, at, a)|
    requires |StylePart(rest)| == |RightStyles(tab, at + |Utf16(Text(a))|, b)|
    ensures var got, want := StylePart(first + rest), RightStyles(tab, at, a + b);
      |got| == |want| &&
      (got == want <==> StylePart(first) == RightStyles(tab, at, a) && StylePart(rest) == RightStyles(tab, at + |Utf16(Text(a))|, b))
  {
    hide StylePart, RightStyles, Utf16, Text;
    PartsAppend(first, rest);
    RightAppend(tab, at, a, b);
    SplitEqual(StylePart(first), StylePart(rest), RightStyles(tab, at, a), RightStyles(tab, at + |Utf16(Text(a))|, b));
  }

  lemma RightOne(tab: string, at: nat, b: NewBlock)
    requires b.kind != NewImage
    ensures RightStyles(tab, at, [b]) == InlineStyles(tab, at, b.runs)
  {
    assert InlineStyles(tab, at, b.runs) + [] == InlineStyles(tab, at, b.runs);
  }

  lemma ListPart(tab: string, idx: nat, items: seq<NewBlock>, bullets: Request)
    requires bullets.Bullets?
    ensures StylePart(ListReqs(tab, idx, items) + [bullets]) == StylePart(ListReqs(tab, idx, items))
  {
    hide ListReqs;
    PartsAppend(ListReqs(tab, idx, items), [bullets]);
    BulletsPart(bullets);
  }

  /** The styles of the script are on the right units if and only if the blocks are flat: the tabs
      above a styled item in its list shift its styles by as many units. */
  lemma {:induction false} StylesRight(tab: string, idx: nat, blocks: seq<NewBlock>)
    requires InsertReqs(tab, idx, blocks).Some?
    ensures var got, want := StylePart(InsertReqs(tab, idx, blocks).value.reqs), RightStyles(tab, idx, blocks);
      |got| == |want| && (got == want <==> Flat(blocks))
    decreases |blocks|
  {
    hide *;
    if blocks == [] {
      NoReqs(tab, idx);
      NoStyles();
      RightNone(tab, idx);
      FlatNone();
    } else if blocks[0].kind == NewImage {
      ImageReqs(tab, idx, blocks);
      StylesRight(tab, idx, blocks[1..]);
      RightImage(tab, idx, blocks);
      FlatBlock(blocks);
    } else if blocks[0].kind == NewItem {
      var items, rest := ItemReqs(tab, idx, blocks);
      var bullets, next := Bullets(tab, idx, idx + ListLen(items), blocks[0].listType), idx + |Utf16(Text(items))|;
      ListStyles(tab, idx, 0, items);
      ListPart(tab, idx, items, bullets);
      StylesRight(tab, next, rest);
      ThenIs(ListReqs(tab, idx, items) + [bullets], InsertReqs(tab, next, rest));
      StylesStep(tab, idx, ListReqs(tab, idx, items) + [bullets], InsertReqs(tab, next, rest).value.reqs, items, rest);
      FlatItems(blocks, items, rest);
    } else {
      var b, next := blocks[0], idx + |Utf16(Text([blocks[0]]))|;
      BlockReqs(tab, idx, blocks);
      TextOfOne(tab, idx, b);
      RightOne(tab, idx, b);
      StylesRight(tab, next, blocks[1..]);
      ThenIs(InsertOne(tab, idx, b), InsertReqs(tab, next, blocks[1..]));
      StylesStep(tab, idx, InsertOne(tab, idx, b), InsertReqs(tab, next, blocks[1..]).value.reqs, [b], blocks[1..]);
      FlatBlock(blocks);
    }
  }

  lemma FlatNone()
    ensures Flat([])
  {
  }

  lemma FlatItems(blocks: seq<NewBlock>, items: seq<NewBlock>, rest: seq<NewBlock>)
    requires blocks != [] && blocks[0].kind == NewItem && blocks == items + rest && |items| == RunLen(blocks, blocks[0].listId)
    ensures Flat(blocks) <==> FlatList(items, 0) && Flat(rest)
  {
    hide RunLen, FlatList;
    assert blocks[..|items|] == items && blocks[|items|..] == rest;
  }

  lemma FlatBlock(blocks: seq<NewBlock>)
    requires blocks != [] && blocks[0].kind != NewItem
    ensures Flat(blocks) <==> Flat(blocks[1..])
  {
    hide RunLen, FlatList;
  }

  lemma RightNone(tab: string, at: nat)
    ensures RightStyles(tab, at, []) == []
  {
  }

  lemma RightBlock(tab: string, at: nat, blocks: seq<NewBlock>)
    requires blocks != [] && blocks[0].kind != NewImage
    ensures RightStyles(tab, at, blocks) ==
            InlineStyles(tab, at, blocks[0].runs) + RightStyles(tab, at + |Utf16(Line(blocks[0]))|, blocks[1..])
  {
    hide InlineStyles, Utf16, Line;
  }

  lemma LineText(blocks: seq<NewBlock>)
    requires blocks != [] && blocks[0].kind != NewImage
    ensures |Utf16(Text(blocks))| == |Utf16(Line(blocks[0]))| + |Utf16(Text(blocks[1..]))|
  {
    hide Utf16, Line;
    Utf16Append(Line(blocks[0]), Text(blocks[1..]));
  }

  lemma RightImage(tab: string, at: nat, blocks: seq<NewBlock>)
    requires blocks != [] && blocks[0].kind == NewImage
    ensures RightStyles(tab, at, blocks) == RightStyles(tab, at, blocks[1..])
  {
    hide InlineStyles, Utf16, Line;
  }

  // ---------------------------------------------------------------------------------------------
  // What the second batch does
  // ---------------------------------------------------------------------------------------------

  /** u is every block's runs under their marks, and a newline after each. */
  ghost predicate ShowsAll(u: Body, blocks: seq<NewBlock>)
    decreases |blocks|
  {
    if blocks == [] then u == []
    else if blocks[0].kind == NewImage then ShowsAll(u, blocks[1..])
    else
      exists line: Body, rest: Body ::
        u == line + rest && |line| > 0 && Shows(line[..|line| - 1], blocks[0].runs) && line[|line| - 1].code == NEWLINE &&
        ShowsAll(rest, blocks[1..])
  }

  lemma SplitLine(u: Body, b: NewBlock, more: string) returns (text: Body, nl: Body, rest: Body)
    requires Codes(u) == Utf16(Line(b) + more)
    ensures u == text + nl + rest && Codes(text) == Utf16(PlainText(b.runs)) && Codes(nl) == [NEWLINE]
    ensures Codes(rest) == Utf16(more) && |text| + |nl| == |Utf16(Line(b))|
  {
    hide Utf16;
    var plain := PlainText(b.runs);
    Utf16Append(Line(b), more);
    Utf16Append(plain, "\n");
    NewlineUnits();
    var n := |Utf16(plain)|;
    text, nl, rest := u[..n], u[n..n + 1], u[n + 1..];
    assert Codes(text) == Codes(u)[..n] && Codes(nl) == Codes(u)[n..n + 1] && Codes(rest) == Codes(u)[n + 1..];
  }

  lemma NewlineUnits()
    ensures Utf16("\n") == [NEWLINE]
  {
    assert "\n"[1..] == "";
  }

  lemma {:induction false} RightStylesShow(inherit: Inherit, tab: string, pre: Body, u: Body, post: Body, blocks: seq<NewBlock>)
    returns (shown: Body)
    requires Codes(u) == Utf16(Text(blocks))
    ensures ShowsAll(shown, blocks)
    ensures Execute(inherit, tab, pre + u + post, RightStyles(tab, |pre|, blocks)) == Some(pre + shown + post)
    decreases |blocks|
  {
    hide Execute, Shows, InlineStyles, Utf16, Line;
    if blocks == [] {
      EmptyUnits();
      assert |Codes(u)| == |u|;
      shown := u;
      ExecuteNone(inherit, tab, pre + u + post);
    } else if blocks[0].kind == NewImage {
      assert "" + Text(blocks[1..]) == Text(blocks[1..]);
      shown := RightStylesShow(inherit, tab, pre, u, post, blocks[1..]);
    } else {
      var b := blocks[0];
      hide RightStyles, ShowsAll;
      var text, nl, tail := SplitLine(u, b, Text(blocks[1..]));
      var styled := StylesKeepText(inherit, tab, pre, text, nl + tail + post, b.runs);
      ShowsSpells(styled, b.runs);
      SameSize(styled, text);
      var rest := RightStylesShow(inherit, tab, pre + styled + nl, tail, post, blocks[1..]);
      shown := styled + nl + rest;
      ShowsLine(styled, nl, rest, blocks);
      RegroupFive(pre, text, nl, tail, post);
      RegroupFive(pre, styled, nl, tail, post);
      RegroupFive(pre, styled, nl, rest, post);
      RightLine(tab, |pre|, blocks);
      assert |pre + styled + nl| == |pre| + |Utf16(Line(b))|;
      Chain(inherit, tab, pre + u + post, pre + styled + (nl + tail + post), pre + shown + post,
            InlineStyles(tab, |pre|, b.runs), RightStyles(tab, |pre| + |Utf16(Line(b))|, blocks[1..]));
    }
  }

  lemma RightLine(tab: string, at: nat, blocks: seq<NewBlock>)
    requires blocks != [] && blocks[0].kind != NewImage
    ensures RightStyles(tab, at, blocks) ==
            InlineStyles(tab, at, blocks[0].runs) + RightStyles(tab, at + |Utf16(Line(blocks[0]))|, blocks[1..])
  {
    hide InlineStyles, Utf16, Line;
  }

  lemma SameSize(a: Body, b: Body)
    requires Codes(a) == Codes(b)
    ensures |a| == |b|
  {
    assert |Codes(a)| == |Codes(b)|;
  }

  lemma RegroupFive(a: Body, b: Body, c: Body, d: Body, e: Body)
    ensures a + (b + c + d) + e == a + b + (c + d + e) == a + b + c + d + e
  {
  }

  lemma ExecuteNone(inherit: Inherit, tab: string, body: Body)
    ensures Execute(inherit, tab, body, []) == Some(body)
  {
  }

  lemma ShowsLine(styled: Body, nl: Body, rest: Body, blocks: seq<NewBlock>)
    requires blocks != [] && blocks[0].kind != NewImage
    requires Shows(styled, blocks[0].runs) && Codes(nl) == [NEWLINE] && ShowsAll(rest, blocks[1..])
    ensures ShowsAll(styled + nl + rest, blocks)
  {
    hide Shows;
    assert |nl| == |Codes(nl)| == 1 && nl[0].code == Codes(nl)[0];
    var line := styled + nl;
    assert line[..|line| - 1] == styled && line[|line| - 1] == nl[0];
  }

  /** Main result: on clean and flat blocks, the two batches put every block's text, under its
      marks and followed by its newline, in order at idx, and keep every unit of the body. */
  lemma InsertedStyled(inherit: Inherit, tab: string, body: Body, idx: nat, blocks: seq<NewBlock>) returns (shown: Body)
    requires InsertReqs(tab, idx, blocks).Some? && idx <= |body| && Clean(blocks) && Flat(blocks)
    ensures var out := InsertReqs(tab, idx, blocks).value;
      ShowsAll(shown, blocks) && out.end == idx + |shown| &&
      Execute(inherit, tab, body, TextPart(out.reqs) + StylePart(out.reqs)) == Some(Placed(body, idx, shown))
  {
    hide Execute, Utf16, TextPart, StylePart, Text, Clean, Flat, InsertReqs, ShowsAll;
    var out := InsertReqs(tab, idx, blocks).value;
    InsertedText(inherit, tab, body, idx, blocks);
    var u: Body :| Codes(u) == Utf16(Text(blocks)) && Execute(inherit, tab, body, TextPart(out.reqs)) == Some(Placed(body, idx, u));
    StylesRight(tab, idx, blocks);
    shown := RightStylesShow(inherit, tab, body[..idx], u, body[idx..], blocks);
    Chain(inherit, tab, body, Placed(body, idx, u), Placed(body, idx, shown), TextPart(out.reqs), StylePart(out.reqs));
    ShownSize(shown, blocks);
  }

  lemma {:induction false} ShownSize(shown: Body, blocks: seq<NewBlock>)
    requires ShowsAll(shown, blocks)
    ensures Codes(shown) == Utf16(Text(blocks)) && |shown| == |Utf16(Text(blocks))|
    decreases |blocks|
  {
    hide Shows, Utf16;
    if blocks == [] {
      EmptyUnits();
    } else if blocks[0].kind == NewImage {
      assert "" + Text(blocks[1..]) == Text(blocks[1..]);
      ShownSize(shown, blocks[1..]);
    } else {
      var line: Body, rest: Body :| shown == line + rest && |line| > 0 && Shows(line[..|line| - 1], blocks[0].runs) &&
        line[|line| - 1].code == NEWLINE && ShowsAll(rest, blocks[1..]);
      var text := line[..|line| - 1];
      ShowsSpells(text, blocks[0].runs);
      ShownSize(rest, blocks[1..]);
      assert Codes(line) == Codes(text) + [NEWLINE];
      CodesAppend(line, rest);
      NewlineUnits();
      Utf16Append(PlainText(blocks[0].runs), "\n");
      Utf16Append(Line(blocks[0]), Text(blocks[1..]));
    }
  }
}
