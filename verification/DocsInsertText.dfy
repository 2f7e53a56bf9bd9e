/** What an insert script does (vfs/docs_map.go, mapInsertBlocks): the text it leaves, and where its
    text styles land. */
module DocsInsertText {
  import opened Inline
  import opened DocsBody
  import opened DocsReplace
  import opened DocsInsert
  import opened Sequences

  // ---------------------------------------------------------------------------------------------
  // What bullets strip
  // ---------------------------------------------------------------------------------------------

  function StripCodes(u: seq<nat>, atStart: bool): seq<nat> {
    if u == [] then []
    else if atStart && u[0] == TAB then StripCodes(u[1..], true)
    else [u[0]] + StripCodes(u[1..], u[0] == NEWLINE)
  }

  lemma {:induction false} StripTabsCodes(u: Body, atStart: bool)
    ensures Codes(StripTabs(u, atStart)) == StripCodes(Codes(u), atStart)
  {
    if u != [] {
      assert Codes(u)[1..] == Codes(u[1..]);
      if atStart && u[0].code == TAB {
        StripTabsCodes(u[1..], true);
      } else {
        StripTabsCodes(u[1..], u[0].code == NEWLINE);
        CodesAppend([u[0]], StripTabs(u[1..], u[0].code == NEWLINE));
        assert Codes([u[0]]) == [u[0].code];
      }
    }
  }

  /** Whole lines strip one by one. */
  lemma {:induction false} StripLines(a: seq<nat>, b: seq<nat>, atStart: bool)
    requires a == [] ==> atStart
    requires a != [] ==> a[|a| - 1] == NEWLINE
    ensures StripCodes(a + b, atStart) == StripCodes(a, atStart) + StripCodes(b, true)
  {
    if a == [] {
      Empty(b);
    } else {
      Uncons(a, b);
      if atStart && a[0] == TAB {
        StripLines(a[1..], b, true);
      } else {
        StripLines(a[1..], b, a[0] == NEWLINE);
        Assoc([a[0]], StripCodes(a[1..], a[0] == NEWLINE), StripCodes(b, true));
      }
    }
  }

  lemma {:induction false} StripLeading(tabs: seq<nat>, u: seq<nat>)
    requires forall i :: 0 <= i < |tabs| ==> tabs[i] == TAB
    ensures StripCodes(tabs + u, true) == StripCodes(u, true)
  {
    if tabs == [] {
      assert tabs + u == u;
    } else {
      assert (tabs + u)[1..] == tabs[1..] + u;
      StripLeading(tabs[1..], u);
    }
  }

  /** No line of s starts with a tab; atStart says s starts a line. */
  predicate CleanLines(s: string, atStart: bool) {
    s == "" || (!(atStart && s[0] == '\t') && CleanLines(s[1..], s[0] == '\n'))
  }

  lemma {:induction false} StripShrinks(u: seq<nat>, atStart: bool)
    ensures |StripCodes(u, atStart)| <= |u|
  {
    if u != [] { StripShrinks(u[1..], if atStart && u[0] == TAB then true else u[0] == NEWLINE); }
  }

  lemma {:induction false} StripAfter(u: seq<nat>, v: seq<nat>, atStart: bool)
    requires 1 <= |u| <= 2
    requires forall i :: 0 <= i < |u| ==> u[i] != TAB && u[i] != NEWLINE
    ensures StripCodes(u + v, atStart) == u + StripCodes(v, false)
  {
    assert (u + v)[1..] == u[1..] + v;
    if |u| == 2 {
      assert u[1..] + v == [u[1]] + v && ([u[1]] + v)[1..] == v && (u[1..] + v)[0] == u[1];
      assert StripCodes(u[1..] + v, false) == [u[1]] + StripCodes(v, false);
      assert u == [u[0]] + [u[1]];
    } else {
      assert u[1..] + v == v;
    }
  }

  /** Bullets leave a line's text as it is exactly when it is clean. */
  lemma {:induction false} StripLine(s: string, atStart: bool)
    ensures StripCodes(Utf16(s), atStart) == Utf16(s) <==> CleanLines(s, atStart)
    ensures !CleanLines(s, atStart) ==> |StripCodes(Utf16(s), atStart)| < |Utf16(s)|
  {
    if s != "" {
      var c, rest := CharUnits(s[0]), Utf16(s[1..]);
      if s[0] == '\t' {
        assert c == [TAB] && (c + rest)[1..] == rest;
        StripShrinks(rest, true);
        StripLine(s[1..], false);
      } else if s[0] == '\n' {
        assert c == [NEWLINE] && (c + rest)[1..] == rest;
        StripLine(s[1..], true);
      } else {
        CodeIsChar(s[0]);
        StripAfter(c, rest, atStart);
        StripLine(s[1..], false);
      }
    }
  }

  lemma CodeIsChar(c: char)
    requires c != '\t' && c != '\n'
    ensures forall i :: 0 <= i < |CharUnits(c)| ==> CharUnits(c)[i] != TAB && CharUnits(c)[i] != NEWLINE
  {
  }

  // ---------------------------------------------------------------------------------------------
  // The text of the blocks
  // ---------------------------------------------------------------------------------------------

  /** Every block's plain text and a newline, in order. */
  function Text(blocks: seq<NewBlock>): string {
    if blocks == [] then ""
    else (if blocks[0].kind == NewImage then "" else Line(blocks[0])) + Text(blocks[1..])
  }

  /** No line of a list item starts with a tab. */
  predicate Clean(blocks: seq<NewBlock>) {
    blocks == [] || ((blocks[0].kind == NewItem ==> CleanLines(Line(blocks[0]), true)) && Clean(blocks[1..]))
  }

  lemma {:induction false} CleanAppend(a: seq<NewBlock>, b: seq<NewBlock>)
    ensures Clean(a + b) <==> Clean(a) && Clean(b)
    ensures Text(a + b) == Text(a) + Text(b)
  {
    if a == [] {
      Empty(b);
    } else {
      Uncons(a, b);
      CleanAppend(a[1..], b);
      Assoc(if a[0].kind == NewImage then "" else Line(a[0]), Text(a[1..]), Text(b));
    }
  }

  function ListText(items: seq<NewBlock>): string {
    if items == [] then "" else Payload(items[0]) + ListText(items[1..])
  }

  lemma LineEnds(b: NewBlock)
    ensures var u := Utf16(Line(b)); u != [] && u[|u| - 1] == NEWLINE
  {
    Utf16Append(PlainText(b.runs), "\n");
    assert Utf16("\n") == [NEWLINE] by { assert "\n"[1..] == ""; }
  }

  lemma StripPayload(b: NewBlock, rest: seq<nat>)
    requires b.kind == NewItem
    ensures StripCodes(Utf16(Payload(b)) + rest, true) == StripCodes(Utf16(Line(b)), true) + StripCodes(rest, true)
  {
    hide StripCodes, Utf16;
    var tabs, line := Utf16(TabsOf(Nesting(b))), Utf16(Line(b));
    Utf16Append(TabsOf(Nesting(b)), Line(b));
    TabsUnits(Nesting(b));
    assert Utf16(Payload(b)) + rest == tabs + (line + rest);
    StripLeading(tabs, line + rest);
    LineEnds(b);
    StripLines(line, rest, true);
  }

  /** Bullets turn the inserted text of a list run into its plain text exactly when it is clean, and
      otherwise take more than the nesting tabs. */
  lemma {:induction false} StripList(items: seq<NewBlock>)
    requires forall b :: b in items ==> b.kind == NewItem
    ensures var u := StripCodes(Utf16(ListText(items)), true);
      |u| <= |Utf16(Text(items))| && (if Clean(items) then u == Utf16(Text(items)) else |u| < |Utf16(Text(items))|)
    ensures ListLen(items) == |Utf16(ListText(items))| == ListTabs(items) + |Utf16(Text(items))|
  {
    if items != [] {
      hide StripCodes, Utf16, Payload, Line, CleanLines;
      var b := items[0];
      assert b in items;
      StripList(items[1..]);
      StripPayload(b, Utf16(ListText(items[1..])));
      StripLine(Line(b), true);
      Utf16Append(Payload(b), ListText(items[1..]));
      Utf16Append(Line(b), Text(items[1..]));
      PayloadUnits(b);
    } else {
      assert Utf16("") == [] && StripCodes([], true) == [];
    }
  }

  // ---------------------------------------------------------------------------------------------
  // What the first batch does
  // ---------------------------------------------------------------------------------------------

  /** u stands at index idx of what was body. */
  function Placed(body: Body, idx: nat, u: Body): Body
    requires idx <= |body|
  {
    body[..idx] + u + body[idx..]
  }

  lemma PlacedTwice(body: Body, idx: nat, u: Body, v: Body)
    requires idx <= |body|
    ensures Placed(Placed(body, idx, u), idx + |u|, v) == Placed(body, idx, u + v)
  {
    var mid := Placed(body, idx, u);
    assert mid[..idx + |u|] == body[..idx] + u && mid[idx + |u|..] == body[idx..];
  }

  lemma TextOfOne(tab: string, idx: nat, b: NewBlock)
    ensures TextPart(InsertOne(tab, idx, b)) ==
            [Insert(tab, idx, Payload(b)), SetParagraph(tab, idx, idx + PayloadLen(b), Named(b))]
    ensures StylePart(InsertOne(tab, idx, b)) == InlineStyles(tab, idx, b.runs)
  {
    hide TextPart, StylePart, InlineStyles, Payload, PayloadLen, Named;
    var two := [Insert(tab, idx, Payload(b)), SetParagraph(tab, idx, idx + PayloadLen(b), Named(b))];
    StyleParts(tab, idx, b.runs);
    PartsAppend(two, InlineStyles(tab, idx, b.runs));
    PartsOfTwo(two);
    Empty(two);
    Empty(InlineStyles(tab, idx, b.runs));
  }

  lemma PartsOfTwo(two: seq<Request>)
    requires |two| == 2 && !two[0].SetStyle? && !two[1].SetStyle?
    ensures TextPart(two) == two && StylePart(two) == []
  {
    assert two == [two[0]] + [two[1]] && two[1..] == [two[1]] && two[1..][1..] == [];
    assert TextPart(two[1..]) == [two[1]] + TextPart([]) && StylePart(two[1..]) == [] + StylePart([]);
  }

  /** One block's text requests put its payload at idx, or are refused when idx is past the end. */
  lemma OneText(inherit: Inherit, tab: string, body: Body, idx: nat, b: NewBlock) returns (u: Body)
    ensures Codes(u) == Utf16(Payload(b))
    ensures Execute(inherit, tab, body, TextPart(InsertOne(tab, idx, b))) ==
            if idx <= |body| then Some(Placed(body, idx, u)) else None
  {
    var ins, par := Insert(tab, idx, Payload(b)), SetParagraph(tab, idx, idx + PayloadLen(b), Named(b));
    TextOfOne(tab, idx, b);
    u := Inserted(inherit, body, idx, Payload(b));
    assert Codes(u) == Utf16(Payload(b));
    assert [ins, par] == [ins] + [par];
    ExecuteAppend(inherit, tab, body, [ins], [par]);
    ExecuteOne(inherit, tab, body, ins);
    if idx <= |body| {
      PayloadSome(b);
      ExecuteOne(inherit, tab, Placed(body, idx, u), par);
    }
  }

  lemma PayloadSome(b: NewBlock)
    ensures PayloadLen(b) > 0
  {
    LineEnds(b);
    if b.kind == NewItem { PayloadUnits(b); } else { assert Payload(b) == Line(b); }
  }

  lemma {:induction false} ListBody(inherit: Inherit, tab: string, body: Body, idx: nat, items: seq<NewBlock>) returns (u: Body)
    requires items != []
    ensures Codes(u) == Utf16(ListText(items))
    ensures Execute(inherit, tab, body, TextPart(ListReqs(tab, idx, items))) ==
            if idx <= |body| then Some(Placed(body, idx, u)) else None
    decreases |items|
  {
    hide Execute, Placed, TextPart, Utf16, InsertOne, Payload;
    var b, rest := items[0], items[1..];
    var first := OneText(inherit, tab, body, idx, b);
    var next := idx + PayloadLen(b);
    assert |first| == |Codes(first)| == PayloadLen(b);
    PartsAppend(InsertOne(tab, idx, b), ListReqs(tab, next, rest));
    ExecuteAppend(inherit, tab, body, TextPart(InsertOne(tab, idx, b)), TextPart(ListReqs(tab, next, rest)));
    Utf16Append(Payload(b), ListText(rest));
    if rest == [] {
      u := first;
      NoText(inherit, tab, next, if idx <= |body| then Placed(body, idx, first) else body);
      assert Utf16("") == [] by { EmptyUnits(); }
    } else {
      var mid := if idx <= |body| then Placed(body, idx, first) else body;
      var more := ListBody(inherit, tab, mid, next, rest);
      u := first + more;
      CodesAppend(first, more);
      if idx <= |body| {
        PlacedSize(body, idx, first);
        PlacedTwice(body, idx, first, more);
      }
    }
  }

  lemma EmptyUnits()
    ensures Utf16("") == []
  {
  }

  lemma PlacedSize(body: Body, idx: nat, u: Body)
    requires idx <= |body|
    ensures |Placed(body, idx, u)| == |body| + |u|
  {
  }

  lemma NoText(inherit: Inherit, tab: string, idx: nat, body: Body)
    ensures Execute(inherit, tab, body, TextPart(ListReqs(tab, idx, []))) == Some(body)
    ensures ListText([]) == ""
  {
  }

  /** A list run leaves what its bullets leave of it. */
  lemma RunBody(inherit: Inherit, tab: string, body: Body, idx: nat, items: seq<NewBlock>, listType: string) returns (u: Body)
    requires items != []
    ensures Codes(u) == StripCodes(Utf16(ListText(items)), true)
    ensures var reqs := ListReqs(tab, idx, items) + [Bullets(tab, idx, idx + |Utf16(ListText(items))|, listType)];
      Execute(inherit, tab, body, TextPart(reqs)) == if idx <= |body| then Some(Placed(body, idx, u)) else None
  {
    hide Utf16, ListText, ListReqs, TextPart, StripCodes, Execute, StripTabs, Codes;
    var list := ListReqs(tab, idx, items);
    var raw := ListBody(inherit, tab, body, idx, items);
    var bullets := Bullets(tab, idx, idx + |raw|, listType);
    u := StripTabs(raw, true);
    StripTabsCodes(raw, true);
    PartsAppend(list, [bullets]);
    BulletsPart(bullets);
    ExecuteAppend(inherit, tab, body, TextPart(list), [bullets]);
    if idx <= |body| {
      var mid := Placed(body, idx, raw);
      ExecuteOne(inherit, tab, mid, bullets);
      ListSome(items);
      assert mid[..idx] == body[..idx] && mid[idx..idx + |raw|] == raw && mid[idx + |raw|..] == body[idx..];
    }
  }

  lemma BulletsPart(q: Request)
    requires q.Bullets?
    ensures TextPart([q]) == [q] && StylePart([q]) == []
  {
    assert [q][1..] == [];
  }

  lemma ListSome(items: seq<NewBlock>)
    requires items != []
    ensures |Utf16(ListText(items))| > 0
  {
    Utf16Append(Payload(items[0]), ListText(items[1..]));
    PayloadSome(items[0]);
  }

  /** What a script of text requests makes of a body, and how it compares with inserting the text. */
  ghost predicate Inserts(r: Option<Body>, body: Body, idx: nat, u: Body, text: seq<nat>, clean: bool) {
    (clean && idx <= |body| ==> Codes(u) == text && r == Some(Placed(body, idx, u))) &&
    (r.Some? ==> |r.value| <= |body| + |text| && (!clean ==> |r.value| < |body| + |text|))
  }

  lemma InsertsOne(body: Body, idx: nat, u: Body, text: seq<nat>, clean: bool, r: Option<Body>)
    requires r == if idx <= |body| then Some(Placed(body, idx, u)) else None
    requires if clean then Codes(u) == text else |u| < |text|
    ensures Inserts(r, body, idx, u, text, clean)
  {
    assert clean ==> |Codes(u)| == |text|;
  }

  lemma InsertsThen(body: Body, idx: nat, u: Body, t: seq<nat>, c: bool, mid: Body, v: Body, t2: seq<nat>, c2: bool, r: Option<Body>)
    requires Inserts(Some(mid), body, idx, u, t, c) && Inserts(r, mid, idx + |t|, v, t2, c2)
    ensures Inserts(r, body, idx, u + v, t + t2, c && c2)
  {
    hide Placed;
    if c && c2 && idx <= |body| {
      assert |u| == |Codes(u)|;
      PlacedTwice(body, idx, u, v);
      PlacedSize(body, idx, u);
      CodesAppend(u, v);
    }
  }

  lemma StripOne(b: NewBlock)
    requires b.kind != NewItem
    ensures Payload(b) == Line(b)
  {
  }

  /** The first batch inserts every block's text in order at idx, exactly when the items are clean. */
  lemma {:induction false} InsertsText(inherit: Inherit, tab: string, body: Body, idx: nat, blocks: seq<NewBlock>) returns (u: Body)
    requires InsertReqs(tab, idx, blocks).Some?
    ensures var out := InsertReqs(tab, idx, blocks).value;
      Inserts(Execute(inherit, tab, body, TextPart(out.reqs)), body, idx, u, Utf16(Text(blocks)), Clean(blocks)) &&
      out.end == idx + |Utf16(Text(blocks))|
    decreases |blocks|, 0
  {
    hide *;
    if blocks == [] {
      u := [];
      NoBlocks();
      NoReqs(tab, idx);
      NothingInserted(inherit, tab, body, idx);
    } else if blocks[0].kind == NewImage {
      ImageReqs(tab, idx, blocks);
      u := InsertsText(inherit, tab, body, idx, blocks[1..]);
      ImageText(blocks);
    } else if blocks[0].kind == NewItem {
      var items, rest := ItemReqs(tab, idx, blocks);
      var put := GroupText(inherit, tab, body, idx, items, blocks[0].listType);
      var first := ListReqs(tab, idx, items) + [Bullets(tab, idx, idx + ListLen(items), blocks[0].listType)];
      u := InsertsMore(inherit, tab, body, idx, first, put, items, idx + |Utf16(Text(items))|, rest);
    } else {
      var b := blocks[0];
      BlockReqs(tab, idx, blocks);
      var put := BlockText(inherit, tab, body, idx, b);
      u := InsertsMore(inherit, tab, body, idx, InsertOne(tab, idx, b), put, [b], idx + |Utf16(Text([b]))|, blocks[1..]);
    }
  }

  // The script of blocks: of the first group of them, then of the others.

  lemma NoReqs(tab: string, idx: nat)
    ensures InsertReqs(tab, idx, []) == Some(Output([], idx))
  {
    hide InsertOne, ListReqs, Then, RunLen, ListLen, ListTabs, PayloadLen;
  }

  lemma ImageReqs(tab: string, idx: nat, blocks: seq<NewBlock>)
    requires blocks != [] && blocks[0].kind == NewImage && InsertReqs(tab, idx, blocks).Some?
    ensures InsertReqs(tab, idx, blocks) == InsertReqs(tab, idx, blocks[1..])
  {
    hide InsertOne, ListReqs, Then, RunLen, ListLen, ListTabs, PayloadLen;
  }

  lemma ItemReqs(tab: string, idx: nat, blocks: seq<NewBlock>) returns (items: seq<NewBlock>, rest: seq<NewBlock>)
    requires blocks != [] && blocks[0].kind == NewItem && InsertReqs(tab, idx, blocks).Some?
    ensures blocks == items + rest && items != [] && |items| == RunLen(blocks, blocks[0].listId)
    ensures forall b :: b in items ==> b.kind == NewItem
    ensures var first := ListReqs(tab, idx, items) + [Bullets(tab, idx, idx + ListLen(items), blocks[0].listType)];
      InsertReqs(tab, idx, blocks) == Then(first, InsertReqs(tab, idx + |Utf16(Text(items))|, rest))
    ensures InsertReqs(tab, idx + |Utf16(Text(items))|, rest).Some?
  {
    hide ListReqs, Utf16, Text, ListLen, ListTabs, RunLen, StripCodes, ListText, Clean;
    RunSome(blocks);
    var n := RunLen(blocks, blocks[0].listId);
    items, rest := blocks[..n], blocks[n..];
    StripList(items);
  }

  lemma BlockReqs(tab: string, idx: nat, blocks: seq<NewBlock>)
    requires blocks != [] && blocks[0].kind != NewItem && blocks[0].kind != NewImage && InsertReqs(tab, idx, blocks).Some?
    ensures blocks == [blocks[0]] + blocks[1..] && InsertReqs(tab, idx + |Utf16(Text([blocks[0]]))|, blocks[1..]).Some?
    ensures InsertReqs(tab, idx, blocks) == Then(InsertOne(tab, idx, blocks[0]), InsertReqs(tab, idx + |Utf16(Text([blocks[0]]))|, blocks[1..]))
  {
    hide InsertOne, Utf16, Text, Line, Payload;
    StripOne(blocks[0]);
    OneBlock(blocks[0]);
  }

  lemma ThenIs(first: seq<Request>, rest: Option<Output>)
    requires rest.Some?
    ensures Then(first, rest) == Some(Output(first + rest.value.reqs, rest.value.end))
  {
  }

  lemma NoBlocks()
    ensures Text([]) == "" && Clean([])
  {
  }

  lemma ImageText(blocks: seq<NewBlock>)
    requires blocks != [] && blocks[0].kind == NewImage
    ensures Text(blocks) == Text(blocks[1..]) && (Clean(blocks) <==> Clean(blocks[1..]))
  {
    assert "" + Text(blocks[1..]) == Text(blocks[1..]);
  }

  /** A list run inserts its text when it is clean. */
  lemma GroupText(inherit: Inherit, tab: string, body: Body, idx: nat, items: seq<NewBlock>, listType: string) returns (put: Body)
    requires items != [] && forall b :: b in items ==> b.kind == NewItem
    ensures var first := ListReqs(tab, idx, items) + [Bullets(tab, idx, idx + ListLen(items), listType)];
      Inserts(Execute(inherit, tab, body, TextPart(first)), body, idx, put, Utf16(Text(items)), Clean(items))
  {
    hide Execute, Utf16, TextPart, Inserts, ListReqs, StripCodes, ListText;
    var first := ListReqs(tab, idx, items) + [Bullets(tab, idx, idx + ListLen(items), listType)];
    StripList(items);
    put := RunBody(inherit, tab, body, idx, items, listType);
    assert |Codes(put)| == |put|;
    InsertsOne(body, idx, put, Utf16(Text(items)), Clean(items), Execute(inherit, tab, body, TextPart(first)));
  }

  /** A block that is no item inserts its text. */
  lemma BlockText(inherit: Inherit, tab: string, body: Body, idx: nat, b: NewBlock) returns (put: Body)
    requires b.kind != NewItem && b.kind != NewImage
    ensures Inserts(Execute(inherit, tab, body, TextPart(InsertOne(tab, idx, b))), body, idx, put, Utf16(Text([b])), Clean([b]))
    ensures PayloadLen(b) == |Utf16(Text([b]))|
  {
    hide Execute, Utf16, TextPart, Inserts, InsertOne;
    put := OneText(inherit, tab, body, idx, b);
    StripOne(b);
    OneBlock(b);
    InsertsOne(body, idx, put, Utf16(Text([b])), true, Execute(inherit, tab, body, TextPart(InsertOne(tab, idx, b))));
  }

  lemma OneBlock(b: NewBlock)
    requires b.kind != NewItem && b.kind != NewImage
    ensures Text([b]) == Line(b) && Clean([b])
  {
    assert Line(b) + "" == Line(b);
  }

  lemma RunSome(blocks: seq<NewBlock>)
    requires blocks != [] && blocks[0].kind == NewItem
    ensures RunLen(blocks, blocks[0].listId) > 0
  {
  }

  lemma NothingInserted(inherit: Inherit, tab: string, body: Body, idx: nat)
    ensures Inserts(Execute(inherit, tab, body, TextPart([])), body, idx, [], Utf16(""), true)
    ensures Utf16("") == []
  {
    if idx <= |body| { assert Placed(body, idx, []) == body; }
    assert Codes([]) == [];
  }

  lemma {:induction false} InsertsMore(inherit: Inherit, tab: string, body: Body, idx: nat, first: seq<Request>, put: Body,
                    group: seq<NewBlock>, next: nat, rest: seq<NewBlock>) returns (u: Body)
    requires InsertReqs(tab, next, rest).Some? && next == idx + |Utf16(Text(group))|
    requires Inserts(Execute(inherit, tab, body, TextPart(first)), body, idx, put, Utf16(Text(group)), Clean(group))
    ensures var out := Then(first, InsertReqs(tab, next, rest)).value;
      Inserts(Execute(inherit, tab, body, TextPart(out.reqs)), body, idx, u, Utf16(Text(group + rest)), Clean(group + rest)) &&
      out.end == idx + |Utf16(Text(group + rest))|
    decreases |rest|, 1
  {
    hide *;
    var out := InsertReqs(tab, next, rest).value;
    ThenIs(first, InsertReqs(tab, next, rest));
    PartsAppend(first, out.reqs);
    ExecuteAppend(inherit, tab, body, TextPart(first), TextPart(out.reqs));
    CleanAppend(group, rest);
    Utf16Append(Text(group), Text(rest));
    var r := Execute(inherit, tab, body, TextPart(first));
    var v := InsertsText(inherit, tab, if r.Some? then r.value else body, next, rest);
    u := put + v;
    if r.Some? {
      InsertsThen(body, idx, put, Utf16(Text(group)), Clean(group), r.value, v, Utf16(Text(rest)), Clean(rest),
                  Execute(inherit, tab, r.value, TextPart(out.reqs)));
    } else {
      InsertsNone(body, idx, put, v, Utf16(Text(group)), Utf16(Text(rest)), Clean(group), Clean(rest));
    }
  }

  lemma InsertsNone(body: Body, idx: nat, u: Body, v: Body, t: seq<nat>, t2: seq<nat>, c: bool, c2: bool)
    requires Inserts(None, body, idx, u, t, c)
    ensures Inserts(None, body, idx, u + v, t + t2, c && c2)
  {
  }

  /** r is the body with text at index idx. */
  ghost predicate HasText(r: Option<Body>, body: Body, idx: nat, text: seq<nat>)
    requires idx <= |body|
  {
    exists u: Body :: Codes(u) == text && r == Some(Placed(body, idx, u))
  }

  /** Main result for the text: inserted in order at idx, every unit of the body kept, the returned
      index right after it; this is so if and only if no line of an item starts with a tab. When one
      does, units of the text are missing. */
  lemma InsertedText(inherit: Inherit, tab: string, body: Body, idx: nat, blocks: seq<NewBlock>)
    requires InsertReqs(tab, idx, blocks).Some? && idx <= |body|
    ensures var out, text := InsertReqs(tab, idx, blocks).value, Utf16(Text(blocks));
      var r := Execute(inherit, tab, body, TextPart(out.reqs));
      out.end == idx + |text| && (Clean(blocks) <==> HasText(r, body, idx, text)) &&
      (!Clean(blocks) && r.Some? ==> |r.value| < |body| + |text|)
  {
    hide Execute, Utf16, TextPart, Text, Clean, InsertReqs;
    var u := InsertsText(inherit, tab, body, idx, blocks);
    var text := Utf16(Text(blocks));
    var r := Execute(inherit, tab, body, TextPart(InsertReqs(tab, idx, blocks).value.reqs));
    if HasText(r, body, idx, text) {
      var v: Body :| Codes(v) == text && r == Some(Placed(body, idx, v));
      assert |Codes(v)| == |v| == |text|;
      PlacedSize(body, idx, v);
    }
  }

  /** An item whose text starts with a tab loses it, and the index after it is one too high. */
  lemma TabLedItem(inherit: Inherit, tab: string, body: Body, idx: nat, b: NewBlock, s: string) returns (u: Body)
    requires b.kind == NewItem && PlainText(b.runs) == "\t" + s && CleanLines(s + "\n", true) && idx <= |body|
    ensures !Clean([b]) && InsertReqs(tab, idx, [b]).Some?
    ensures var out := InsertReqs(tab, idx, [b]).value;
      Codes(u) == Utf16(s + "\n") && Execute(inherit, tab, body, TextPart(out.reqs)) == Some(Placed(body, idx, u)) &&
      out.end == idx + |u| + 1
  {
    hide Execute, TextPart, ListReqs, StripCodes, Placed;
    assert [b][1..] == [] && RunLen([b], b.listId) == 1 && [b][..1] == [b];
    assert Payload(b) + "" == Payload(b);
    var line := s + "\n";
    assert Line(b) == "\t" + line && ("\t" + line)[1..] == line;
    assert Utf16(Line(b)) == [TAB] + Utf16(line);
    StripList([b]);
    StripPayload(b, []);
    StripLeading([TAB], Utf16(line));
    StripLine(line, true);
    u := RunBody(inherit, tab, body, idx, [b], b.listType);
    assert Codes(u) == Utf16(line) by {
      assert Utf16(Payload(b)) + [] == Utf16(Payload(b));
      assert StripCodes([], true) == [] && Utf16(line) + [] == Utf16(line) by { StripNone(); }
    }
    assert |Codes(u)| == |u|;
    assert Line(b) + "" == Line(b);
    var reqs := ListReqs(tab, idx, [b]) + [Bullets(tab, idx, idx + ListLen([b]), b.listType)];
    assert InsertReqs(tab, idx, [b]) == Some(Output(reqs, idx + ListLen([b]) - ListTabs([b]))) by { assert reqs + [] == reqs; }
  }

  lemma StripNone()
    ensures StripCodes([], true) == []
  {
  }
}
