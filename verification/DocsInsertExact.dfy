/** What the first batch of an insert script asks for, block by block (vfs/docs_map.go,
    mapInsertBlocks, appendInsertStyled): texts, paragraph styles and bullets. */
module DocsInsertExact {
  import opened Inline
  import opened DocsBody
  import opened DocsReplace
  import opened DocsInsert
  import opened Sequences

  /** The tabs that nest an item. */
  function Tabs(b: NewBlock): nat {
    if b.kind == NewItem && b.level > 1 then b.level - 1 else 0
  }

  /** A block's tabs, its text and a newline. */
  predicate IsPayload(b: NewBlock, s: string) {
    var n := Tabs(b);
    |s| > n && (forall i :: 0 <= i < n ==> s[i] == '\t') && s[n..] == PlainText(b.runs) + "\n"
  }

  /** A heading's level, from one to six, names its style; any other block's style is the normal one. */
  predicate IsStyle(b: NewBlock, name: string) {
    if b.kind != NewHeading then name == "NORMAL_TEXT"
    else
      |name| == 9 && name[..8] == "HEADING_" &&
      name[8] as int - '0' as int == if b.level <= 1 then 1 else if b.level >= 6 then 6 else b.level
  }

  /** Two requests that put a block's payload at a place and style its paragraphs from there to `end`. */
  predicate Puts(tab: string, b: NewBlock, at: nat, end: nat, first: Request, second: Request) {
    first.Insert? && first.tab == tab && first.at == at && IsPayload(b, first.text) && end == at + |Utf16(first.text)| &&
    second.SetParagraph? && second.tab == tab && second.start == at && second.end == end && IsStyle(b, second.named)
  }

  /** The first n blocks are the items of one list, as many as there are. */
  predicate IsRun(blocks: seq<NewBlock>, n: nat) {
    0 < n <= |blocks| &&
    (forall i :: 0 <= i < n ==> blocks[i].kind == NewItem && blocks[i].listId == blocks[0].listId) &&
    (n < |blocks| ==> blocks[n].kind != NewItem || blocks[n].listId != blocks[0].listId)
  }

  /** The items of a list one after another, then bullets of the first's type on all of them. */
  ghost predicate ListPut(tab: string, at: nat, items: seq<NewBlock>, reqs: seq<Request>, ats: seq<nat>)
    requires items != []
  {
    |reqs| == 2 * |items| + 1 && |ats| == |items| + 1 && ats[0] == at &&
    (forall i: nat :: i < |items| ==> ItemPut(tab, items, reqs, ats, i)) &&
    reqs[2 * |items|] == Bullets(tab, at, ats[|items|], items[0].listType)
  }

  predicate ItemPut(tab: string, items: seq<NewBlock>, reqs: seq<Request>, ats: seq<nat>, i: nat)
    requires i < |items| && 2 * |items| <= |reqs| && |ats| == |items| + 1
  {
    Puts(tab, items[i], ats[i], ats[i + 1], reqs[2 * i], reqs[2 * i + 1])
  }

  function TabsIn(items: seq<NewBlock>): nat {
    if items == [] then 0 else Tabs(items[0]) + TabsIn(items[1..])
  }

  /** The first batch of the blocks from `at` on: known images are skipped; bullets take the tabs of a
      list away, so what follows it comes that much earlier. */
  ghost predicate Batch(tab: string, at: nat, blocks: seq<NewBlock>, reqs: seq<Request>, end: nat)
    decreases |blocks|
  {
    if blocks == [] then reqs == [] && end == at
    else if blocks[0].kind == NewImage then blocks[0].known && Batch(tab, at, blocks[1..], reqs, end)
    else if blocks[0].kind == NewItem then
      exists n: nat, ats: seq<nat> :: IsRun(blocks, n) && RunPut(tab, at, blocks, n, reqs, ats) &&
        Batch(tab, ats[n] - TabsIn(blocks[..n]), blocks[n..], reqs[2 * n + 1..], end)
    else
      exists next: nat :: |reqs| >= 2 && Puts(tab, blocks[0], at, next, reqs[0], reqs[1]) &&
        Batch(tab, next, blocks[1..], reqs[2..], end)
  }

  ghost predicate RunPut(tab: string, at: nat, blocks: seq<NewBlock>, n: nat, reqs: seq<Request>, ats: seq<nat>)
    requires 0 < n <= |blocks|
  {
    2 * n + 1 <= |reqs| && ListPut(tab, at, blocks[..n], reqs[..2 * n + 1], ats) && TabsIn(blocks[..n]) <= ats[n]
  }

  predicate HasNewImage(blocks: seq<NewBlock>) {
    exists b :: b in blocks && b.kind == NewImage && !b.known
  }

  // ---------------------------------------------------------------------------------------------
  // One block
  // ---------------------------------------------------------------------------------------------

  lemma {:induction false} TabsAre(n: nat)
    ensures |TabsOf(n)| == n && forall i :: 0 <= i < n ==> TabsOf(n)[i] == '\t'
  {
    if n > 0 {
      TabsAre(n - 1);
      assert TabsOf(n)[1..] == TabsOf(n - 1);
    }
  }

  lemma PayloadIs(b: NewBlock)
    ensures IsPayload(b, Payload(b))
  {
    hide PlainText;
    TabsAre(Nesting(b));
    var tabs := if b.kind == NewItem then TabsOf(Nesting(b)) else "";
    assert Payload(b) == tabs + Line(b) && (tabs + Line(b))[|tabs|..] == Line(b);
  }

  lemma NameIs(b: NewBlock)
    ensures IsStyle(b, Named(b))
  {
  }

  lemma OnePuts(tab: string, at: nat, b: NewBlock)
    ensures var reqs := TextPart(InsertOne(tab, at, b));
      |reqs| == 2 && Puts(tab, b, at, at + PayloadLen(b), reqs[0], reqs[1])
  {
    hide TextPart, StylePart, Payload, IsPayload, IsStyle, Named, InlineStyles, Utf16;
    PayloadIs(b);
    NameIs(b);
    StyleParts(tab, at, b.runs);
    var two := [Insert(tab, at, Payload(b)), SetParagraph(tab, at, at + PayloadLen(b), Named(b))];
    PartsAppend(two, InlineStyles(tab, at, b.runs));
    TwoTexts(two[0], two[1]);
    Empty(two);
  }

  lemma TwoTexts(a: Request, b: Request)
    requires !a.SetStyle? && !b.SetStyle?
    ensures TextPart([a, b]) == [a, b]
  {
    assert [a, b][1..] == [b] && [b][1..] == [];
    assert TextPart([b]) == [b] + [];
  }

  lemma OneText(a: Request)
    requires !a.SetStyle?
    ensures TextPart([a]) == [a]
  {
    assert [a][1..] == [];
  }

  // ---------------------------------------------------------------------------------------------
  // A list
  // ---------------------------------------------------------------------------------------------

  /** The requests of items, without their bullets. */
  ghost predicate ItemsPut(tab: string, at: nat, items: seq<NewBlock>, reqs: seq<Request>, ats: seq<nat>) {
    |reqs| == 2 * |items| && |ats| == |items| + 1 && ats[0] == at &&
    forall i: nat :: i < |items| ==> ItemPut(tab, items, reqs, ats, i)
  }

  lemma {:induction false} ListPuts(tab: string, at: nat, items: seq<NewBlock>) returns (ats: seq<nat>)
    ensures ItemsPut(tab, at, items, TextPart(ListReqs(tab, at, items)), ats) && ats[|items|] == at + ListLen(items)
    decreases |items|
  {
    hide TextPart, StylePart, InsertOne, Puts, PayloadLen;
    if items == [] {
      ats := [at];
      NoItems(tab, at);
    } else {
      var next := at + PayloadLen(items[0]);
      OnePuts(tab, at, items[0]);
      var rest := ListPuts(tab, next, items[1..]);
      PartsAppend(InsertOne(tab, at, items[0]), ListReqs(tab, next, items[1..]));
      var one, more := TextPart(InsertOne(tab, at, items[0])), TextPart(ListReqs(tab, next, items[1..]));
      ats := [at] + rest;
      ItemsFirst(tab, at, items, one, more, rest);
    }
  }

  lemma NoItems(tab: string, at: nat)
    ensures TextPart(ListReqs(tab, at, [])) == []
  {
  }

  lemma ItemsFirst(tab: string, at: nat, items: seq<NewBlock>, one: seq<Request>, more: seq<Request>, rest: seq<nat>)
    requires items != [] && |one| == 2 && rest != [] && Puts(tab, items[0], at, rest[0], one[0], one[1])
    requires ItemsPut(tab, rest[0], items[1..], more, rest)
    ensures ItemsPut(tab, at, items, one + more, [at] + rest)
  {
    hide Puts;
    var reqs, ats := one + more, [at] + rest;
    forall i: nat | i < |items| ensures ItemPut(tab, items, reqs, ats, i) {
      if i > 0 {
        assert ItemPut(tab, items[1..], more, rest, i - 1);
        assert reqs[2 * i] == more[2 * (i - 1)] && reqs[2 * i + 1] == more[2 * (i - 1) + 1];
      }
    }
  }

  lemma {:induction false} RunIs(blocks: seq<NewBlock>, id: string)
    ensures var n := RunLen(blocks, id);
      (forall i :: 0 <= i < n ==> blocks[i].kind == NewItem && blocks[i].listId == id) &&
      (n < |blocks| ==> blocks[n].kind != NewItem || blocks[n].listId != id)
  {
    if blocks != [] && blocks[0].kind == NewItem && blocks[0].listId == id {
      RunIs(blocks[1..], id);
      var n := RunLen(blocks[1..], id);
      forall i | 0 <= i < n + 1 ensures blocks[i].kind == NewItem && blocks[i].listId == id {
        if i > 0 { assert blocks[i] == blocks[1..][i - 1]; }
      }
    }
  }

  lemma {:induction false} TabsSame(items: seq<NewBlock>)
    requires forall b :: b in items ==> b.kind == NewItem
    ensures TabsIn(items) == ListTabs(items)
  {
    if items != [] {
      assert items[0] in items;
      TabsSame(items[1..]);
    }
  }

  // ---------------------------------------------------------------------------------------------
  // All the blocks
  // ---------------------------------------------------------------------------------------------

  lemma ImageMore(blocks: seq<NewBlock>, n: nat)
    requires n <= |blocks| && forall i :: 0 <= i < n ==> blocks[i].kind != NewImage || blocks[i].known
    ensures HasNewImage(blocks) <==> HasNewImage(blocks[n..])
  {
    if HasNewImage(blocks) {
      var b :| b in blocks && b.kind == NewImage && !b.known;
      var i :| 0 <= i < |blocks| && blocks[i] == b;
      assert blocks[n..][i - n] == b;
    }
  }

  /** There is no script if the document lacks an image; else its first batch is what it must be. */
  ghost predicate Right(tab: string, at: nat, blocks: seq<NewBlock>) {
    var r := InsertReqs(tab, at, blocks);
    (r.None? <==> HasNewImage(blocks)) && (r.Some? ==> Batch(tab, at, blocks, TextPart(r.value.reqs), r.value.end))
  }

  lemma NothingPut(tab: string, at: nat)
    ensures Right(tab, at, [])
  {
  }

  lemma Step(tab: string, at: nat, blocks: seq<NewBlock>)
    requires blocks != []
    ensures var b := blocks[0];
      match b.kind
      case NewImage => InsertReqs(tab, at, blocks) == if b.known then InsertReqs(tab, at, blocks[1..]) else None
      case NewItem =>
        (var n := RunLen(blocks, b.listId);
         0 < n && ListTabs(blocks[..n]) <= ListLen(blocks[..n]) && (forall x :: x in blocks[..n] ==> x.kind == NewItem) &&
         InsertReqs(tab, at, blocks) ==
         Then(ListReqs(tab, at, blocks[..n]) + [Bullets(tab, at, at + ListLen(blocks[..n]), b.listType)],
              InsertReqs(tab, at + ListLen(blocks[..n]) - ListTabs(blocks[..n]), blocks[n..])))
      case _ =>
        InsertReqs(tab, at, blocks) == Then(InsertOne(tab, at, b), InsertReqs(tab, at + PayloadLen(b), blocks[1..]))
  {
    hide InsertOne, ListReqs, ListLen, ListTabs, Then, PayloadLen;
    if blocks[0].kind == NewItem { ListUnits(blocks[..RunLen(blocks, blocks[0].listId)]); }
  }

  lemma ImageBatch(tab: string, at: nat, blocks: seq<NewBlock>)
    requires blocks != [] && blocks[0].kind == NewImage && Right(tab, at, blocks[1..])
    ensures Right(tab, at, blocks)
  {
    hide TextPart, InsertReqs, HasNewImage;
    Step(tab, at, blocks);
    if blocks[0].known { ImageMore(blocks, 1); } else { NewImageFirst(blocks); }
  }

  lemma OneBatch(tab: string, at: nat, blocks: seq<NewBlock>)
    requires blocks != [] && blocks[0].kind != NewImage && blocks[0].kind != NewItem
    requires Right(tab, at + PayloadLen(blocks[0]), blocks[1..])
    ensures Right(tab, at, blocks)
  {
    hide TextPart, StylePart, InsertReqs, HasNewImage, InsertOne, PayloadLen, Puts;
    Step(tab, at, blocks);
    ImageMore(blocks, 1);
    var b, next := blocks[0], at + PayloadLen(blocks[0]);
    var more := InsertReqs(tab, next, blocks[1..]);
    if more.Some? {
      OnePuts(tab, at, b);
      PartsAppend(InsertOne(tab, at, b), more.value.reqs);
      var one, rest := TextPart(InsertOne(tab, at, b)), TextPart(more.value.reqs);
      assert (one + rest)[2..] == rest;
    }
  }

  lemma ListStep(tab: string, at: nat, blocks: seq<NewBlock>) returns (n: nat)
    requires blocks != [] && blocks[0].kind == NewItem
    ensures 0 < n <= |blocks| && IsRun(blocks, n) && n == RunLen(blocks, blocks[0].listId) && ListTabs(blocks[..n]) <= ListLen(blocks[..n])
  {
    hide InsertReqs, ListTabs, ListLen, RunLen;
    n := RunLen(blocks, blocks[0].listId);
    Step(tab, at, blocks);
    RunIs(blocks, blocks[0].listId);
  }

  /** Main result: there is no script if and only if the document lacks an image; else the first batch
      puts every block's text, paragraph style and bullets where they belong. */
  lemma {:induction false} InsertExactly(tab: string, at: nat, blocks: seq<NewBlock>)
    ensures Right(tab, at, blocks)
    decreases |blocks|
  {
    if blocks == [] {
      NothingPut(tab, at);
    } else {
      hide *;
      match blocks[0].kind {
        case NewImage =>
          InsertExactly(tab, at, blocks[1..]);
          ImageBatch(tab, at, blocks);
        case NewItem =>
          var n := ListStep(tab, at, blocks);
          InsertExactly(tab, at + ListLen(blocks[..n]) - ListTabs(blocks[..n]), blocks[n..]);
          ListBatch(tab, at, blocks, n);
        case _ =>
          InsertExactly(tab, at + PayloadLen(blocks[0]), blocks[1..]);
          OneBatch(tab, at, blocks);
      }
    }
  }

  lemma NewImageFirst(blocks: seq<NewBlock>)
    requires blocks != [] && blocks[0].kind == NewImage && !blocks[0].known
    ensures HasNewImage(blocks)
  {
    assert blocks[0] in blocks;
  }

  lemma ListBatch(tab: string, at: nat, blocks: seq<NewBlock>, n: nat)
    requires blocks != [] && blocks[0].kind == NewItem && n == RunLen(blocks, blocks[0].listId) && IsRun(blocks, n)
    requires ListTabs(blocks[..n]) <= ListLen(blocks[..n])
    requires Right(tab, at + ListLen(blocks[..n]) - ListTabs(blocks[..n]), blocks[n..])
    ensures Right(tab, at, blocks)
  {
    hide TextPart, StylePart, ListReqs, ListLen, ListTabs, RunLen, InsertReqs, TabsIn, HasNewImage, ListPut, ItemPut;
    var items := blocks[..n];
    Step(tab, at, blocks);
    ImageMore(blocks, n);
    var more := InsertReqs(tab, at + ListLen(items) - ListTabs(items), blocks[n..]);
    if more.Some? {
      var ats := ListPuts(tab, at, items);
      TabsSame(items);
      var put, rest := TextPart(ListReqs(tab, at, items)), TextPart(more.value.reqs);
      ListParts(tab, at, items, ats[n], blocks[0].listType, more.value.reqs);
      BulletsPut(tab, at, items, put, ats);
      var bullets := [Bullets(tab, at, ats[n], blocks[0].listType)];
      assert (put + bullets + rest)[..2 * n + 1] == put + bullets && (put + bullets + rest)[2 * n + 1..] == rest;
      assert RunPut(tab, at, blocks, n, put + bullets + rest, ats);
    }
  }

  lemma ListParts(tab: string, at: nat, items: seq<NewBlock>, end: nat, listType: string, more: seq<Request>)
    ensures var bullets := [Bullets(tab, at, end, listType)];
      TextPart(ListReqs(tab, at, items) + bullets + more) == TextPart(ListReqs(tab, at, items)) + bullets + TextPart(more)
  {
    hide TextPart, StylePart, ListReqs;
    var bullets := [Bullets(tab, at, end, listType)];
    PartsAppend(ListReqs(tab, at, items), bullets);
    PartsAppend(ListReqs(tab, at, items) + bullets, more);
    OneText(bullets[0]);
  }

  lemma BulletsPut(tab: string, at: nat, items: seq<NewBlock>, put: seq<Request>, ats: seq<nat>)
    requires items != [] && ItemsPut(tab, at, items, put, ats)
    ensures |put| == 2 * |items| && |ats| == |items| + 1
    ensures ListPut(tab, at, items, put + [Bullets(tab, at, ats[|items|], items[0].listType)], ats)
  {
    hide Puts;
    var reqs := put + [Bullets(tab, at, ats[|items|], items[0].listType)];
    forall i: nat | i < |items| ensures ItemPut(tab, items, reqs, ats, i) { assert ItemPut(tab, items, put, ats, i); }
  }
}
