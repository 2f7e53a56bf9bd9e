/** The insert script of table-free blocks (vfs/docs_map.go, mapInsertBlocks). Its requests run as
    two batches: text, paragraph styles and bullets first, text styles after. */
module DocsInsert {
  import opened Inline
  import opened DocsBody
  import opened DocsReplace
  import opened Sequences

  datatype NewKind = NewImage | NewItem | NewHeading | NewText

  /** A block to insert. `known` says an image has an object id of the document. */
  datatype NewBlock = NewBlock(kind: NewKind, known: bool, listId: string, listType: string, level: int,
                               runs: seq<Inline.Run>)

  /** A script, and the index after what it inserts. */
  datatype Output = Output(reqs: seq<Request>, end: nat)

  // ---------------------------------------------------------------------------------------------
  // The script
  // ---------------------------------------------------------------------------------------------

  function TabsOf(n: nat): string {
    if n == 0 then "" else "\t" + TabsOf(n - 1)
  }

  function Nesting(b: NewBlock): nat {
    if b.level > 1 then b.level - 1 else 0
  }

  function ClampHeading(level: int): (n: int)
    ensures 1 <= n <= 6
  {
    if level < 1 then 1 else if level > 6 then 6 else level
  }

  function Named(b: NewBlock): string {
    if b.kind == NewHeading then "HEADING_" + ["0123456"[ClampHeading(b.level)]] else "NORMAL_TEXT"
  }

  function Line(b: NewBlock): string {
    PlainText(b.runs) + "\n"
  }

  function Payload(b: NewBlock): string {
    (if b.kind == NewItem then TabsOf(Nesting(b)) else "") + Line(b)
  }

  function PayloadLen(b: NewBlock): nat {
    |Utf16(Payload(b))|
  }

  function InsertOne(tab: string, idx: nat, b: NewBlock): seq<Request> {
    [Insert(tab, idx, Payload(b)), SetParagraph(tab, idx, idx + PayloadLen(b), Named(b))] + InlineStyles(tab, idx, b.runs)
  }

  /** The leading items of one list. */
  function RunLen(blocks: seq<NewBlock>, listId: string): (n: nat)
    ensures n <= |blocks|
    ensures forall i :: 0 <= i < n ==> blocks[i].kind == NewItem
  {
    if blocks == [] || blocks[0].kind != NewItem || blocks[0].listId != listId then 0
    else 1 + RunLen(blocks[1..], listId)
  }

  function ListReqs(tab: string, idx: nat, items: seq<NewBlock>): seq<Request>
    decreases |items|
  {
    if items == [] then [] else InsertOne(tab, idx, items[0]) + ListReqs(tab, idx + PayloadLen(items[0]), items[1..])
  }

  function ListLen(items: seq<NewBlock>): nat {
    if items == [] then 0 else PayloadLen(items[0]) + ListLen(items[1..])
  }

  function ListTabs(items: seq<NewBlock>): nat {
    if items == [] then 0 else Nesting(items[0]) + ListTabs(items[1..])
  }

  lemma TabsUnits(n: nat)
    ensures |Utf16(TabsOf(n))| == n
    ensures forall i :: 0 <= i < n ==> Utf16(TabsOf(n))[i] == TAB
  {
    if n > 0 {
      TabsUnits(n - 1);
      assert TabsOf(n)[1..] == TabsOf(n - 1);
    }
  }

  lemma PayloadUnits(b: NewBlock)
    requires b.kind == NewItem
    ensures PayloadLen(b) == Nesting(b) + |Utf16(Line(b))|
  {
    Utf16Append(TabsOf(Nesting(b)), Line(b));
    TabsUnits(Nesting(b));
  }

  lemma {:induction false} ListUnits(items: seq<NewBlock>)
    requires forall b :: b in items ==> b.kind == NewItem
    ensures ListTabs(items) <= ListLen(items)
  {
    if items != [] {
      assert items[0] in items;
      PayloadUnits(items[0]);
      ListUnits(items[1..]);
    }
  }

  function Then(reqs: seq<Request>, rest: Option<Output>): Option<Output> {
    match rest
    case None => None
    case Some(more) => Some(Output(reqs + more.reqs, more.end))
  }

  /** The script of the blocks from index idx on; None is an image the document does not have. */
  function InsertReqs(tab: string, idx: nat, blocks: seq<NewBlock>): Option<Output>
    decreases |blocks|
  {
    if blocks == [] then Some(Output([], idx))
    else
      var b := blocks[0];
      match b.kind
      case NewImage => if b.known then InsertReqs(tab, idx, blocks[1..]) else None
      case NewItem =>
        var n := RunLen(blocks, b.listId);
        var items := blocks[..n];
        ListUnits(items);
        Then(ListReqs(tab, idx, items) + [Bullets(tab, idx, idx + ListLen(items), b.listType)],
             InsertReqs(tab, idx + ListLen(items) - ListTabs(items), blocks[n..]))
      case _ => Then(InsertOne(tab, idx, b), InsertReqs(tab, idx + PayloadLen(b), blocks[1..]))
  }

  method AppendInsertStyled(reqs: seq<Request>, idx: nat, tab: string, b: NewBlock) returns (out: seq<Request>, next: nat)
    ensures out == reqs + InsertOne(tab, idx, b) && next == idx + PayloadLen(b)
  {
    var n := DocsIndexLen(Payload(b));
    out := reqs + [Insert(tab, idx, Payload(b)), SetParagraph(tab, idx, idx + n, Named(b))];
    var styles := MapInlineStyles(idx, tab, b.runs);
    out := out + styles;
    next := idx + n;
  }

  lemma ThenThen(a: seq<Request>, b: seq<Request>, rest: Option<Output>)
    ensures Then(a, Then(b, rest)) == Then(a + b, rest)
    ensures Then([], rest) == rest
  {
    if rest.Some? { assert a + (b + rest.value.reqs) == a + b + rest.value.reqs && [] + rest.value.reqs == rest.value.reqs; }
  }

  method MapListRun(reqs: seq<Request>, start: nat, tab: string, items: seq<NewBlock>, listType: string)
    returns (out: seq<Request>, next: nat)
    requires forall b :: b in items ==> b.kind == NewItem
    ensures out == reqs + (ListReqs(tab, start, items) + [Bullets(tab, start, start + ListLen(items), listType)])
    ensures ListTabs(items) <= ListLen(items) && next == start + ListLen(items) - ListTabs(items)
  {
    hide InsertOne, PayloadLen, Nesting;
    out, next := reqs, start;
    var tabUnits := 0;
    for i := 0 to |items|
      invariant tabUnits >= 0
      invariant out + ListReqs(tab, next, items[i..]) == reqs + ListReqs(tab, start, items)
      invariant next + ListLen(items[i..]) == start + ListLen(items)
      invariant tabUnits + ListTabs(items[i..]) == ListTabs(items)
    {
      assert items[i..][1..] == items[i + 1..];
      tabUnits := tabUnits + Nesting(items[i]);
      Assoc(out, InsertOne(tab, next, items[i]), ListReqs(tab, next + PayloadLen(items[i]), items[i + 1..]));
      out, next := AppendInsertStyled(out, next, tab, items[i]);
    }
    ListUnits(items);
    assert out == reqs + ListReqs(tab, start, items);
    Assoc(reqs, ListReqs(tab, start, items), [Bullets(tab, start, next, listType)]);
    out := out + [Bullets(tab, start, next, listType)];
    next := next - tabUnits;
  }

  method MapInsertBlocks(blocks: seq<NewBlock>, startIdx: int, tab: string) returns (r: Option<Output>)
    ensures r == InsertReqs(tab, if startIdx > 1 then startIdx else 1, blocks)
  {
    hide InsertOne, ListReqs, ListLen, ListTabs, Then, PayloadLen, InsertReqs, RunLen;
    var start: nat := if startIdx > 1 then startIdx else 1;
    var idx: nat := start;
    var reqs: seq<Request> := [];
    var i := 0;
    assert blocks[0..] == blocks;
    ThenThen([], [], InsertReqs(tab, idx, blocks));
    while i < |blocks|
      invariant 0 <= i <= |blocks|
      invariant InsertReqs(tab, start, blocks) == Then(reqs, InsertReqs(tab, idx, blocks[i..]))
    {
      var b := blocks[i];
      InsertStep(tab, idx, blocks, i, reqs);
      match b.kind {
        case NewImage =>
          if !b.known {
            ThenNone(reqs, 0);
            return None;
          }
          i := i + 1;
        case NewItem =>
          var n := RunLen(blocks[i..], b.listId);
          var items := blocks[i..][..n];
          reqs, idx := MapListRun(reqs, idx, tab, items, b.listType);
          i := i + n;
        case _ =>
          reqs, idx := AppendInsertStyled(reqs, idx, tab, b);
          i := i + 1;
      }
    }
    NoBlocks(tab, idx, blocks);
    ThenNone(reqs, idx);
    r := Some(Output(reqs, idx));
  }

  lemma NoBlocks(tab: string, idx: nat, blocks: seq<NewBlock>)
    ensures InsertReqs(tab, idx, blocks[|blocks|..]) == Some(Output([], idx))
  {
  }

  /** What the next block, or list run, adds. */
  lemma InsertStep(tab: string, idx: nat, blocks: seq<NewBlock>, i: nat, reqs: seq<Request>)
    requires i < |blocks|
    ensures var b := blocks[i];
      b.kind == NewImage ==>
        InsertReqs(tab, idx, blocks[i..]) == (if b.known then InsertReqs(tab, idx, blocks[i + 1..]) else None)
    ensures var b := blocks[i];
      b.kind == NewItem ==>
        (var n := RunLen(blocks[i..], b.listId);
         var items := blocks[i..][..n];
         0 < n && i + n <= |blocks| && (forall x :: x in items ==> x.kind == NewItem) && ListTabs(items) <= ListLen(items) &&
         Then(reqs, InsertReqs(tab, idx, blocks[i..])) ==
         Then(reqs + (ListReqs(tab, idx, items) + [Bullets(tab, idx, idx + ListLen(items), b.listType)]),
              InsertReqs(tab, idx + ListLen(items) - ListTabs(items), blocks[i + n..])))
    ensures var b := blocks[i];
      b.kind != NewImage && b.kind != NewItem ==>
        Then(reqs, InsertReqs(tab, idx, blocks[i..])) ==
        Then(reqs + InsertOne(tab, idx, b), InsertReqs(tab, idx + PayloadLen(b), blocks[i + 1..]))
  {
    hide InsertOne, ListReqs, ListLen, ListTabs, Then, PayloadLen;
    Suffix(blocks, i);
    var b := blocks[i];
    if b.kind == NewItem {
      var n := RunLen(blocks[i..], b.listId);
      var items := blocks[i..][..n];
      assert blocks[i..][n..] == blocks[i + n..];
      ListUnits(items);
      ThenThen(reqs, ListReqs(tab, idx, items) + [Bullets(tab, idx, idx + ListLen(items), b.listType)],
               InsertReqs(tab, idx + ListLen(items) - ListTabs(items), blocks[i + n..]));
    } else if b.kind != NewImage {
      ThenThen(reqs, InsertOne(tab, idx, b), InsertReqs(tab, idx + PayloadLen(b), blocks[i + 1..]));
    }
  }

  lemma ThenNone(reqs: seq<Request>, idx: nat)
    ensures Then(reqs, None) == None && Then(reqs, Some(Output([], idx))) == Some(Output(reqs, idx))
  {
    assert reqs + [] == reqs;
  }

  /** splitTextStyles. */
  function TextPart(reqs: seq<Request>): seq<Request> {
    if reqs == [] then [] else (if reqs[0].SetStyle? then [] else [reqs[0]]) + TextPart(reqs[1..])
  }

  function StylePart(reqs: seq<Request>): seq<Request> {
    if reqs == [] then [] else (if reqs[0].SetStyle? then [reqs[0]] else []) + StylePart(reqs[1..])
  }

  method SplitTextStyles(reqs: seq<Request>) returns (body: seq<Request>, styles: seq<Request>)
    ensures body == TextPart(reqs) && styles == StylePart(reqs)
  {
    hide TextPart, StylePart;
    body, styles := [], [];
    assert reqs[0..] == reqs;
    for i := 0 to |reqs|
      invariant TextPart(reqs) == body + TextPart(reqs[i..])
      invariant StylePart(reqs) == styles + StylePart(reqs[i..])
    {
      SplitStep(reqs, i, body, styles);
      if reqs[i].SetStyle? {
        styles := styles + [reqs[i]];
        continue;
      }
      body := body + [reqs[i]];
    }
    SplitEnd(reqs, body, styles);
  }

  lemma SplitStep(reqs: seq<Request>, i: nat, body: seq<Request>, styles: seq<Request>)
    requires i < |reqs|
    ensures body + TextPart(reqs[i..]) == (if reqs[i].SetStyle? then body else body + [reqs[i]]) + TextPart(reqs[i + 1..])
    ensures styles + StylePart(reqs[i..]) == (if reqs[i].SetStyle? then styles + [reqs[i]] else styles) + StylePart(reqs[i + 1..])
  {
    Suffix(reqs, i);
    Assoc(body, [reqs[i]], TextPart(reqs[i + 1..]));
    Assoc(styles, [reqs[i]], StylePart(reqs[i + 1..]));
    Empty(TextPart(reqs[i + 1..]));
    Empty(StylePart(reqs[i + 1..]));
  }

  lemma SplitEnd(reqs: seq<Request>, body: seq<Request>, styles: seq<Request>)
    ensures body + TextPart(reqs[|reqs|..]) == body && styles + StylePart(reqs[|reqs|..]) == styles
    ensures body + TextPart([]) == body && styles + StylePart([]) == styles
  {
  }

  lemma {:induction false} PartsAppend(a: seq<Request>, b: seq<Request>)
    ensures TextPart(a + b) == TextPart(a) + TextPart(b) && StylePart(a + b) == StylePart(a) + StylePart(b)
  {
    if a == [] {
      Empty(b);
    } else {
      Uncons(a, b);
      PartsAppend(a[1..], b);
      Assoc(if a[0].SetStyle? then [] else [a[0]], TextPart(a[1..]), TextPart(b));
      Assoc(if a[0].SetStyle? then [a[0]] else [], StylePart(a[1..]), StylePart(b));
    }
  }

  lemma {:induction false} StyleParts(tab: string, start: nat, runs: seq<Inline.Run>)
    ensures TextPart(InlineStyles(tab, start, runs)) == [] && StylePart(InlineStyles(tab, start, runs)) == InlineStyles(tab, start, runs)
    decreases |runs|
  {
    hide HasMarks, StyleOf, Utf16;
    if runs != [] {
      var n := |Utf16(runs[0].text)|;
      StyleParts(tab, start + n, runs[1..]);
      PartsAppend(if n > 0 && HasMarks(runs[0]) then [SetStyle(tab, start, start + n, StyleOf(runs[0]))] else [],
                  InlineStyles(tab, start + n, runs[1..]));
    }
  }
}
