/** mapReplaceBlocks on a whole document (vfs/docs_map.go), and what its script does to it. */
module DocsReplaceAll {
  import opened Inline
  import opened DocsBody
  import opened DocsReplace
  import opened DocsBlocks
  import opened Sequences

  const NO_BLOCK := Block("", TextKind, "", [], None, 0, 0)

  /** The block of an id: the last one written, or the zero block. */
  function BlockOf(blocks: seq<Block>, id: string): Block {
    if blocks == [] then NO_BLOCK
    else if blocks[|blocks| - 1].id == id then blocks[|blocks| - 1]
    else BlockOf(blocks[..|blocks| - 1], id)
  }

  datatype Item = Item(loc: Location, b: Block)

  const ByLocation: Item -> int := (x: Item) => x.loc.start

  function Items(locations: seq<Location>, blocks: seq<Block>): seq<Item> {
    if locations == [] then []
    else
      (if locations[0].kind == ImageKind then [] else [Item(locations[0], BlockOf(blocks, locations[0].id))])
      + Items(locations[1..], blocks)
  }

  function After(reqs: seq<Request>, rest: Option<seq<Request>>): Option<seq<Request>> {
    match rest
    case None => None
    case Some(more) => Some(reqs + more)
  }

  function AllScripts(items: seq<Item>): Option<seq<Request>> {
    if items == [] then Some([])
    else
      match BlockEdits(items[0].loc, items[0].b)
      case None => None
      case Some(es) => After(Scripts(items[0].loc.tab, es), AllScripts(items[1..]))
  }

  function Lookup(byId: map<string, Block>, id: string): Block {
    if id in byId then byId[id] else NO_BLOCK
  }

  method IndexBlocks(blocks: seq<Block>) returns (byId: map<string, Block>)
    ensures forall id :: Lookup(byId, id) == BlockOf(blocks, id)
  {
    byId := map[];
    for i := 0 to |blocks|
      invariant forall id :: Lookup(byId, id) == BlockOf(blocks[..i], id)
    {
      assert blocks[..i + 1][..i] == blocks[..i];
      byId := byId[blocks[i].id := blocks[i]];
    }
    assert blocks[..|blocks|] == blocks;
  }

  lemma ItemsStep(locations: seq<Location>, i: nat, blocks: seq<Block>)
    requires i < |locations|
    ensures Items(locations[i..], blocks)
         == (if locations[i].kind == ImageKind then [] else [Item(locations[i], BlockOf(blocks, locations[i].id))])
            + Items(locations[i + 1..], blocks)
  {
    hide BlockOf;
    assert locations[i..][1..] == locations[i + 1..];
  }

  method CollectItems(locations: seq<Location>, blocks: seq<Block>) returns (items: seq<Item>)
    ensures items == Items(locations, blocks)
  {
    hide BlockOf, Lookup, Items;
    var byId := IndexBlocks(blocks);
    items := [];
    assert locations[0..] == locations;
    for i := 0 to |locations|
      invariant Items(locations, blocks) == items + Items(locations[i..], blocks)
    {
      ItemsStep(locations, i, blocks);
      if locations[i].kind != ImageKind {
        items := items + [Item(locations[i], Lookup(byId, locations[i].id))];
      }
    }
    assert locations[|locations|..] == [];
    ItemsNone(blocks);
  }

  lemma ItemsNone(blocks: seq<Block>)
    ensures Items([], blocks) == []
  {
  }

  method MapReplaceBlocks(locations: seq<Location>, blocks: seq<Block>) returns (r: Option<seq<Request>>)
    ensures r == AllScripts(Sort(Items(locations, blocks), ByLocation))
    ensures r.Some? <==>
      forall loc, b :: loc in locations && loc.kind != ImageKind && LastWritten(blocks, loc.id, b) ==> CanWrite(loc, b)
  {
    hide *;
    ScriptsExactly(locations, blocks);
    var items := CollectItems(locations, blocks);
    r := ScriptItems(Sort(items, ByLocation));
  }

  lemma AfterAfter(a: seq<Request>, b: seq<Request>, rest: Option<seq<Request>>)
    ensures After(a, After(b, rest)) == After(a + b, rest)
    ensures After([], rest) == rest
  {
    if rest.Some? { assert a + (b + rest.value) == a + b + rest.value && [] + rest.value == rest.value; }
  }

  method ScriptItems(items: seq<Item>) returns (r: Option<seq<Request>>)
    ensures r == AllScripts(items)
  {
    hide BlockEdits, Scripts, After;
    var reqs: seq<Request> := [];
    assert items[0..] == items;
    AfterAfter([], [], AllScripts(items));
    for i := 0 to |items|
      invariant AllScripts(items) == After(reqs, AllScripts(items[i..]))
    {
      assert items[i..][1..] == items[i + 1..];
      var part := MapReplaceBlock(items[i].loc, items[i].b);
      if part.None? {
        AfterNone(reqs);
        return None;
      }
      AfterAfter(reqs, part.value, AllScripts(items[i + 1..]));
      reqs := reqs + part.value;
    }
    AfterNone(reqs);
    r := Some(reqs);
  }

  lemma AfterNone(reqs: seq<Request>)
    ensures After(reqs, None) == None && After(reqs, Some([])) == Some(reqs)
  {
    assert reqs + [] == reqs;
  }

  // ---------------------------------------------------------------------------------------------
  // The edits of one tab, the last of the body first
  // ---------------------------------------------------------------------------------------------

  function TabEdits(items: seq<Item>, tab: string): seq<Edit> {
    if items == [] then []
    else
      (if items[0].loc.tab == tab && BlockEdits(items[0].loc, items[0].b).Some?
       then BlockEdits(items[0].loc, items[0].b).value else [])
      + TabEdits(items[1..], tab)
  }

  /** Edits from the end of the body to its start, below hi, without overlap. */
  predicate Descending(es: seq<Edit>, hi: nat)
    decreases |es|
  {
    es == [] || (es[0].start <= es[0].stop <= hi && Descending(es[1..], es[0].start))
  }

  lemma {:induction false} DescendingWeaker(es: seq<Edit>, lo: nat, hi: nat)
    requires Descending(es, lo) && lo <= hi
    ensures Descending(es, hi)
  {
  }

  lemma {:induction false} DescendingAppend(a: seq<Edit>, lo: nat, b: seq<Edit>, hi: nat)
    requires Descending(a, hi) && Descending(b, lo) && lo <= hi && forall e :: e in a ==> lo <= e.start
    ensures Descending(a + b, hi)
    decreases |a|
  {
    if a == [] {
      Empty(b);
      DescendingWeaker(b, lo, hi);
    } else {
      Uncons(a, b);
      DescendingAppend(a[1..], lo, b, a[0].start);
    }
  }

  function Reverse<T>(xs: seq<T>): (r: seq<T>)
    ensures |r| == |xs|
  {
    if xs == [] then [] else Reverse(xs[1..]) + [xs[0]]
  }

  lemma {:induction false} AscendingLast(at: nat, es: seq<Edit>, e: Edit, size: nat)
    requires Ascending(at, es, e.start) && e.start <= e.stop <= size
    ensures Ascending(at, es + [e], size)
    decreases |es|
  {
    if es == [] {
      assert es + [e] == [e] && [e][1..] == [];
    } else {
      assert (es + [e])[1..] == es[1..] + [e];
      AscendingLast(es[0].stop, es[1..], e, size);
    }
  }

  lemma {:induction false} ReverseAscends(es: seq<Edit>, hi: nat)
    requires Descending(es, hi)
    ensures Ascending(0, Reverse(es), hi)
    decreases |es|
  {
    if es != [] {
      ReverseAscends(es[1..], es[0].start);
      AscendingLast(0, Reverse(es[1..]), es[0], hi);
    }
  }

  lemma {:induction false} BackwardLast(tab: string, es: seq<Edit>, e: Edit)
    ensures BackwardScript(tab, es + [e]) == Script(tab, e) + BackwardScript(tab, es)
    decreases |es|
  {
    hide Script;
    if es == [] {
      assert es + [e] == [e] && [e][1..] == [];
    } else {
      assert (es + [e])[1..] == es[1..] + [e];
      BackwardLast(tab, es[1..], e);
    }
  }

  lemma {:induction false} ScriptsAreBackward(tab: string, es: seq<Edit>)
    ensures Scripts(tab, es) == BackwardScript(tab, Reverse(es))
    decreases |es|
  {
    hide Script;
    if es != [] {
      ScriptsAreBackward(tab, es[1..]);
      BackwardLast(tab, Reverse(es[1..]), es[0]);
    }
  }

  // ---------------------------------------------------------------------------------------------
  // Requests on other tabs do nothing here
  // ---------------------------------------------------------------------------------------------

  lemma {:induction false} StylesTab(tab: string, start: nat, runs: seq<Inline.Run>)
    ensures forall q :: q in InlineStyles(tab, start, runs) ==> q.tab == tab
    decreases |runs|
  {
    if runs != [] { StylesTab(tab, start + |Utf16(runs[0].text)|, runs[1..]); }
  }

  lemma {:induction false} ScriptsTab(tab: string, es: seq<Edit>)
    ensures forall q :: q in Scripts(tab, es) ==> q.tab == tab
    decreases |es|
  {
    if es != [] {
      StylesTab(tab, es[0].start, es[0].runs);
      ScriptsTab(tab, es[1..]);
    }
  }

  lemma {:induction false} OtherTab(inherit: Inherit, tab: string, body: Body, reqs: seq<Request>)
    requires forall q :: q in reqs ==> q.tab != tab
    ensures Execute(inherit, tab, body, reqs) == Some(body)
    decreases |reqs|
  {
    if reqs != [] { OtherTab(inherit, tab, body, reqs[1..]); }
  }

  lemma {:induction false} ScriptsAppend(tab: string, a: seq<Edit>, b: seq<Edit>)
    ensures Scripts(tab, a + b) == Scripts(tab, a) + Scripts(tab, b)
    decreases |a|
  {
    hide Script;
    if a == [] {
      Empty(b);
    } else {
      Uncons(a, b);
      ScriptsAppend(tab, a[1..], b);
      Assoc(Script(tab, a[0]), Scripts(tab, a[1..]), Scripts(tab, b));
    }
  }

  /** On each tab, the whole script does what the scripts of that tab's edits do. */
  lemma {:induction false} TabScript(inherit: Inherit, tab: string, body: Body, items: seq<Item>)
    requires AllScripts(items).Some?
    ensures Execute(inherit, tab, body, AllScripts(items).value) == Execute(inherit, tab, body, Scripts(tab, TabEdits(items, tab)))
    decreases |items|
  {
    if items != [] {
      hide Scripts, BlockEdits, Execute;
      var loc, es := items[0].loc, BlockEdits(items[0].loc, items[0].b).value;
      var first, rest := Scripts(loc.tab, es), AllScripts(items[1..]).value;
      ExecuteAppend(inherit, tab, body, first, rest);
      ScriptsTab(loc.tab, es);
      if loc.tab == tab {
        ScriptsAppend(tab, es, TabEdits(items[1..], tab));
        ExecuteAppend(inherit, tab, body, first, Scripts(tab, TabEdits(items[1..], tab)));
        if Execute(inherit, tab, body, first).Some? {
          TabScript(inherit, tab, Execute(inherit, tab, body, first).value, items[1..]);
        }
      } else {
        OtherTab(inherit, tab, body, first);
        TabScript(inherit, tab, body, items[1..]);
        assert [] + TabEdits(items[1..], tab) == TabEdits(items[1..], tab);
      }
    }
  }

  // ---------------------------------------------------------------------------------------------
  // Spans that do not overlap
  // ---------------------------------------------------------------------------------------------

  predicate ClearOf(a: nat, aEnd: nat, b: nat, bEnd: nat) {
    aEnd <= b || bEnd <= a
  }

  predicate CellsOf(loc: Location) {
    (forall c :: c in loc.cells ==> loc.start <= c.start < c.end <= loc.end) && CellsApart(loc.cells)
  }

  predicate CellsApart(cells: seq<Cell>) {
    cells == [] ||
    ((forall c :: c in cells[1..] ==> ClearOf(cells[0].start, cells[0].end, c.start, c.end)) && CellsApart(cells[1..]))
  }

  /** The items of a tab lie in a body of `size` units, their cells inside them, without overlap. */
  predicate Apart(items: seq<Item>, tab: string, size: nat) {
    items == [] ||
    (Apart(items[1..], tab, size) &&
     (items[0].loc.tab == tab ==>
        items[0].loc.start < items[0].loc.end <= size && CellsOf(items[0].loc) &&
        forall y :: y in items[1..] && y.loc.tab == tab ==>
          ClearOf(items[0].loc.start, items[0].loc.end, y.loc.start, y.loc.end)))
  }

  lemma InsertIn<T>(x: T, xs: seq<T>, key: T -> int, y: T)
    ensures y in DocsBlocks.Insert(x, xs, key) <==> y == x || y in xs
  {
    assert y in DocsBlocks.Insert(x, xs, key) <==> y in multiset(DocsBlocks.Insert(x, xs, key));
    assert y in xs <==> y in multiset(xs);
  }

  lemma {:induction false} InsertApart(x: Item, xs: seq<Item>, tab: string, size: nat)
    requires Apart([x] + xs, tab, size)
    ensures Apart(DocsBlocks.Insert(x, xs, ByLocation), tab, size)
    decreases |xs|
  {
    assert ([x] + xs)[1..] == xs;
    if xs != [] && x.loc.start < xs[0].loc.start {
      var rest := DocsBlocks.Insert(x, xs[1..], ByLocation);
      assert ([x] + xs[1..])[1..] == xs[1..];
      InsertApart(x, xs[1..], tab, size);
      forall y | y in rest ensures y == x || y in xs[1..] { InsertIn(x, xs[1..], ByLocation, y); }
      assert ([xs[0]] + rest)[1..] == rest;
    }
  }

  lemma {:induction false} SortApart(xs: seq<Item>, tab: string, size: nat)
    requires Apart(xs, tab, size)
    ensures Apart(Sort(xs, ByLocation), tab, size)
  {
    if xs != [] {
      SortApart(xs[1..], tab, size);
      var rest := Sort(xs[1..], ByLocation);
      forall y | y in rest ensures y in xs[1..] { assert y in multiset(rest) && y in multiset(xs[1..]); }
      assert ([xs[0]] + rest)[1..] == rest;
      InsertApart(xs[0], rest, tab, size);
    }
  }

  /** The edits of cells, as they come, without overlap. */
  predicate EditsApart(es: seq<Edit>) {
    es == [] ||
    ((forall e :: e in es[1..] ==> e.stop < es[0].start || es[0].stop < e.start) && EditsApart(es[1..]))
  }

  lemma {:induction false} CellEditsApart(cells: seq<Cell>, grid: seq<seq<string>>, lo: nat, hi: nat)
    requires forall c :: c in cells ==> InGrid(c, grid) && lo <= c.start < c.end <= hi
    requires CellsApart(cells)
    ensures EditsApart(CellEdits(cells, grid))
    ensures forall e :: e in CellEdits(cells, grid) ==> lo <= e.start <= e.stop < hi
    ensures forall e :: e in CellEdits(cells, grid) ==>
              exists c :: c in cells && e.start == c.start && e.stop == c.end - 1
  {
    if cells != [] {
      CellEditsApart(cells[1..], grid, lo, hi);
      var es := CellEdits(cells, grid);
      assert es[1..] == CellEdits(cells[1..], grid);
      forall e | e in es ensures exists c :: c in cells && e.start == c.start && e.stop == c.end - 1 {
        if e == es[0] {
          assert cells[0] in cells;
        } else {
          var c :| c in cells[1..] && e.start == c.start && e.stop == c.end - 1;
          assert c in cells;
        }
      }
    }
  }

  lemma {:induction false} InsertEditsApart(x: Edit, xs: seq<Edit>)
    requires EditsApart([x] + xs)
    ensures EditsApart(DocsBlocks.Insert(x, xs, ByStart))
    decreases |xs|
  {
    assert ([x] + xs)[1..] == xs;
    if xs != [] && x.start < xs[0].start {
      var rest := DocsBlocks.Insert(x, xs[1..], ByStart);
      assert ([x] + xs[1..])[1..] == xs[1..];
      InsertEditsApart(x, xs[1..]);
      forall y | y in rest ensures y == x || y in xs[1..] { InsertIn(x, xs[1..], ByStart, y); }
      assert ([xs[0]] + rest)[1..] == rest;
    }
  }

  lemma {:induction false} SortEditsApart(xs: seq<Edit>)
    requires EditsApart(xs)
    ensures EditsApart(Sort(xs, ByStart))
  {
    if xs != [] {
      SortEditsApart(xs[1..]);
      var rest := Sort(xs[1..], ByStart);
      forall y | y in rest ensures y in xs[1..] { assert y in multiset(rest) && y in multiset(xs[1..]); }
      assert ([xs[0]] + rest)[1..] == rest;
      InsertEditsApart(xs[0], rest);
    }
  }

  lemma {:induction false} SortedDescends(es: seq<Edit>, hi: nat)
    requires Sorted(es, ByStart) && EditsApart(es) && forall e :: e in es ==> e.start <= e.stop <= hi
    ensures Descending(es, hi)
    decreases |es|
  {
    if es != [] {
      forall e | e in es[1..] ensures e.stop <= es[0].start {
        var j :| 0 <= j < |es[1..]| && es[1..][j] == e;
        assert ByStart(es[0]) >= ByStart(es[j + 1]);
        assert e in es;
      }
      assert Sorted(es[1..], ByStart);
      SortedDescends(es[1..], es[0].start);
    }
  }

  /** The edits of one location run backward inside it. */
  lemma BlockEditsDescend(loc: Location, b: Block)
    requires loc.start < loc.end && CellsOf(loc) && BlockEdits(loc, b).Some?
    ensures Descending(BlockEdits(loc, b).value, loc.end)
    ensures forall e :: e in BlockEdits(loc, b).value ==> loc.start <= e.start
  {
    if b.kind == TableKind {
      var es := CellEdits(loc.cells, b.grid.value);
      CellEditsApart(loc.cells, b.grid.value, loc.start, loc.end);
      SortSorted(es, ByStart);
      SortEditsApart(es);
      forall e | e in Sort(es, ByStart) ensures e in es { assert e in multiset(Sort(es, ByStart)); }
      SortedDescends(Sort(es, ByStart), loc.end);
    }
  }

  lemma {:induction false} TabEditsDescend(items: seq<Item>, tab: string, hi: nat)
    requires AllScripts(items).Some? && Apart(items, tab, hi) && Sorted(items, ByLocation)
    ensures Descending(TabEdits(items, tab), hi)
    decreases |items|
  {
    if items != [] {
      hide BlockEdits, CellsOf;
      assert Sorted(items[1..], ByLocation);
      var loc := items[0].loc;
      if loc.tab == tab {
        BlockEditsDescend(loc, items[0].b);
        ApartBelow(items, tab, hi);
        TabEditsDescend(items[1..], tab, loc.start);
        DescendingWeaker(BlockEdits(loc, items[0].b).value, loc.end, hi);
        DescendingAppend(BlockEdits(loc, items[0].b).value, loc.start, TabEdits(items[1..], tab), hi);
      } else {
        TabEditsDescend(items[1..], tab, hi);
        assert [] + TabEdits(items[1..], tab) == TabEdits(items[1..], tab);
      }
    }
  }

  /** After sorting, every later item of the tab ends before the first one starts. */
  lemma ApartBelow(items: seq<Item>, tab: string, hi: nat)
    requires items != [] && Apart(items, tab, hi) && Sorted(items, ByLocation) && items[0].loc.tab == tab
    ensures Apart(items[1..], tab, items[0].loc.start)
  {
    forall j | 0 < j < |items| && items[j].loc.tab == tab ensures items[j].loc.end <= items[0].loc.start {
      assert ByLocation(items[0]) >= ByLocation(items[j]);
      assert items[j] == items[1..][j - 1] && items[j] in items[1..];
      ApartNonEmpty(items, tab, hi, j);
    }
    ApartWithin(items[1..], tab, hi, items[0].loc.start);
  }

  lemma {:induction false} ApartNonEmpty(items: seq<Item>, tab: string, hi: nat, j: nat)
    requires Apart(items, tab, hi) && j < |items| && items[j].loc.tab == tab
    ensures items[j].loc.start < items[j].loc.end
    decreases j
  {
    if j > 0 { ApartNonEmpty(items[1..], tab, hi, j - 1); }
  }

  lemma {:induction false} ApartWithin(items: seq<Item>, tab: string, hi: nat, lo: nat)
    requires Apart(items, tab, hi) && forall j :: 0 <= j < |items| && items[j].loc.tab == tab ==> items[j].loc.end <= lo
    ensures Apart(items, tab, lo)
  {
    if items != [] { ApartWithin(items[1..], tab, hi, lo); }
  }

  // ---------------------------------------------------------------------------------------------
  // Which text goes where
  // ---------------------------------------------------------------------------------------------

  /** b is the last written block of the id, or the zero block when none has it. */
  predicate LastWritten(blocks: seq<Block>, id: string, b: Block) {
    if exists k :: 0 <= k < |blocks| && blocks[k].id == id
    then exists k: nat :: k < |blocks| && LastAt(blocks, id, b, k)
    else b == NO_BLOCK
  }

  predicate LastAt(blocks: seq<Block>, id: string, b: Block, k: nat)
    requires k < |blocks|
  {
    blocks[k] == b && b.id == id && forall j :: k < j < |blocks| ==> blocks[j].id != id
  }

  lemma {:induction false} BlockOfIsLast(blocks: seq<Block>, id: string, b: Block)
    ensures LastWritten(blocks, id, b) <==> b == BlockOf(blocks, id)
  {
    if blocks != [] {
      hide LastWritten;
      if blocks[|blocks| - 1].id == id {
        LastAtEnd(blocks, id, b);
      } else {
        BlockOfIsLast(blocks[..|blocks| - 1], id, b);
        LastBefore(blocks, id, b);
      }
    }
  }

  lemma LastAtEnd(blocks: seq<Block>, id: string, b: Block)
    requires blocks != [] && blocks[|blocks| - 1].id == id
    ensures LastWritten(blocks, id, b) <==> b == blocks[|blocks| - 1]
  {
    var n := |blocks| - 1;
    if LastWritten(blocks, id, b) {
      var k: nat :| k < |blocks| && LastAt(blocks, id, b, k);
      assert k == n;
    }
    assert LastAt(blocks, id, blocks[n], n);
  }

  lemma LastAtBefore(blocks: seq<Block>, id: string, b: Block, k: nat)
    requires k < |blocks| && blocks[|blocks| - 1].id != id
    ensures LastAt(blocks, id, b, k) <==> k < |blocks| - 1 && LastAt(blocks[..|blocks| - 1], id, b, k)
  {
    var init := blocks[..|blocks| - 1];
    assert forall j :: 0 <= j < |init| ==> init[j] == blocks[j];
  }

  lemma LastBefore(blocks: seq<Block>, id: string, b: Block)
    requires blocks != [] && blocks[|blocks| - 1].id != id
    ensures LastWritten(blocks, id, b) <==> LastWritten(blocks[..|blocks| - 1], id, b)
  {
    var n, init := |blocks| - 1, blocks[..|blocks| - 1];
    assert forall k :: 0 <= k < n ==> init[k] == blocks[k];
    hide LastAt;
    if k :| 0 <= k < |blocks| && blocks[k].id == id {
      assert k < n && init[k].id == id;
      if LastWritten(blocks, id, b) {
        var m: nat :| m < |blocks| && LastAt(blocks, id, b, m);
        LastAtBefore(blocks, id, b, m);
      }
      if LastWritten(init, id, b) {
        var m: nat :| m < n && LastAt(init, id, b, m);
        LastAtBefore(blocks, id, b, m);
      }
    } else {
      assert forall k :: 0 <= k < n ==> init[k].id != id;
    }
  }

  predicate CallsIn(x: Item, tab: string, e: Edit) {
    x.loc.tab == tab && Calls(x.loc, x.b, e)
  }

  predicate SomeCalls(items: seq<Item>, tab: string, e: Edit) {
    exists x :: x in items && CallsIn(x, tab, e)
  }

  lemma SomeCallsFirst(items: seq<Item>, tab: string, e: Edit)
    requires items != []
    ensures SomeCalls(items, tab, e) <==> CallsIn(items[0], tab, e) || SomeCalls(items[1..], tab, e)
  {
    hide CallsIn;
    assert items == [items[0]] + items[1..];
    assert forall x :: x in items <==> x == items[0] || x in items[1..];
  }

  lemma {:induction false} TabEditsAre(items: seq<Item>, tab: string, e: Edit)
    requires AllScripts(items).Some?
    ensures e in TabEdits(items, tab) <==> SomeCalls(items, tab, e)
    decreases |items|
  {
    if items != [] {
      hide BlockEdits, CallsIn, SomeCalls, TabEdits;
      TabEditsAre(items[1..], tab, e);
      SomeCallsFirst(items, tab, e);
      TabEditsFirst(items, tab, e);
    } else {
      hide CallsIn;
    }
  }

  lemma TabEditsFirst(items: seq<Item>, tab: string, e: Edit)
    requires items != [] && AllScripts(items).Some?
    ensures e in TabEdits(items, tab) <==> CallsIn(items[0], tab, e) || e in TabEdits(items[1..], tab)
  {
    hide BlockEdits, Calls, CanWrite;
    BlockEditsWhen(items[0].loc, items[0].b);
    BlockEditsAre(items[0].loc, items[0].b);
    var own := if items[0].loc.tab == tab then BlockEdits(items[0].loc, items[0].b).value else [];
    assert TabEdits(items, tab) == own + TabEdits(items[1..], tab);
  }

  lemma {:induction false} ScriptsWhen(items: seq<Item>)
    ensures AllScripts(items).Some? <==> forall x :: x in items ==> CanWrite(x.loc, x.b)
  {
    if items != [] {
      hide BlockEdits, CanWrite;
      ScriptsWhen(items[1..]);
      BlockEditsWhen(items[0].loc, items[0].b);
      assert items == [items[0]] + items[1..];
    }
  }

  lemma {:induction false} ItemsAre(locations: seq<Location>, blocks: seq<Block>, x: Item)
    ensures x in Items(locations, blocks) <==>
      x.loc in locations && x.loc.kind != ImageKind && x.b == BlockOf(blocks, x.loc.id)
  {
    if locations != [] {
      hide BlockOf;
      ItemsAre(locations[1..], blocks, x);
      assert locations == [locations[0]] + locations[1..];
    }
  }

  lemma {:induction false} ReversedIn<T>(xs: seq<T>, x: T)
    ensures x in Reverse(xs) <==> x in xs
  {
    if xs != [] {
      ReversedIn(xs[1..], x);
      assert xs == [xs[0]] + xs[1..];
    }
  }

  /** There is a script if and only if every location but an image's gets a block that can be written
      there. */
  lemma ScriptsExactly(locations: seq<Location>, blocks: seq<Block>)
    ensures AllScripts(Sort(Items(locations, blocks), ByLocation)).Some? <==>
      forall loc, b :: loc in locations && loc.kind != ImageKind && LastWritten(blocks, loc.id, b) ==> CanWrite(loc, b)
  {
    hide Items, BlockOf, Sort, AllScripts, CanWrite, LastWritten;
    var items := Items(locations, blocks);
    ScriptsWhen(Sort(items, ByLocation));
    if forall x :: x in Sort(items, ByLocation) ==> CanWrite(x.loc, x.b) {
      forall loc, b | loc in locations && loc.kind != ImageKind && LastWritten(blocks, loc.id, b) ensures CanWrite(loc, b) {
        BlockOfIsLast(blocks, loc.id, b);
        ItemsAre(locations, blocks, Item(loc, b));
        SortedIn(items, ByLocation, Item(loc, b));
        assert CanWrite(Item(loc, b).loc, Item(loc, b).b);
      }
    } else {
      var x :| x in Sort(items, ByLocation) && !CanWrite(x.loc, x.b);
      SortedIn(items, ByLocation, x);
      ItemsAre(locations, blocks, x);
      BlockOfIsLast(blocks, x.loc.id, x.b);
    }
  }

  /** The edits of a tab are those its locations call for, each with the last block of its id. */
  lemma EditsExactly(locations: seq<Location>, blocks: seq<Block>, tab: string, e: Edit)
    requires AllScripts(Sort(Items(locations, blocks), ByLocation)).Some?
    ensures e in Reverse(TabEdits(Sort(Items(locations, blocks), ByLocation), tab)) <==>
      exists loc, b :: loc in locations && loc.kind != ImageKind && loc.tab == tab && LastWritten(blocks, loc.id, b) && Calls(loc, b, e)
  {
    hide Items, BlockOf, Sort, AllScripts, LastWritten, Calls, TabEdits;
    var items := Items(locations, blocks);
    TabEditsAre(Sort(items, ByLocation), tab, e);
    ReversedIn(TabEdits(Sort(items, ByLocation), tab), e);
    if x :| x in Sort(items, ByLocation) && x.loc.tab == tab && Calls(x.loc, x.b, e) {
      SortedIn(items, ByLocation, x);
      ItemsAre(locations, blocks, x);
      BlockOfIsLast(blocks, x.loc.id, x.b);
    }
    if loc, b :| loc in locations && loc.kind != ImageKind && loc.tab == tab && LastWritten(blocks, loc.id, b) && Calls(loc, b, e) {
      BlockOfIsLast(blocks, loc.id, b);
      ItemsAre(locations, blocks, Item(loc, b));
      SortedIn(items, ByLocation, Item(loc, b));
      assert Calls(Item(loc, b).loc, Item(loc, b).b, e);
    }
  }

  /** Main result: when the locations of a tab (and the cells of a table) do not overlap, running
      the script gives the body with each range replaced by its block's text under its marks, every
      terminator kept, and every other unit untouched; the service refuses no request. The edits are one
      for each text location and for each cell of a table location, and no other. */
  lemma ReplaceBlocks(inherit: Inherit, tab: string, body: Body, locations: seq<Location>, blocks: seq<Block>)
    returns (edits: seq<Edit>, after: Body)
    requires AllScripts(Sort(Items(locations, blocks), ByLocation)).Some?
    requires Apart(Items(locations, blocks), tab, |body|)
    ensures forall e :: e in edits <==>
      exists loc, b :: loc in locations && loc.kind != ImageKind && loc.tab == tab && LastWritten(blocks, loc.id, b) && Calls(loc, b, e)
    ensures Ascending(0, edits, |body|) && Spliced(body, 0, edits, after)
    ensures Execute(inherit, tab, body, AllScripts(Sort(Items(locations, blocks), ByLocation)).value) == Some(after)
  {
    hide Apart, AllScripts, Execute, Spliced, Ascending, TabEdits, Descending, Items, LastWritten, Calls, Reverse;
    var items := Sort(Items(locations, blocks), ByLocation);
    SortSorted(Items(locations, blocks), ByLocation);
    SortApart(Items(locations, blocks), tab, |body|);
    TabEditsDescend(items, tab, |body|);
    edits := Reverse(TabEdits(items, tab));
    ReverseAscends(TabEdits(items, tab), |body|);
    TabScript(inherit, tab, body, items);
    ScriptsAreBackward(tab, TabEdits(items, tab));
    after := BackwardEdits(inherit, tab, body, 0, edits);
    assert body[..0] + after == after;
    forall e ensures e in edits <==>
      exists loc, b :: loc in locations && loc.kind != ImageKind && loc.tab == tab && LastWritten(blocks, loc.id, b) && Calls(loc, b, e)
    {
      EditsExactly(locations, blocks, tab, e);
    }
  }
}
