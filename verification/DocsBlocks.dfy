/** The replace scripts of a whole document (vfs/docs_map.go, mapReplaceBlocks): one location a
    block, tables cell by cell, sorted so that the end of the body comes first. */
module DocsBlocks {
  import opened Inline
  import opened DocsBody
  import opened Sequences
  import opened DocsReplace

  datatype Kind = ImageKind | TableKind | TextKind

  /** A block to write. `grid` is what a table's text parses to, when it does, and rows and cols are
      the shape its attributes give. */
  datatype Block = Block(id: string, kind: Kind, text: string, runs: seq<Inline.Run>,
                         grid: Option<seq<seq<string>>>, rows: nat, cols: nat)

  datatype Cell = Cell(row: int, col: int, start: nat, end: nat)

  /** Where a block stands in the body of its tab. */
  datatype Location = Location(id: string, tab: string, kind: Kind, start: nat, end: nat, cells: seq<Cell>)

  function InlineRuns(b: Block): seq<Inline.Run> {
    if b.runs != [] then b.runs else Parsed(b.text)
  }

  /** The range of a location or cell without its final newline. */
  function EditOf(start: nat, end: nat, runs: seq<Inline.Run>): Edit {
    Edit(start, if end > start + 1 then end - 1 else start, runs)
  }

  /** tableShape: the parsed grid's, else the attributes'. */
  function TableShape(b: Block): Option<(nat, nat)> {
    if b.grid.Some? && |b.grid.value| > 0 && |b.grid.value[0]| > 0 then Some((|b.grid.value|, |b.grid.value[0]|))
    else if b.rows == 0 || b.cols == 0 then None
    else Some((b.rows, b.cols))
  }

  // ---------------------------------------------------------------------------------------------
  // Sorting by start, the highest first
  // ---------------------------------------------------------------------------------------------

  function Insert<T>(x: T, xs: seq<T>, key: T -> int): (r: seq<T>)
    ensures multiset(r) == multiset(xs) + multiset{x}
  {
    if xs == [] || key(x) >= key(xs[0]) then [x] + xs
    else
      assert xs == [xs[0]] + xs[1..];
      [xs[0]] + Insert(x, xs[1..], key)
  }

  function Sort<T>(xs: seq<T>, key: T -> int): (r: seq<T>)
    ensures multiset(r) == multiset(xs)
  {
    if xs == [] then []
    else
      assert xs == [xs[0]] + xs[1..];
      Insert(xs[0], Sort(xs[1..], key), key)
  }

  predicate Sorted<T>(xs: seq<T>, key: T -> int) {
    forall i, j :: 0 <= i < j < |xs| ==> key(xs[i]) >= key(xs[j])
  }

  lemma InsertIs<T>(x: T, xs: seq<T>, key: T -> int)
    ensures Insert(x, xs, key) ==
      if xs == [] || key(x) >= key(xs[0]) then [x] + xs else [xs[0]] + Insert(x, xs[1..], key)
  {
  }

  lemma InsertMembers<T>(x: T, xs: seq<T>, key: T -> int)
    ensures forall y :: y in Insert(x, xs, key) ==> y == x || y in xs
  {
    hide *;
    forall y | y in Insert(x, xs, key) ensures y == x || y in xs { assert y in multiset(Insert(x, xs, key)); }
  }

  lemma SortedTail<T>(xs: seq<T>, key: T -> int)
    requires xs != [] && Sorted(xs, key)
    ensures Sorted(xs[1..], key) && (forall y :: y in xs[1..] ==> key(y) <= key(xs[0])) && forall y :: y in xs ==> key(y) <= key(xs[0])
  {
    assert xs == [xs[0]] + xs[1..];
  }

  lemma SortedCons<T>(x: T, xs: seq<T>, key: T -> int)
    requires Sorted(xs, key) && forall y :: y in xs ==> key(y) <= key(x)
    ensures Sorted([x] + xs, key)
  {
    forall i, j | 0 <= i < j < |[x] + xs| ensures key(([x] + xs)[i]) >= key(([x] + xs)[j]) {
      assert xs[j - 1] in xs;
      if i > 0 { assert key(xs[i - 1]) >= key(xs[j - 1]); }
    }
  }

  lemma {:induction false} InsertSorted<T>(x: T, xs: seq<T>, key: T -> int)
    requires Sorted(xs, key)
    ensures Sorted(Insert(x, xs, key), key)
  {
    hide *;
    InsertIs(x, xs, key);
    if xs == [] {
      SortedCons(x, xs, key);
    } else {
      SortedTail(xs, key);
      if key(x) < key(xs[0]) {
        InsertSorted(x, xs[1..], key);
        InsertMembers(x, xs[1..], key);
        SortedCons(xs[0], Insert(x, xs[1..], key), key);
      } else {
        SortedCons(x, xs, key);
      }
    }
  }

  lemma {:induction false} SortSorted<T>(xs: seq<T>, key: T -> int)
    ensures Sorted(Sort(xs, key), key)
  {
    if xs != [] {
      SortSorted(xs[1..], key);
      InsertSorted(xs[0], Sort(xs[1..], key), key);
    }
  }

  // ---------------------------------------------------------------------------------------------
  // The edits of one location
  // ---------------------------------------------------------------------------------------------

  const ByStart: Edit -> int := (e: Edit) => e.start

  predicate InGrid(c: Cell, grid: seq<seq<string>>) {
    0 <= c.row < |grid| && 0 <= c.col < |grid[c.row]|
  }

  function CellEdit(c: Cell, grid: seq<seq<string>>): Edit
    requires InGrid(c, grid)
  {
    EditOf(c.start, c.end, Parsed(grid[c.row][c.col]))
  }

  function CellEdits(cells: seq<Cell>, grid: seq<seq<string>>): seq<Edit>
    requires forall c :: c in cells ==> InGrid(c, grid)
  {
    if cells == [] then [] else [CellEdit(cells[0], grid)] + CellEdits(cells[1..], grid)
  }

  /** The edits of a block at its location, the last first; None is an error of the source. */
  function BlockEdits(loc: Location, b: Block): Option<seq<Edit>> {
    match b.kind
    case ImageKind => None
    case TextKind => Some([EditOf(loc.start, loc.end, InlineRuns(b))])
    case TableKind =>
      if b.grid.None? || TableShape(b).None? || |b.grid.value| != TableShape(b).value.0 || loc.cells == [] ||
         (exists c :: c in loc.cells && !InGrid(c, b.grid.value)) then None
      else Some(Sort(CellEdits(loc.cells, b.grid.value), ByStart))
  }

  // ---------------------------------------------------------------------------------------------
  // Which text goes where
  // ---------------------------------------------------------------------------------------------

  /** e replaces a span without its terminator by runs. */
  predicate Replaces(e: Edit, start: nat, end: nat, runs: seq<Inline.Run>) {
    e.start == start && e.stop == (if end > start then end - 1 else start) && e.runs == runs
  }

  /** What a block writes at its location: its runs, or what its text parses to; for a table, what the
      text of each cell's own row and column parses to, in the cell. */
  predicate Calls(loc: Location, b: Block, e: Edit) {
    match b.kind
    case ImageKind => false
    case TextKind => Replaces(e, loc.start, loc.end, if b.runs != [] then b.runs else Parsed(b.text))
    case TableKind => b.grid.Some? && exists c :: c in loc.cells && CellText(c, b.grid.value, e)
  }

  predicate CellText(c: Cell, grid: seq<seq<string>>, e: Edit) {
    0 <= c.row < |grid| && 0 <= c.col < |grid[c.row]| && Replaces(e, c.start, c.end, Parsed(grid[c.row][c.col]))
  }

  /** A block that can be written at its location: no image, and a table only in a shape that fits. */
  predicate CanWrite(loc: Location, b: Block) {
    b.kind == TextKind ||
    (b.kind == TableKind && b.grid.Some? && loc.cells != [] &&
     (forall c :: c in loc.cells ==> 0 <= c.row < |b.grid.value| && 0 <= c.col < |b.grid.value[c.row]|) &&
     ((b.grid.value != [] && b.grid.value[0] != []) || (b.rows == |b.grid.value| > 0 && b.cols > 0)))
  }

  lemma {:induction false} CellEditsAre(cells: seq<Cell>, grid: seq<seq<string>>, e: Edit)
    requires forall c :: c in cells ==> InGrid(c, grid)
    ensures |CellEdits(cells, grid)| == |cells|
    ensures e in CellEdits(cells, grid) <==> exists c :: c in cells && CellText(c, grid, e)
  {
    if cells != [] {
      hide Parsed;
      CellEditsAre(cells[1..], grid, e);
      assert cells == [cells[0]] + cells[1..];
      assert e == CellEdit(cells[0], grid) <==> CellText(cells[0], grid, e);
      if e in CellEdits(cells[1..], grid) {
        var c :| c in cells[1..] && CellText(c, grid, e);
        assert c in cells;
      }
    }
  }

  lemma SortedIn<T>(xs: seq<T>, key: T -> int, x: T)
    ensures x in Sort(xs, key) <==> x in xs
    ensures |Sort(xs, key)| == |xs|
  {
    assert x in Sort(xs, key) <==> x in multiset(Sort(xs, key));
    assert x in xs <==> x in multiset(xs);
    assert |multiset(Sort(xs, key))| == |multiset(xs)|;
  }

  lemma BlockEditsWhen(loc: Location, b: Block)
    ensures BlockEdits(loc, b).Some? <==> CanWrite(loc, b)
  {
    hide Parsed, CellEdits, Sort;
  }

  /** The edits of a location are those its block calls for, the last first. */
  lemma BlockEditsAre(loc: Location, b: Block)
    requires CanWrite(loc, b)
    ensures BlockEdits(loc, b).Some? && Sorted(BlockEdits(loc, b).value, ByStart)
    ensures |BlockEdits(loc, b).value| == if b.kind == TableKind then |loc.cells| else 1
    ensures forall e :: e in BlockEdits(loc, b).value <==> Calls(loc, b, e)
  {
    hide Parsed, CellEdits, Sort, CellText;
    BlockEditsWhen(loc, b);
    if b.kind == TableKind {
      var es := CellEdits(loc.cells, b.grid.value);
      SortSorted(es, ByStart);
      forall e ensures e in BlockEdits(loc, b).value <==> Calls(loc, b, e) {
        CellEditsAre(loc.cells, b.grid.value, e);
        SortedIn(es, ByStart, e);
      }
      CellEditsAre(loc.cells, b.grid.value, Edit(0, 0, []));
      SortedIn(es, ByStart, Edit(0, 0, []));
    }
  }

  /** The edits a block calls for at its location, each once, the last first. */
  ghost predicate WrittenBy(loc: Location, b: Block, es: seq<Edit>) {
    Sorted(es, ByStart) && |es| == (if b.kind == TableKind then |loc.cells| else 1) &&
    forall e :: e in es <==> Calls(loc, b, e)
  }

  /** The script of a block at its location, when it can be written there. */
  ghost predicate Writes(loc: Location, b: Block, r: Option<seq<Request>>) {
    (r.Some? <==> CanWrite(loc, b)) &&
    (r.Some? ==> exists es: seq<Edit> :: r.value == Scripts(loc.tab, es) && WrittenBy(loc, b, es))
  }

  lemma BlockWrites(loc: Location, b: Block)
    ensures Writes(loc, b, match BlockEdits(loc, b) { case None => None case Some(es) => Some(Scripts(loc.tab, es)) })
  {
    hide BlockEdits, CanWrite, Calls, Scripts, Sorted;
    BlockEditsWhen(loc, b);
    if CanWrite(loc, b) { BlockEditsAre(loc, b); }
  }

  function Scripts(tab: string, es: seq<Edit>): seq<Request> {
    if es == [] then [] else Script(tab, es[0]) + Scripts(tab, es[1..])
  }

  method PairCells(cells: seq<Cell>, grid: seq<seq<string>>) returns (pairs: Option<seq<Edit>>)
    ensures pairs.None? <==> exists c :: c in cells && !InGrid(c, grid)
    ensures pairs.Some? ==> pairs.value == CellEdits(cells, grid)
  {
    hide Parsed;
    var out: seq<Edit> := [];
    for i := 0 to |cells|
      invariant forall j :: 0 <= j < i ==> InGrid(cells[j], grid)
      invariant out == CellEdits(cells[..i], grid)
    {
      if !InGrid(cells[i], grid) {
        return None;
      }
      CellEditsLast(cells[..i], cells[i], grid);
      assert cells[..i] + [cells[i]] == cells[..i + 1];
      out := out + [CellEdit(cells[i], grid)];
    }
    assert cells[..|cells|] == cells;
    pairs := Some(out);
  }

  method ScriptCells(tab: string, pairs: seq<Edit>) returns (reqs: seq<Request>)
    ensures reqs == Scripts(tab, pairs)
  {
    hide PlainText, InlineStyles, Scripts;
    reqs := [];
    assert pairs[0..] == pairs;
    for i := 0 to |pairs|
      invariant Scripts(tab, pairs) == reqs + Scripts(tab, pairs[i..])
    {
      ScriptsFrom(tab, pairs, i);
      Assoc(reqs, Script(tab, pairs[i]), Scripts(tab, pairs[i + 1..]));
      var part := ScriptEdit(tab, pairs[i]);
      reqs := reqs + part;
    }
    ScriptsNone(tab, pairs);
    Empty(reqs);
  }

  lemma ScriptsFrom(tab: string, es: seq<Edit>, i: nat)
    requires i < |es|
    ensures Scripts(tab, es[i..]) == Script(tab, es[i]) + Scripts(tab, es[i + 1..])
  {
    hide Script;
    Suffix(es, i);
  }

  lemma ScriptsNone(tab: string, es: seq<Edit>)
    ensures Scripts(tab, es[|es|..]) == []
  {
  }

  /** The requests of one edit, one after another. */
  method ScriptEdit(tab: string, e: Edit) returns (part: seq<Request>)
    ensures part == Script(tab, e)
  {
    hide PlainText, InlineStyles;
    part := [];
    if e.stop > e.start {
      part := part + [Delete(tab, e.start, e.stop)];
    }
    var plain := PlainText(e.runs);
    if plain != "" {
      part := part + [DocsBody.Insert(tab, e.start, plain)];
      var styles := MapInlineStyles(e.start, tab, e.runs);
      part := part + styles;
    }
  }

  method MapReplaceTable(loc: Location, b: Block) returns (r: Option<seq<Request>>)
    requires b.kind == TableKind
    ensures r == match BlockEdits(loc, b) { case None => None case Some(es) => Some(Scripts(loc.tab, es)) }
    ensures Writes(loc, b, r)
  {
    hide Writes;
    BlockWrites(loc, b);
    if b.grid.None? || TableShape(b).None? || |b.grid.value| != TableShape(b).value.0 || loc.cells == [] {
      return None;
    }
    var pairs := PairCells(loc.cells, b.grid.value);
    if pairs.None? {
      return None;
    }
    var reqs := ScriptCells(loc.tab, Sort(pairs.value, ByStart));
    r := Some(reqs);
  }

  lemma CellEditsLast(cells: seq<Cell>, c: Cell, grid: seq<seq<string>>)
    requires InGrid(c, grid) && forall x :: x in cells ==> InGrid(x, grid)
    ensures CellEdits(cells + [c], grid) == CellEdits(cells, grid) + [CellEdit(c, grid)]
  {
    if cells == [] {
      assert cells + [c] == [c] && [c][1..] == [];
    } else {
      assert (cells + [c])[1..] == cells[1..] + [c];
      CellEditsLast(cells[1..], c, grid);
    }
  }

  lemma {:induction false} NoText(tab: string, start: nat, runs: seq<Inline.Run>)
    requires PlainText(runs) == ""
    ensures InlineStyles(tab, start, runs) == []
    decreases |runs|
  {
    if runs != [] {
      assert runs[0].text == "" && PlainText(runs[1..]) == "";
      NoText(tab, start, runs[1..]);
    }
  }

  method MapReplaceBlock(loc: Location, b: Block) returns (r: Option<seq<Request>>)
    ensures r == match BlockEdits(loc, b) { case None => None case Some(es) => Some(Scripts(loc.tab, es)) }
    ensures Writes(loc, b, r)
  {
    hide Writes;
    BlockWrites(loc, b);
    match b.kind {
      case ImageKind => r := None;
      case TableKind => r := MapReplaceTable(loc, b);
      case TextKind =>
        hide Parsed, PlainText, InlineStyles;
        var runs := InlineRuns(b);
        var plain := PlainText(runs);
        ghost var e := EditOf(loc.start, loc.end, runs);
        var reqs: seq<Request> := [];
        assert Scripts(loc.tab, [e]) == Script(loc.tab, e) by { assert [e][1..] == []; }
        if loc.end <= loc.start + 1 {
          if plain == "" {
            assert Script(loc.tab, e) == [];
            return Some([]);
          }
          reqs := reqs + [DocsBody.Insert(loc.tab, loc.start, plain)];
        } else {
          reqs := reqs + [Delete(loc.tab, loc.start, loc.end - 1)];
          if plain != "" {
            reqs := reqs + [DocsBody.Insert(loc.tab, loc.start, plain)];
          } else {
            NoText(loc.tab, loc.start, runs);
          }
        }
        var styles := MapInlineStyles(loc.start, loc.tab, runs);
        assert reqs + styles == Script(loc.tab, e);
        r := Some(reqs + styles);
    }
  }
}
