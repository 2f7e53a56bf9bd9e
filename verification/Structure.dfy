/** The block view of a Markdown text: ATX headings (section 4.2 of CommonMark 0.31.2) outside
    fenced code, with the lines each one spans and a hierarchical id (vfs/structure.go). */
module Structure {
  import opened Messages
  import opened Numerals
  import opened Sequences

  /** strings.TrimSpace and the slug of a title. */
  datatype Text = Text(trim: string -> string, slug: string -> string)

  datatype Head = Head(line: nat, level: nat, title: string)

  /** Lines from start up to end, counted from 1. */
  datatype Block = Block(id: string, level: nat, title: string, start: nat, end: nat)

  // ---------------------------------------------------------------------------------------------
  // Headings
  // ---------------------------------------------------------------------------------------------

  function RunOf(s: string, at: nat, c: char): (n: nat)
    requires at <= |s|
    ensures at + n <= |s|
    decreases |s| - at
  {
    if at == |s| || s[at] != c then 0 else 1 + RunOf(s, at + 1, c)
  }

  /** A title without its closing hashes, when a blank comes before them. */
  function WithoutClosing(t: Text, title: string): string {
    var j := BeforeHashes(title, |title|);
    if j < |title| && j > 0 && (title[j - 1] == ' ' || title[j - 1] == '\t') then t.trim(title[..j]) else title
  }

  function BeforeHashes(s: string, j: nat): (k: nat)
    requires j <= |s|
    ensures k <= j
  {
    if j > 0 && s[j - 1] == '#' then BeforeHashes(s, j - 1) else j
  }

  /** The level and title of an ATX heading. */
  function Heading(t: Text, line: string): Option<(nat, string)> {
    var spaces := RunOf(line, 0, ' ');
    var i := if spaces < 3 then spaces else 3;
    var level := RunOf(line, i, '#');
    if level < 1 || level > 6 || (i + level < |line| && line[i + level] != ' ' && line[i + level] != '\t') then None
    else Some((level, WithoutClosing(t, t.trim(line[i + level..]))))
  }

  lemma {:induction false} RunSplit(s: string, at: nat, i: nat, c: char)
    requires at <= i <= |s| && forall k :: at <= k < i ==> s[k] == c
    ensures RunOf(s, at, c) == (i - at) + RunOf(s, i, c)
    decreases i - at
  {
    if at < i { RunSplit(s, at + 1, i, c); }
  }

  method AtxHeading(t: Text, line: string) returns (r: Option<(nat, string)>)
    ensures r == Heading(t, line)
  {
    var i := 0;
    while i < |line| && i < 3 && line[i] == ' '
      invariant 0 <= i <= |line| && i <= 3 && forall k :: 0 <= k < i ==> line[k] == ' '
    {
      i := i + 1;
    }
    RunSplit(line, 0, i, ' ');
    if i >= |line| || line[i] != '#' {
      return None;
    }
    var start := i;
    while i < |line| && line[i] == '#'
      invariant start <= i <= |line| && forall k :: start <= k < i ==> line[k] == '#'
    {
      i := i + 1;
    }
    RunSplit(line, start, i, '#');
    var level := i - start;
    if level < 1 || level > 6 {
      return None;
    }
    if i < |line| && line[i] != ' ' && line[i] != '\t' {
      return None;
    }
    hide WithoutClosing;
    var title := DropClosing(t, t.trim(line[i..]));
    r := Some((level, title));
  }

  method DropClosing(t: Text, title: string) returns (r: string)
    ensures r == WithoutClosing(t, title)
  {
    r := title;
    if |title| > 0 && title[|title| - 1] == '#' {
      var j := |title|;
      while j > 0 && title[j - 1] == '#'
        invariant 0 <= j <= |title| && BeforeHashes(title, |title|) == BeforeHashes(title, j)
      {
        j := j - 1;
      }
      if j > 0 && (title[j - 1] == ' ' || title[j - 1] == '\t') {
        r := t.trim(title[..j]);
      }
    }
  }

  const BACKTICKS := "```"
  const TILDES := "~~~"

  function FenceOpen(trimmed: string): Option<string> {
    if BACKTICKS <= trimmed then Some(BACKTICKS) else if TILDES <= trimmed then Some(TILDES) else None
  }

  /** The headings from line i on; `fence` is the mark of the fence the line is in. */
  function HeadsFrom(t: Text, lines: seq<string>, i: nat, fence: Option<string>): seq<Head>
    requires i <= |lines|
    decreases |lines| - i
  {
    if i == |lines| then []
    else
      var trimmed := t.trim(lines[i]);
      if fence.Some? then HeadsFrom(t, lines, i + 1, if fence.value <= trimmed then None else fence)
      else if FenceOpen(trimmed).Some? then HeadsFrom(t, lines, i + 1, FenceOpen(trimmed))
      else
        var h := Heading(t, lines[i]);
        (if h.Some? then [Head(i + 1, h.value.0, h.value.1)] else []) + HeadsFrom(t, lines, i + 1, None)
  }

  method FindHeads(t: Text, lines: seq<string>) returns (heads: seq<Head>)
    ensures heads == HeadsFrom(t, lines, 0, None)
  {
    heads := [];
    var fence: Option<string> := None;
    for i := 0 to |lines|
      invariant HeadsFrom(t, lines, 0, None) == heads + HeadsFrom(t, lines, i, fence)
    {
      hide Heading;
      var trimmed := t.trim(lines[i]);
      if fence.None? {
        var mark := FenceOpen(trimmed);
        if mark.Some? {
          fence := mark;
          continue;
        }
        var h := AtxHeading(t, lines[i]);
        if h.Some? {
          heads := heads + [Head(i + 1, h.value.0, h.value.1)];
        }
        continue;
      }
      if fence.value <= trimmed {
        fence := None;
      }
    }
  }

  /** Headings on rising lines of a text of n lines. */
  predicate Rising(heads: seq<Head>, n: nat) {
    (forall i :: 0 <= i < |heads| ==> 1 <= heads[i].line <= n && 1 <= heads[i].level <= 6) &&
    forall i, j :: 0 <= i < j < |heads| ==> heads[i].line < heads[j].line
  }

  lemma HeadsStep(t: Text, lines: seq<string>, i: nat, fence: Option<string>)
    requires i <= |lines|
    ensures HeadsFrom(t, lines, i, fence) ==
      if i == |lines| then []
      else
        var trimmed := t.trim(lines[i]);
        if fence.Some? then HeadsFrom(t, lines, i + 1, if fence.value <= trimmed then None else fence)
        else if FenceOpen(trimmed).Some? then HeadsFrom(t, lines, i + 1, FenceOpen(trimmed))
        else
          var h := Heading(t, lines[i]);
          (if h.Some? then [Head(i + 1, h.value.0, h.value.1)] else []) + HeadsFrom(t, lines, i + 1, None)
  {
    hide Heading, FenceOpen;
  }

  lemma HeadingLevel(t: Text, line: string)
    ensures Heading(t, line).Some? ==> 1 <= Heading(t, line).value.0 <= 6
  {
    hide RunOf, WithoutClosing;
  }

  lemma NoneRise(n: nat)
    ensures Rising([], n)
  {
  }

  lemma RisingCons(h: Head, rest: seq<Head>, n: nat)
    requires Rising(rest, n) && 1 <= h.line <= n && 1 <= h.level <= 6 && forall x :: x in rest ==> x.line > h.line
    ensures Rising([h] + rest, n)
  {
  }

  lemma {:induction false} HeadsRise(t: Text, lines: seq<string>, i: nat, fence: Option<string>)
    requires i <= |lines|
    ensures Rising(HeadsFrom(t, lines, i, fence), |lines|)
    ensures forall h :: h in HeadsFrom(t, lines, i, fence) ==> h.line > i
    decreases |lines| - i
  {
    hide HeadsFrom, Heading, FenceOpen, Rising;
    HeadsStep(t, lines, i, fence);
    if i == |lines| {
      NoneRise(|lines|);
    } else {
      var trimmed := t.trim(lines[i]);
      if fence.Some? {
        HeadsRise(t, lines, i + 1, if fence.value <= trimmed then None else fence);
      } else if FenceOpen(trimmed).Some? {
        HeadsRise(t, lines, i + 1, FenceOpen(trimmed));
      } else {
        var h, rest := Heading(t, lines[i]), HeadsFrom(t, lines, i + 1, None);
        HeadsRise(t, lines, i + 1, None);
        HeadingLevel(t, lines[i]);
        Empty(rest);
        if h.Some? { RisingCons(Head(i + 1, h.value.0, h.value.1), rest, |lines|); }
      }
    }
  }

  // ---------------------------------------------------------------------------------------------
  // Spans and parents
  // ---------------------------------------------------------------------------------------------

  /** Where heading i ends: at the next heading of its level or above, or after the last line. */
  function EndOf(heads: seq<Head>, i: nat, from: nat, eof: nat): nat
    requires i < from <= |heads|
    decreases |heads| - from
  {
    if from == |heads| then eof
    else if heads[from].level <= heads[i].level then heads[from].line
    else EndOf(heads, i, from + 1, eof)
  }

  function End(heads: seq<Head>, i: nat, eof: nat): nat
    requires i < |heads|
  {
    EndOf(heads, i, i + 1, eof)
  }

  /** Every heading after j up to i is of a higher level. */
  predicate Deeper(heads: seq<Head>, j: nat, i: nat)
    requires j < i < |heads|
  {
    forall m :: j < m <= i ==> heads[m].level > heads[j].level
  }

  lemma {:induction false} EndIs(heads: seq<Head>, i: nat, from: nat, eof: nat)
    requires i < from <= |heads| && eof > 0 && Rising(heads, eof - 1)
    requires forall k :: i < k < from ==> heads[k].level > heads[i].level
    ensures var e := EndOf(heads, i, from, eof);
      heads[i].line < e <= eof &&
      (e == eof || exists j :: from <= j < |heads| && heads[j].line == e && heads[j].level <= heads[i].level) &&
      forall k :: i < k < |heads| ==> (heads[k].line < e <==> Deeper(heads, i, k))
    decreases |heads| - from
  {
    hide *;
    EndStep(heads, i, from, eof);
    if from < |heads| && heads[from].level > heads[i].level {
      EndIs(heads, i, from + 1, eof);
    } else {
      EndStops(heads, i, from, eof);
    }
  }

  lemma EndStep(heads: seq<Head>, i: nat, from: nat, eof: nat)
    requires i < from <= |heads|
    ensures EndOf(heads, i, from, eof) == if from == |heads| then eof
      else if heads[from].level <= heads[i].level then heads[from].line else EndOf(heads, i, from + 1, eof)
  {
  }

  /** The first heading of the level of heading i or above, or the end of the text. */
  lemma EndStops(heads: seq<Head>, i: nat, from: nat, eof: nat)
    requires i < from <= |heads| && eof > 0 && Rising(heads, eof - 1)
    requires forall k :: i < k < from ==> heads[k].level > heads[i].level
    requires from < |heads| ==> heads[from].level <= heads[i].level
    ensures var e := if from == |heads| then eof else heads[from].line;
      heads[i].line < e <= eof && forall k :: i < k < |heads| ==> (heads[k].line < e <==> Deeper(heads, i, k))
  {
    var e := if from == |heads| then eof else heads[from].line;
    forall k | i < k < |heads| ensures heads[k].line < e <==> Deeper(heads, i, k) {
      if k >= from { assert heads[from].level <= heads[i].level && heads[from].line <= heads[k].line; }
    }
  }

  predicate Contains(heads: seq<Head>, j: nat, line: nat, eof: nat)
    requires j < |heads|
  {
    heads[j].line <= line < End(heads, j, eof)
  }

  /** The spans of two headings are disjoint, or the later one is inside the earlier. */
  lemma SpansNest(heads: seq<Head>, i: nat, j: nat, eof: nat)
    requires i < j < |heads| && eof > 0 && Rising(heads, eof - 1)
    ensures End(heads, i, eof) <= heads[j].line || End(heads, j, eof) <= End(heads, i, eof)
  {
    EndIs(heads, i, i + 1, eof);
    EndIs(heads, j, j + 1, eof);
    var e := End(heads, i, eof);
    if heads[j].line < e && e < eof {
      var m :| i + 1 <= m < |heads| && heads[m].line == e && heads[m].level <= heads[i].level;
      assert heads[j].level > heads[i].level;
      assert j < m && heads[m].level <= heads[j].level;
    }
  }

  /** The nearest heading above of a lower level, or -1. */
  function Above(heads: seq<Head>, i: nat, from: nat): (p: int)
    requires i < |heads| && from <= i
    ensures -1 <= p < from
    ensures p >= 0 ==> heads[p].level < heads[i].level
    ensures forall k :: p < k < from ==> heads[k].level >= heads[i].level
  {
    if from == 0 then -1
    else if heads[from - 1].level < heads[i].level then from - 1
    else Above(heads, i, from - 1)
  }

  function Parent(heads: seq<Head>, i: nat): int
    requires i < |heads|
  {
    Above(heads, i, i)
  }

  lemma ContainsHeading(heads: seq<Head>, j: nat, i: nat, eof: nat)
    requires j < i < |heads| && eof > 0 && Rising(heads, eof - 1)
    ensures Contains(heads, j, heads[i].line, eof) <==> Deeper(heads, j, i)
  {
    hide EndOf, Deeper;
    EndIs(heads, j, j + 1, eof);
    assert heads[j].line < heads[i].line;
  }

  /** A heading's parent is the innermost heading whose span contains it. */
  lemma ParentIsInnermost(heads: seq<Head>, i: nat, j: nat, eof: nat)
    requires j < i < |heads| && eof > 0 && Rising(heads, eof - 1)
    ensures Contains(heads, j, heads[i].line, eof) ==> j <= Parent(heads, i)
    ensures j == Parent(heads, i) ==> Contains(heads, j, heads[i].line, eof)
  {
    hide Contains, Above;
    ContainsHeading(heads, j, i, eof);
    if Deeper(heads, j, i) {
      assert heads[i].level > heads[j].level;
    }
  }

  /** Every line is in the preamble or in exactly one root heading's span. */
  lemma RootsPartition(heads: seq<Head>, line: nat, eof: nat) returns (r: int)
    requires eof > 0 && Rising(heads, eof - 1) && 1 <= line < eof
    ensures -1 <= r < |heads|
    ensures r == -1 <==> (heads == [] || line < heads[0].line)
    ensures r >= 0 ==> Parent(heads, r) == -1 && Contains(heads, r, line, eof)
    ensures forall i :: 0 <= i < |heads| && Parent(heads, i) == -1 && Contains(heads, i, line, eof) ==> i == r
  {
    if heads == [] || line < heads[0].line {
      return -1;
    }
    var k := LastBefore(heads, line, |heads|);
    EndIs(heads, k, k + 1, eof);
    assert Contains(heads, k, line, eof);
    r := RootOf(heads, k, line, eof);
    forall i | 0 <= i < |heads| && Parent(heads, i) == -1 && Contains(heads, i, line, eof) ensures i == r {
      RootsApart(heads, i, r, eof);
      RootsApart(heads, r, i, eof);
    }
  }

  function LastBefore(heads: seq<Head>, line: nat, n: nat): (k: nat)
    requires 0 < n <= |heads| && heads[0].line <= line
    ensures k < n && heads[k].line <= line && forall j :: k < j < n ==> heads[j].line > line
  {
    if heads[n - 1].line <= line then n - 1 else LastBefore(heads, line, n - 1)
  }

  lemma {:induction false} RootOf(heads: seq<Head>, k: nat, line: nat, eof: nat) returns (r: nat)
    requires k < |heads| && eof > 0 && Rising(heads, eof - 1) && Contains(heads, k, line, eof)
    ensures r < |heads| && Parent(heads, r) == -1 && Contains(heads, r, line, eof)
    decreases k
  {
    var p := Parent(heads, k);
    if p == -1 {
      return k;
    }
    ParentIsInnermost(heads, k, p, eof);
    SpansNest(heads, p, k, eof);
    r := RootOf(heads, p, line, eof);
  }

  lemma RootsApart(heads: seq<Head>, i: nat, j: nat, eof: nat)
    requires i < |heads| && j < |heads| && eof > 0 && Rising(heads, eof - 1) && Parent(heads, j) == -1
    ensures i < j ==> End(heads, i, eof) <= heads[j].line
  {
    if i < j {
      ParentIsInnermost(heads, j, i, eof);
    }
  }

  // ---------------------------------------------------------------------------------------------
  // Ids
  // ---------------------------------------------------------------------------------------------

  /** A heading's id before and after it is told from earlier ones, and which use of the first it is. */
  datatype Name = Name(base: string, uses: nat, id: string)

  function Segment(t: Text, title: string): string {
    if t.slug(title) == "" then "section" else t.slug(title)
  }

  /** How many names have a base. */
  function Uses(names: seq<Name>, base: string): nat {
    if names == [] then 0 else Uses(names[..|names| - 1], base) + if names[|names| - 1].base == base then 1 else 0
  }

  function BaseOf(parent: Option<string>, seg: string): string {
    if parent.None? then seg else parent.value + "/" + seg
  }

  function NameOf(parent: Option<string>, seg: string, names: seq<Name>): Name {
    var base := BaseOf(parent, seg);
    var n := Uses(names, base) + 1;
    Name(base, n, if n == 1 then base else base + "-" + Decimal(n))
  }

  function Names(t: Text, heads: seq<Head>): (names: seq<Name>)
    ensures |names| == |heads|
  {
    if heads == [] then []
    else
      var i := |heads| - 1;
      var before := Names(t, heads[..i]);
      var p := Parent(heads, i);
      before + [NameOf(if p < 0 then None else Some(before[p].id), Segment(t, heads[i].title), before)]
  }

  /** The headings' frames on the stack, the innermost last: each one's parent is the one below. */
  datatype Frame = Frame(level: nat, path: string)

  ghost predicate Chain(heads: seq<Head>, names: seq<Name>, stack: seq<Frame>, at: seq<nat>) {
    |at| == |stack| && |names| <= |heads| &&
    (forall k :: 0 <= k < |stack| ==>
       at[k] < |names| && stack[k] == Frame(heads[at[k]].level, names[at[k]].id)) &&
    (forall k :: 0 < k < |stack| ==> Parent(heads, at[k]) == at[k - 1]) &&
    (stack != [] ==> Parent(heads, at[0]) == -1)
  }

  /** Popping the frames of the level or deeper leaves the nearest heading of a lower level on top. */
  method Pop(ghost heads: seq<Head>, ghost names: seq<Name>, stack: seq<Frame>, ghost at: seq<nat>, level: nat, ghost i: nat)
    returns (out: seq<Frame>, ghost rest: seq<nat>)
    requires Chain(heads, names, stack, at) && i < |heads| && i == |names| && level == heads[i].level
    requires if i == 0 then stack == [] else stack != [] && at[|at| - 1] == i - 1
    ensures Chain(heads, names, out, rest)
    ensures Parent(heads, i) == if out == [] then -1 else rest[|rest| - 1]
  {
    hide Above;
    out, rest := stack, at;
    while |out| > 0 && out[|out| - 1].level >= level
      invariant Chain(heads, names, out, rest)
      invariant forall k :: (if out == [] then -1 else rest[|rest| - 1] as int) < k < i ==> heads[k].level >= level
    {
      PopOne(heads, names, out, rest, level, i);
      out, rest := out[..|out| - 1], rest[..|rest| - 1];
    }
    AboveIs(heads, i, if out == [] then -1 else rest[|rest| - 1]);
  }

  lemma PopOne(heads: seq<Head>, names: seq<Name>, out: seq<Frame>, rest: seq<nat>, level: nat, i: nat)
    requires Chain(heads, names, out, rest) && out != [] && out[|out| - 1].level >= level && i <= |heads|
    requires forall k :: rest[|rest| - 1] < k < i ==> heads[k].level >= level
    ensures var o, r := out[..|out| - 1], rest[..|rest| - 1];
      Chain(heads, names, o, r) && forall k :: (if o == [] then -1 else r[|r| - 1] as int) < k < i ==> heads[k].level >= level
  {
    hide Above;
    var top := rest[|rest| - 1];
    assert heads[top].level >= level && Parent(heads, top) == if |out| == 1 then -1 else rest[|rest| - 2];
  }

  lemma {:induction false} AboveFrom(heads: seq<Head>, i: nat, from: nat, p: int)
    requires i < |heads| && from <= i && -1 <= p < from
    requires p >= 0 ==> heads[p].level < heads[i].level
    requires forall k :: p < k < from ==> heads[k].level >= heads[i].level
    ensures Above(heads, i, from) == p
    decreases from
  {
    if from > p + 1 { AboveFrom(heads, i, from - 1, p); }
  }

  lemma AboveIs(heads: seq<Head>, i: nat, p: int)
    requires i < |heads| && -1 <= p < i
    requires p >= 0 ==> heads[p].level < heads[i].level
    requires forall k :: p < k < i ==> heads[k].level >= heads[i].level
    ensures Parent(heads, i) == p
  {
    AboveFrom(heads, i, i, p);
  }

  lemma ParentPrefix(heads: seq<Head>, n: nat, i: nat, from: nat)
    requires i < n <= |heads| && from <= i
    ensures Above(heads[..n], i, from) == Above(heads, i, from)
  {
    if from > 0 { ParentPrefix(heads, n, i, from - 1); }
  }

  lemma NamesNext(t: Text, heads: seq<Head>, i: nat)
    requires i < |heads|
    ensures var before, p := Names(t, heads[..i]), Parent(heads, i);
      Names(t, heads[..i + 1]) ==
      before + [NameOf(if p < 0 then None else Some(before[p].id), Segment(t, heads[i].title), before)]
  {
    assert heads[..i + 1][..i] == heads[..i];
    ParentPrefix(heads, i + 1, i, i);
  }

  function BlockOf(heads: seq<Head>, names: seq<Name>, i: nat, eof: nat): Block
    requires i < |heads| && i < |names|
  {
    Block(names[i].id, heads[i].level, heads[i].title, heads[i].line, End(heads, i, eof))
  }

  function PreambleEnd(heads: seq<Head>, eof: nat): nat {
    if heads == [] then eof else heads[0].line
  }

  function Headings(t: Text, heads: seq<Head>, eof: nat): seq<Block> {
    seq(|heads|, i requires 0 <= i < |heads| => BlockOf(heads, Names(t, heads), i, eof))
  }

  /** The preamble's block, when some line comes before the first heading, then the headings'. */
  function Blocks(t: Text, heads: seq<Head>, eof: nat): seq<Block> {
    (if PreambleEnd(heads, eof) > 1 then [Block("preamble", 0, "", 1, PreambleEnd(heads, eof))] else []) +
    Headings(t, heads, eof)
  }

  lemma NamesInit(t: Text, heads: seq<Head>)
    requires heads != []
    ensures Names(t, heads)[..|heads| - 1] == Names(t, heads[..|heads| - 1])
  {
    hide NameOf, Segment, Above;
  }

  lemma {:induction false} NamesPrefix(t: Text, heads: seq<Head>, n: nat)
    requires n <= |heads|
    ensures Names(t, heads)[..n] == Names(t, heads[..n])
    decreases |heads|
  {
    hide Names;
    if n < |heads| {
      var init := heads[..|heads| - 1];
      assert init[..n] == heads[..n];
      NamesInit(t, heads);
      NamesPrefix(t, init, n);
      assert Names(t, heads)[..|init|][..n] == Names(t, heads)[..n];
    } else {
      assert heads[..n] == heads;
    }
  }

  method FindEnd(heads: seq<Head>, i: nat, eof: nat) returns (end: nat)
    requires i < |heads|
    ensures end == End(heads, i, eof)
  {
    end := eof;
    for j := i + 1 to |heads|
      invariant end == eof && End(heads, i, eof) == EndOf(heads, i, j, eof)
    {
      if heads[j].level <= heads[i].level {
        return heads[j].line;
      }
    }
  }

  method BlocksFromMarkdown(t: Text, lines: seq<string>) returns (blocks: seq<Block>)
    ensures blocks == if lines == [] then [] else Blocks(t, HeadsFrom(t, lines, 0, None), |lines| + 1)
  {
    hide HeadsFrom, Headings;
    if |lines| == 0 {
      return [];
    }
    var heads := FindHeads(t, lines);
    var eof := |lines| + 1;
    var preEnd := eof;
    if |heads| > 0 {
      preEnd := heads[0].line;
    }
    blocks := [];
    if preEnd > 1 {
      blocks := blocks + [Block("preamble", 0, "", 1, preEnd)];
    }
    var named := HeadingBlocks(t, heads, eof);
    blocks := blocks + named;
  }

  /** used has how many names have each base. */
  ghost predicate Counts(used: map<string, nat>, names: seq<Name>) {
    forall b :: (if b in used then used[b] else 0) == Uses(names, b)
  }

  /** The id of a heading under the innermost frame, and the uses counted with it. */
  method NextId(stack: seq<Frame>, seg: string, used: map<string, nat>, ghost names: seq<Name>)
    returns (id: string, now: map<string, nat>, ghost name: Name)
    requires Counts(used, names)
    ensures name == NameOf(if stack == [] then None else Some(stack[|stack| - 1].path), seg, names) && id == name.id
    ensures Counts(now, names + [name])
  {
    hide Uses;
    var base := if |stack| == 0 then seg else stack[|stack| - 1].path + "/" + seg;
    var n := (if base in used then used[base] else 0) + 1;
    now := used[base := n];
    id := base;
    if n > 1 {
      id := if |stack| == 0 then seg + "-" + Decimal(n) else stack[|stack| - 1].path + "/" + seg + "-" + Decimal(n);
    }
    name := NameOf(if stack == [] then None else Some(stack[|stack| - 1].path), seg, names);
    UsesMore(names, name);
  }

  lemma PushChain(heads: seq<Head>, names: seq<Name>, name: Name, stack: seq<Frame>, at: seq<nat>)
    requires |names| < |heads| && Chain(heads, names, stack, at)
    requires Parent(heads, |names|) == if stack == [] then -1 else at[|at| - 1]
    ensures Chain(heads, names + [name], stack + [Frame(heads[|names|].level, name.id)], at + [|names|])
  {
    hide Above;
  }

  method HeadingBlocks(t: Text, heads: seq<Head>, eof: nat) returns (blocks: seq<Block>)
    ensures blocks == Headings(t, heads, eof)
  {
    hide Names, Uses, Above, EndOf, Segment, Chain, Counts, BlocksSoFar, BlockOf, Headings, NameOf;
    blocks := [];
    var stack: seq<Frame> := [];
    var used: map<string, nat> := map[];
    ghost var names: seq<Name>, at: seq<nat> := [], [];
    NoNames(t, heads, eof);
    for i := 0 to |heads|
      invariant |blocks| == i && names == Names(t, heads[..i]) && Chain(heads, names, stack, at)
      invariant |at| == |stack| && if i == 0 then stack == [] else stack != [] && at[|at| - 1] == i - 1
      invariant Counts(used, names) && BlocksSoFar(heads, names, blocks, eof)
    {
      var h := heads[i];
      stack, at := Pop(heads, names, stack, at, h.level, i);
      TopName(heads, names, stack, at);
      NamesNext(t, heads, i);
      var id: string;
      ghost var name: Name;
      id, used, name := NextId(stack, Segment(t, h.title), used, names);
      PushChain(heads, names, name, stack, at);
      stack, at := stack + [Frame(h.level, id)], at + [i];
      var end := FindEnd(heads, i, eof);
      BlocksNext(heads, names, name, blocks, eof);
      names := names + [name];
      blocks := blocks + [Block(id, h.level, h.title, h.line, end)];
    }
    assert heads[..|heads|] == heads;
    BlocksAll(t, heads, blocks, eof);
  }

  /** The blocks of the headings named so far. */
  ghost predicate BlocksSoFar(heads: seq<Head>, names: seq<Name>, blocks: seq<Block>, eof: nat) {
    |blocks| == |names| <= |heads| && forall k :: 0 <= k < |blocks| ==> blocks[k] == BlockOf(heads, names, k, eof)
  }

  lemma BlocksNext(heads: seq<Head>, names: seq<Name>, name: Name, blocks: seq<Block>, eof: nat)
    requires BlocksSoFar(heads, names, blocks, eof) && |names| < |heads|
    ensures var i := |names|;
      BlocksSoFar(heads, names + [name],
                  blocks + [Block(name.id, heads[i].level, heads[i].title, heads[i].line, End(heads, i, eof))], eof)
  {
    hide End;
  }

  lemma BlocksAll(t: Text, heads: seq<Head>, blocks: seq<Block>, eof: nat)
    requires BlocksSoFar(heads, Names(t, heads), blocks, eof)
    ensures blocks == Headings(t, heads, eof)
  {
    hide BlockOf;
  }

  lemma NoNames(t: Text, heads: seq<Head>, eof: nat)
    ensures Names(t, heads[..0]) == [] && Chain(heads, [], [], []) && Counts(map[], []) && BlocksSoFar(heads, [], [], eof)
  {
  }

  lemma TopName(heads: seq<Head>, names: seq<Name>, stack: seq<Frame>, at: seq<nat>)
    requires Chain(heads, names, stack, at)
    ensures |at| == |stack|
    ensures stack != [] ==> at[|at| - 1] < |names| && stack[|stack| - 1].path == names[at[|at| - 1]].id
  {
  }

  lemma UsesMore(names: seq<Name>, name: Name)
    ensures forall b :: Uses(names + [name], b) == Uses(names, b) + if name.base == b then 1 else 0
  {
    assert (names + [name])[..|names|] == names;
  }
}
