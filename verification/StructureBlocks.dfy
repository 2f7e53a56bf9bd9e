/** The blocks of a Markdown text, told from its lines (vfs/structure.go): what a heading is, which
    lines are in fenced code, where a heading's span ends and what its id is. */
module StructureBlocks {
  import opened Messages
  import opened Numerals
  import opened Structure
  import opened StructureIds

  // ---------------------------------------------------------------------------------------------
  // Headings
  // ---------------------------------------------------------------------------------------------

  predicate IsBlank(c: char) {
    c == ' ' || c == '\t'
  }

  /** Up to three spaces, one to six hashes, and then a blank or the end of the line. */
  predicate IsAtx(line: string, indent: nat, level: nat) {
    indent <= 3 && 1 <= level <= 6 && indent + level <= |line| &&
    (forall k :: 0 <= k < indent ==> line[k] == ' ') && (forall k :: indent <= k < indent + level ==> line[k] == '#') &&
    (indent + level == |line| || IsBlank(line[indent + level]))
  }

  /** From j on there are only hashes, after a blank. */
  predicate IsClosing(text: string, j: nat) {
    0 < j < |text| && IsBlank(text[j - 1]) && forall k :: j <= k < |text| ==> text[k] == '#'
  }

  /** The text after the hashes, without closing hashes. */
  ghost predicate IsTitle(t: Text, text: string, title: string) {
    if exists j: nat :: IsClosing(text, j) then exists j: nat :: IsClosing(text, j) && title == t.trim(text[..j])
    else title == text
  }

  ghost predicate IsHeading(t: Text, line: string, level: nat, title: string) {
    exists indent: nat :: IsAtx(line, indent, level) && IsTitle(t, t.trim(line[indent + level..]), title)
  }

  lemma {:induction false} RunIs(s: string, at: nat, c: char)
    requires at <= |s|
    ensures var n := RunOf(s, at, c);
      (forall k :: at <= k < at + n ==> s[k] == c) && (at + n == |s| || s[at + n] != c)
    decreases |s| - at
  {
    if at < |s| && s[at] == c { RunIs(s, at + 1, c); }
  }

  lemma {:induction false} HashesAre(s: string, j: nat)
    requires j <= |s|
    ensures var k := BeforeHashes(s, j);
      (forall m :: k <= m < j ==> s[m] == '#') && (k == 0 || s[k - 1] != '#')
    decreases j
  {
    if j > 0 && s[j - 1] == '#' { HashesAre(s, j - 1); }
  }

  lemma TitleIs(t: Text, text: string, title: string)
    ensures IsTitle(t, text, title) <==> title == WithoutClosing(t, text)
  {
    hide BeforeHashes;
    HashesAre(text, |text|);
    var k := BeforeHashes(text, |text|);
    forall j: nat | IsClosing(text, j) ensures j == k {
      var c := text[j - 1];
      assert IsBlank(c);
    }
    if 0 < k < |text| && IsBlank(text[k - 1]) { assert IsClosing(text, k); }
  }

  lemma HeadingIs(t: Text, line: string, level: nat, title: string)
    ensures Heading(t, line) == Some((level, title)) <==> IsHeading(t, line, level, title)
  {
    hide RunOf, WithoutClosing, IsTitle;
    var spaces := RunOf(line, 0, ' ');
    var i := if spaces < 3 then spaces else 3;
    RunIs(line, 0, ' ');
    RunIs(line, i, '#');
    var n := RunOf(line, i, '#');
    TitleIs(t, t.trim(line[i + n..]), title);
    forall indent: nat, lv: nat | IsAtx(line, indent, lv) ensures indent == i && lv == n {
      assert line[indent] == '#';
    }
    if Heading(t, line).Some? { assert IsAtx(line, i, n); }
  }

  // ---------------------------------------------------------------------------------------------
  // Fences
  // ---------------------------------------------------------------------------------------------

  predicate IsMark(s: string, c: char) {
    |s| >= 3 && s[0] == c && s[1] == c && s[2] == c
  }

  /** The mark of the fence that line i is in: it opens at a mark, and closes at the same one. */
  function FenceAt(t: Text, lines: seq<string>, i: nat): Option<char>
    requires i <= |lines|
  {
    if i == 0 then None
    else
      var s := t.trim(lines[i - 1]);
      match FenceAt(t, lines, i - 1)
      case Some(c) => if IsMark(s, c) then None else Some(c)
      case None => if IsMark(s, '`') then Some('`') else if IsMark(s, '~') then Some('~') else None
  }

  /** A heading on a line that is in no fence and opens none. */
  ghost predicate Shows(t: Text, lines: seq<string>, h: Head) {
    1 <= h.line <= |lines| &&
    var line := lines[h.line - 1];
    FenceAt(t, lines, h.line - 1).None? && !IsMark(t.trim(line), '`') && !IsMark(t.trim(line), '~') &&
    IsHeading(t, line, h.level, h.title)
  }

  function MarkOf(fence: Option<char>): Option<string> {
    match fence
    case None => None
    case Some(c) => Some([c, c, c])
  }

  lemma MarksAre(s: string, c: char)
    ensures [c, c, c] <= s <==> IsMark(s, c)
  {
    if IsMark(s, c) { assert s[..3] == [c, c, c]; }
  }

  lemma FenceNext(t: Text, lines: seq<string>, i: nat)
    requires i < |lines|
    ensures var s, fence := t.trim(lines[i]), MarkOf(FenceAt(t, lines, i));
      MarkOf(FenceAt(t, lines, i + 1)) ==
        (if fence.Some? then if fence.value <= s then None else fence else FenceOpen(s)) &&
      (FenceOpen(s).None? <==> !IsMark(s, '`') && !IsMark(s, '~'))
  {
    hide IsMark;
    var s := t.trim(lines[i]);
    assert BACKTICKS == ['`', '`', '`'] && TILDES == ['~', '~', '~'];
    MarksAre(s, '`');
    MarksAre(s, '~');
    match FenceAt(t, lines, i) {
      case None =>
      case Some(c) => MarksAre(s, c);
    }
  }

  lemma {:induction false} HeadsAre(t: Text, lines: seq<string>, i: nat, h: Head)
    requires i <= |lines|
    ensures h in HeadsFrom(t, lines, i, MarkOf(FenceAt(t, lines, i))) <==> h.line > i && Shows(t, lines, h)
    decreases |lines| - i
  {
    hide HeadsFrom, Heading, IsHeading, IsMark, FenceAt, FenceOpen;
    HeadsStep(t, lines, i, MarkOf(FenceAt(t, lines, i)));
    if i < |lines| {
      FenceNext(t, lines, i);
      HeadsAre(t, lines, i + 1, h);
      HeadingIs(t, lines[i], h.level, h.title);
    }
  }

  // ---------------------------------------------------------------------------------------------
  // Blocks
  // ---------------------------------------------------------------------------------------------

  function HeadOf(b: Block): Head {
    Head(b.start, b.level, b.title)
  }

  /** Block i ends where block k begins, the next one of its level or above. */
  predicate StopsAt(bs: seq<Block>, i: nat, k: nat)
    requires i < k < |bs|
  {
    bs[k].level <= bs[i].level && bs[i].end == bs[k].start && forall m :: i < m < k ==> bs[m].level > bs[i].level
  }

  /** Block i ends at the next heading of its level or above, or after the last line. */
  predicate EndsAt(bs: seq<Block>, i: nat, eof: nat)
    requires i < |bs|
  {
    if exists k :: i < k < |bs| && bs[k].level <= bs[i].level then exists k :: i < k < |bs| && StopsAt(bs, i, k)
    else bs[i].end == eof
  }

  /** The nearest heading above of a lower level is p, or there is none. */
  predicate IsUnder(bs: seq<Block>, i: nat, p: int)
    requires i < |bs|
  {
    -1 <= p < i && (p >= 0 ==> bs[p].level < bs[i].level) && forall k :: p < k < i ==> bs[k].level >= bs[i].level
  }

  /** An id begins with the id of the heading it is under; its own part is the title's slug. */
  ghost predicate IsBase(t: Text, bs: seq<Block>, i: nat, base: string)
    requires i < |bs|
  {
    exists p: int :: IsUnder(bs, i, p) &&
      base == (if p < 0 then "" else bs[p].id + "/") + if t.slug(bs[i].title) != "" then t.slug(bs[i].title) else "section"
  }

  /** How often a base came up to heading i. */
  function TimesTo(bases: seq<string>, i: nat): nat
    requires i < |bases|
  {
    |set j: nat | j <= i && bases[j] == bases[i]|
  }

  /** Each id is its base, with its number from the second time on. */
  ghost predicate IdsAre(t: Text, bs: seq<Block>, bases: seq<string>) {
    |bases| == |bs| && forall i: nat :: i < |bs| ==>
      IsBase(t, bs, i, bases[i]) &&
      bs[i].id == if TimesTo(bases, i) == 1 then bases[i] else bases[i] + "-" + Decimal(TimesTo(bases, i))
  }

  /** A block for each heading that shows, in line order, with its end and its id. */
  ghost predicate HeadBlocks(t: Text, lines: seq<string>, bs: seq<Block>, eof: nat) {
    (forall h :: Shows(t, lines, h) <==> exists i :: 0 <= i < |bs| && HeadOf(bs[i]) == h) &&
    (forall i, j :: 0 <= i < j < |bs| ==> bs[i].start < bs[j].start) &&
    (forall i: nat :: i < |bs| ==> EndsAt(bs, i, eof)) && exists bases :: IdsAre(t, bs, bases)
  }

  /** What the blocks of a text are: a preamble when the first line is no heading, and then a block for
      each heading outside fenced code. */
  ghost predicate BlocksOf(t: Text, lines: seq<string>, blocks: seq<Block>) {
    if blocks != [] && blocks[0].level == 0 then
      var bs := blocks[1..];
      HeadBlocks(t, lines, bs, |lines| + 1) && (bs == [] || bs[0].start > 1) &&
      blocks[0] == Block("preamble", 0, "", 1, if bs == [] then |lines| + 1 else bs[0].start)
    else HeadBlocks(t, lines, blocks, |lines| + 1) && (lines == [] || (blocks != [] && blocks[0].start == 1))
  }

  lemma HeadingAt(t: Text, heads: seq<Head>, eof: nat, i: nat)
    requires i < |heads|
    ensures |Headings(t, heads, eof)| == |heads| && HeadOf(Headings(t, heads, eof)[i]) == heads[i]
    ensures Headings(t, heads, eof)[i].end == End(heads, i, eof) && Headings(t, heads, eof)[i].id == Names(t, heads)[i].id
  {
    hide Names, EndOf;
  }

  lemma SameHeads(t: Text, heads: seq<Head>, eof: nat)
    ensures var bs := Headings(t, heads, eof); |bs| == |heads| && forall i :: 0 <= i < |bs| ==> HeadOf(bs[i]) == heads[i]
  {
    hide Headings;
    if heads == [] { NoHeadings(t, eof); } else { HeadingAt(t, heads, eof, 0); }
    forall i | 0 <= i < |heads| ensures HeadOf(Headings(t, heads, eof)[i]) == heads[i] { HeadingAt(t, heads, eof, i); }
  }

  lemma SameLevels(t: Text, heads: seq<Head>, eof: nat)
    ensures var bs := Headings(t, heads, eof); |bs| == |heads| && forall i :: 0 <= i < |bs| ==> bs[i].level == heads[i].level
  {
    hide Headings;
    SameHeads(t, heads, eof);
    var bs := Headings(t, heads, eof);
    forall i | 0 <= i < |bs| ensures bs[i].level == heads[i].level { assert HeadOf(bs[i]) == heads[i]; }
  }

  lemma NoHeadings(t: Text, eof: nat)
    ensures Headings(t, [], eof) == []
  {
  }

  lemma DeeperLevel(heads: seq<Head>, j: nat, i: nat)
    requires j < i < |heads| && Deeper(heads, j, i)
    ensures heads[i].level > heads[j].level
  {
  }

  lemma DeeperWithin(heads: seq<Head>, i: nat, m: nat, k: nat, eof: nat)
    requires i < m < k < |heads| && eof > 0 && Rising(heads, eof - 1) && End(heads, i, eof) == heads[k].line
    ensures heads[m].level > heads[i].level
  {
    hide EndOf, Deeper;
    ContainsHeading(heads, i, m, eof);
    assert heads[i].line < heads[m].line < heads[k].line;
    DeeperLevel(heads, i, m);
  }

  lemma StopsWhere(t: Text, heads: seq<Head>, eof: nat, i: nat, k: nat)
    requires i < k < |heads| && eof > 0 && Rising(heads, eof - 1)
    requires heads[k].level <= heads[i].level && End(heads, i, eof) == heads[k].line
    ensures |Headings(t, heads, eof)| == |heads| && StopsAt(Headings(t, heads, eof), i, k)
  {
    hide Headings, EndOf, Rising;
    var bs := Headings(t, heads, eof);
    SameHeads(t, heads, eof);
    HeadingAt(t, heads, eof, i);
    assert HeadOf(bs[k]) == heads[k] && HeadOf(bs[i]) == heads[i];
    forall m | i < m < k ensures bs[m].level > bs[i].level {
      assert HeadOf(bs[m]) == heads[m];
      DeeperWithin(heads, i, m, k, eof);
    }
  }

  lemma StopsOrNot(heads: seq<Head>, i: nat, eof: nat)
    requires i < |heads| && eof > 0 && Rising(heads, eof - 1)
    ensures if forall k :: i < k < |heads| ==> heads[k].level > heads[i].level then End(heads, i, eof) == eof
      else exists k :: i < k < |heads| && heads[k].level <= heads[i].level && End(heads, i, eof) == heads[k].line
  {
    hide EndOf;
    EndIs(heads, i, i + 1, eof);
    if k :| i < k < |heads| && heads[k].level <= heads[i].level {
      assert !Deeper(heads, i, k) && heads[k].line < eof;
    }
  }

  lemma HeadingEnds(t: Text, heads: seq<Head>, eof: nat, i: nat)
    requires i < |heads| && eof > 0 && Rising(heads, eof - 1)
    ensures |Headings(t, heads, eof)| == |heads| && EndsAt(Headings(t, heads, eof), i, eof)
  {
    hide Headings, EndOf, StopsAt, Rising, HeadOf;
    var bs := Headings(t, heads, eof);
    SameLevels(t, heads, eof);
    HeadingAt(t, heads, eof, i);
    StopsOrNot(heads, i, eof);
    if k :| i < k < |heads| && heads[k].level <= heads[i].level {
      assert bs[k].level <= bs[i].level;
      var first :| i < first < |heads| && heads[first].level <= heads[i].level && End(heads, i, eof) == heads[first].line;
      StopsWhere(t, heads, eof, i, first);
    }
  }

  function Bases(names: seq<Name>): (bases: seq<string>)
    ensures |bases| == |names| && forall i :: 0 <= i < |bases| ==> bases[i] == names[i].base
  {
    seq(|names|, i requires 0 <= i < |names| => names[i].base)
  }

  function With(names: seq<Name>, base: string): set<nat> {
    set j: nat | j < |names| && names[j].base == base
  }

  lemma WithLast(names: seq<Name>, base: string)
    requires names != []
    ensures var n := |names| - 1;
      |With(names, base)| == |With(names[..n], base)| + if names[n].base == base then 1 else 0
  {
    var n: nat := |names| - 1;
    var before := With(names[..n], base);
    assert With(names, base) == if names[n].base == base then before + {n} else before;
  }

  lemma UsesLast(names: seq<Name>, base: string)
    requires names != []
    ensures Uses(names, base) == Uses(names[..|names| - 1], base) + if names[|names| - 1].base == base then 1 else 0
  {
  }

  lemma {:induction false} UsesCount(names: seq<Name>, base: string)
    ensures Uses(names, base) == |With(names, base)|
    decreases |names|
  {
    if names == [] {
      assert With(names, base) == {};
    } else {
      hide Uses;
      var n, init := |names| - 1, names[..|names| - 1];
      UsesCount(init, base);
      WithLast(names, base);
      UsesLast(names, base);
    }
  }

  lemma TimesAre(names: seq<Name>, i: nat)
    requires i < |names|
    ensures TimesTo(Bases(names), i) == Uses(names[..i], names[i].base) + 1
  {
    UsesCount(names[..i], names[i].base);
    var before := With(names[..i], names[i].base);
    assert (set j: nat | j <= i && Bases(names)[j] == Bases(names)[i]) == before + {i};
  }

  lemma HeadingIds(t: Text, heads: seq<Head>, eof: nat)
    ensures |Headings(t, heads, eof)| == |heads| && IdsAre(t, Headings(t, heads, eof), Bases(Names(t, heads)))
  {
    hide Headings, Names, Uses, TimesTo, IsBase, Above, Bases;
    SameHeads(t, heads, eof);
    var bs, names := Headings(t, heads, eof), Names(t, heads);
    forall i: nat | i < |bs|
      ensures IsBase(t, bs, i, Bases(names)[i])
      ensures bs[i].id == if TimesTo(Bases(names), i) == 1 then names[i].base else names[i].base + "-" + Decimal(TimesTo(Bases(names), i))
    {
      HeadingAt(t, heads, eof, i);
      NameAt(t, heads, i);
      TimesAre(names, i);
      HeadingBase(t, heads, eof, i);
    }
  }

  lemma HeadingBase(t: Text, heads: seq<Head>, eof: nat, i: nat)
    requires i < |heads|
    ensures |Headings(t, heads, eof)| == |heads| && IsBase(t, Headings(t, heads, eof), i, Names(t, heads)[i].base)
  {
    hide Headings, Names, Uses, Above, Decimal;
    SameHeads(t, heads, eof);
    var bs, p := Headings(t, heads, eof), Parent(heads, i);
    NameAt(t, heads, i);
    HeadingAt(t, heads, eof, i);
    if p >= 0 { HeadingAt(t, heads, eof, p); }
    assert forall k :: 0 <= k < |bs| ==> bs[k].level == HeadOf(bs[k]).level;
    assert IsUnder(bs, i, p);
  }

  lemma HeadingBlocksAre(t: Text, lines: seq<string>)
    ensures var eof := |lines| + 1; HeadBlocks(t, lines, Headings(t, HeadsFrom(t, lines, 0, None), eof), eof)
  {
    hide HeadsFrom, Headings, EndOf, IdsAre, EndsAt, Shows, Names;
    var heads, eof := HeadsFrom(t, lines, 0, None), |lines| + 1;
    var bs := Headings(t, heads, eof);
    HeadsRise(t, lines, 0, None);
    SameHeads(t, heads, eof);
    forall h ensures Shows(t, lines, h) <==> exists i :: 0 <= i < |bs| && HeadOf(bs[i]) == h {
      HeadsAre(t, lines, 0, h);
      ShownLine(t, lines, h);
    }
    forall i, j | 0 <= i < j < |bs| ensures bs[i].start < bs[j].start {
      assert HeadOf(bs[i]) == heads[i] && HeadOf(bs[j]) == heads[j];
    }
    forall i: nat | i < |bs| ensures EndsAt(bs, i, eof) { HeadingEnds(t, heads, eof, i); }
    HeadingIds(t, heads, eof);
  }

  /** Main result: for every text, what its blocks are. */
  lemma MarkdownBlocks(t: Text, lines: seq<string>)
    ensures BlocksOf(t, lines, if lines == [] then [] else Blocks(t, HeadsFrom(t, lines, 0, None), |lines| + 1))
  {
    hide HeadsFrom, Headings, HeadBlocks;
    var heads, eof := HeadsFrom(t, lines, 0, None), |lines| + 1;
    var bs := Headings(t, heads, eof);
    HeadsRise(t, lines, 0, None);
    SameHeads(t, heads, eof);
    HeadingBlocksAre(t, lines);
    assert bs != [] ==> HeadOf(bs[0]) == heads[0];
    if lines == [] {
      NoLines(t, heads, lines);
      assert bs == [];
    } else if PreambleEnd(heads, eof) > 1 {
      assert Blocks(t, heads, eof)[1..] == bs;
    } else {
      assert Blocks(t, heads, eof) == bs;
    }
  }

  lemma NoLines(t: Text, heads: seq<Head>, lines: seq<string>)
    requires lines == [] && heads == HeadsFrom(t, lines, 0, None)
    ensures heads == []
  {
  }

  lemma ShownLine(t: Text, lines: seq<string>, h: Head)
    ensures Shows(t, lines, h) ==> h.line > 0
  {
  }
}
