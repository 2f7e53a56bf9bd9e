/** The ids of Markdown headings (vfs/structure.go): hierarchical, and when two are the same. */
module StructureIds {
  import opened Messages
  import opened Numerals
  import opened Structure

  /** What every heading's name is, in terms of the names before it. */
  lemma NameAt(t: Text, heads: seq<Head>, i: nat)
    requires i < |heads|
    ensures var names, p := Names(t, heads), Parent(heads, i);
      names[i] == NameOf(if p < 0 then None else Some(names[p].id), Segment(t, heads[i].title), names[..i])
  {
    hide Segment, NameOf, Above;
    NamesPrefix(t, heads, i + 1);
    NamesPrefix(t, heads, i);
    NamesNext(t, heads, i);
    var names, p := Names(t, heads), Parent(heads, i);
    assert names[i] == names[..i + 1][i];
    if p >= 0 { assert names[..i][p] == names[p]; }
  }

  /** The id of a heading starts with its parent's id and a slash; the spans nest the same way. */
  lemma ChildIdExtends(t: Text, heads: seq<Head>, i: nat, eof: nat)
    requires i < |heads| && eof > 0 && Rising(heads, eof - 1) && Parent(heads, i) >= 0
    ensures var p := Parent(heads, i);
      Names(t, heads)[p].id + "/" <= Names(t, heads)[i].id &&
      Contains(heads, p, heads[i].line, eof) && End(heads, i, eof) <= End(heads, p, eof)
  {
    hide Names, Segment, Above, EndOf;
    NameAt(t, heads, i);
    var p := Parent(heads, i);
    ParentIsInnermost(heads, i, p, eof);
    SpansNest(heads, p, i, eof);
    var base := BaseOf(Some(Names(t, heads)[p].id), Segment(t, heads[i].title));
    assert Names(t, heads)[p].id + "/" <= base;
  }

  // ---------------------------------------------------------------------------------------------
  // When two ids are the same
  // ---------------------------------------------------------------------------------------------

  /** How the id of a later use of a base ends. */
  function Suffixed(base: string, n: nat): string {
    base + "-" + Decimal(n)
  }

  lemma AfterDash(a: string, x: string, k: nat)
    requires |a| < k < |a + "-" + x|
    ensures (a + "-" + x)[k] in x
  {
    assert (a + "-" + x)[k] == x[k - |a| - 1];
  }

  /** The last dash of a suffixed base is the one put there. */
  lemma LastDash(a: string, x: string, k: nat)
    requires k < |a + "-" + x| && (a + "-" + x)[k] == '-' && '-' !in x
    ensures k <= |a|
  {
    if k > |a| { AfterDash(a, x, k); }
  }

  lemma DashUnique(a: string, x: string, b: string, y: string)
    requires a + "-" + x == b + "-" + y && '-' !in x && '-' !in y
    ensures a == b && x == y
  {
    var s := a + "-" + x;
    assert s[|a|] == '-' && s[|b|] == '-';
    LastDash(a, x, |b|);
    LastDash(b, y, |a|);
    assert a == s[..|a|] == b && x == s[|a| + 1..] == y;
  }

  lemma SuffixUnique(a: string, n: nat, b: string, m: nat)
    requires Suffixed(a, n) == Suffixed(b, m)
    ensures a == b && n == m
  {
    hide Decimal;
    DecimalDigits(n);
    DecimalDigits(m);
    DashUnique(a, Decimal(n), b, Decimal(m));
    DecimalInjective(n, m);
  }

  lemma {:induction false} UsesGrow(names: seq<Name>, i: nat, j: nat)
    requires i < j <= |names|
    ensures Uses(names[..i], names[i].base) < Uses(names[..j], names[i].base)
    decreases j
  {
    assert names[..j][..j - 1] == names[..j - 1];
    if j > i + 1 { UsesGrow(names, i, j - 1); }
  }

  /** One is the first use of a base that is the other's base with its number. */
  predicate Clash(a: Name, b: Name) {
    (a.uses == 1 && b.uses > 1 && a.base == Suffixed(b.base, b.uses)) ||
    (a.uses > 1 && b.uses == 1 && Suffixed(a.base, a.uses) == b.base)
  }

  /** Two headings have one id if and only if the number put on one of them makes the base of the
      other, used there for the first time. */
  lemma SameIdExactly(t: Text, heads: seq<Head>, i: nat, j: nat)
    requires i < j < |heads|
    ensures Names(t, heads)[i].id == Names(t, heads)[j].id <==> Clash(Names(t, heads)[i], Names(t, heads)[j])
  {
    hide Names, Segment, Above, Uses;
    NameAt(t, heads, i);
    NameAt(t, heads, j);
    var names := Names(t, heads);
    var a, b := names[i], names[j];
    NamedId(a, b, names, i, j);
    if a.id == b.id && a.uses > 1 && b.uses > 1 { SuffixUnique(a.base, a.uses, b.base, b.uses); }
  }

  lemma NamedId(a: Name, b: Name, names: seq<Name>, i: nat, j: nat)
    requires i < j < |names| && a == names[i] && b == names[j]
    requires a.uses == Uses(names[..i], a.base) + 1 && b.uses == Uses(names[..j], b.base) + 1
    ensures a.base == b.base ==> a.uses < b.uses
  {
    UsesGrow(names, i, j);
  }

  const PREAMBLE := "preamble"

  /** The first heading outside every other whose segment is the preamble's id. */
  predicate NamesPreamble(t: Text, heads: seq<Head>, i: nat)
    requires i < |heads|
  {
    Parent(heads, i) < 0 && Segment(t, heads[i].title) == PREAMBLE && Names(t, heads)[i].uses == 1
  }

  lemma HeadingPreamble(t: Text, heads: seq<Head>, i: nat)
    requires i < |heads|
    ensures Names(t, heads)[i].id == PREAMBLE <==> NamesPreamble(t, heads, i)
  {
    hide Names, Segment, Above, Uses, Decimal;
    NameAt(t, heads, i);
    var name, p, seg := Names(t, heads)[i], Parent(heads, i), Segment(t, heads[i].title);
    if p >= 0 { HoldsAt(Names(t, heads)[p].id, "/", seg); }
    HoldsAt(name.base, "-", Decimal(name.uses));
    if p >= 0 && name.uses > 1 {
      assert name.base[|Names(t, heads)[p].id|] == '/';
      assert name.id[|Names(t, heads)[p].id|] == '/';
    }
  }

  lemma HoldsAt(a: string, c: string, b: string)
    requires |c| == 1
    ensures (a + c + b)[|a|] == c[0] && c[0] in a + c + b
  {
  }

  /** Main result on ids, over all blocks of a text: two headings share one exactly when they clash, and
      a heading has the preamble's exactly when it is the first outside every other with its segment. */
  lemma SameBlockId(t: Text, heads: seq<Head>, eof: nat, a: nat, b: nat)
    requires a < b < |Blocks(t, heads, eof)|
    ensures var blocks, first := Blocks(t, heads, eof), if PreambleEnd(heads, eof) > 1 then 1 else 0;
      blocks[a].id == blocks[b].id <==>
      if a < first then NamesPreamble(t, heads, b - first) else Clash(Names(t, heads)[a - first], Names(t, heads)[b - first])
  {
    hide Names, Segment, EndOf, NamesPreamble, Clash;
    var first := if PreambleEnd(heads, eof) > 1 then 1 else 0;
    assert Blocks(t, heads, eof)[b] == BlockOf(heads, Names(t, heads), b - first, eof);
    if a < first {
      HeadingPreamble(t, heads, b - first);
    } else {
      assert Blocks(t, heads, eof)[a] == BlockOf(heads, Names(t, heads), a - first, eof);
      SameIdExactly(t, heads, a - first, b - first);
    }
  }

  /** Headings "A", "A" and "A 2" of one level: the second and the third have one id. */
  lemma RepeatedId(t: Text)
    requires t.slug("A") == "a" && t.slug("A 2") == "a-2"
    ensures var names := Names(t, [Head(1, 1, "A"), Head(2, 1, "A"), Head(3, 1, "A 2")]);
      names[1].id == "a-2" && names[2].id == "a-2"
  {
    hide Names;
    var heads := [Head(1, 1, "A"), Head(2, 1, "A"), Head(3, 1, "A 2")];
    var names := Names(t, heads);
    NameAt(t, heads, 0);
    NameAt(t, heads, 1);
    NameAt(t, heads, 2);
    assert Parent(heads, 0) == -1 && Parent(heads, 1) == -1 && Parent(heads, 2) == -1;
    assert names[..0] == [] && names[..1][..0] == [] && names[..1][0] == names[0];
    assert names[0] == Name("a", 1, "a");
    assert Uses(names[..1], "a") == Uses(names[..1][..0], "a") + 1;
    assert "a" + "-" + Decimal(2) == "a-2";
    assert names[1] == Name("a", 2, "a-2");
    assert names[..2][..1] == names[..1] && names[..2][1] == names[1];
    assert Uses(names[..2], "a-2") == Uses(names[..1], "a-2");
    assert Uses(names[..1], "a-2") == Uses(names[..0], "a-2");
  }

  // ---------------------------------------------------------------------------------------------
  // Of every text
  // ---------------------------------------------------------------------------------------------

  /** Main result, for every text: the spans of two headings are disjoint or nested, each heading's
      parent is the innermost heading around it, and each line is in the preamble or in exactly one
      root heading. */
  lemma MarkdownSpans(t: Text, lines: seq<string>)
    ensures var heads, eof := HeadsFrom(t, lines, 0, None), |lines| + 1;
      (forall i, j :: 0 <= i < j < |heads| ==>
         End(heads, i, eof) <= heads[j].line || End(heads, j, eof) <= End(heads, i, eof)) &&
      (forall i, j :: 0 <= j < i < |heads| ==>
         (Contains(heads, j, heads[i].line, eof) ==> j <= Parent(heads, i)) &&
         (j == Parent(heads, i) ==> Contains(heads, j, heads[i].line, eof))) &&
      (forall line :: 1 <= line <= |lines| ==> InOneRoot(heads, line, eof))
  {
    hide HeadsFrom, EndOf, Above;
    var heads, eof := HeadsFrom(t, lines, 0, None), |lines| + 1;
    HeadsRise(t, lines, 0, None);
    forall i, j | 0 <= i < j < |heads|
      ensures End(heads, i, eof) <= heads[j].line || End(heads, j, eof) <= End(heads, i, eof)
    {
      SpansNest(heads, i, j, eof);
    }
    forall i, j | 0 <= j < i < |heads|
      ensures Contains(heads, j, heads[i].line, eof) ==> j <= Parent(heads, i)
      ensures j == Parent(heads, i) ==> Contains(heads, j, heads[i].line, eof)
    {
      ParentIsInnermost(heads, i, j, eof);
    }
    forall line | 1 <= line <= |lines| ensures InOneRoot(heads, line, eof) {
      var r := RootsPartition(heads, line, eof);
      assert r == -1 || (Root(heads, r) && Contains(heads, r, line, eof));
    }
  }

  predicate Root(heads: seq<Head>, i: int) {
    0 <= i < |heads| && Parent(heads, i) == -1
  }

  ghost predicate InOneRoot(heads: seq<Head>, line: nat, eof: nat) {
    if heads == [] || line < heads[0].line then forall i :: Root(heads, i) ==> !Contains(heads, i, line, eof)
    else exists r :: Root(heads, r) && Contains(heads, r, line, eof) &&
           forall i :: Root(heads, i) && Contains(heads, i, line, eof) ==> i == r
  }
}
