/** Which ranges the delete script of a set-blocks write lists (vfs/docs_map.go,
    mapSetBlocksDeletes). */
module DocsDeleteExact {
  import Inline
  import opened Sequences
  import opened DocsReplace
  import opened DocsBlocks
  import opened DocsDelete

  predicate InTab(s: Span, tab: string) {
    tab == "" || s.tab == tab
  }

  /** A span of the tab that is structural, or a location whose image is not kept. */
  predicate Takes(structural: seq<Span>, locations: seq<Span>, tab: string, keep: set<string>, s: Span) {
    InTab(s, tab) && (s in structural || (s in locations && (s.objectId == "" || s.objectId !in keep)))
  }

  /** s starts where the first section break of the tab does, and is a section break. */
  predicate IsFirstBreak(structural: seq<Span>, tab: string, s: Span) {
    s.kind == SectionBreak && (exists x :: x in structural && InTab(x, tab) && x.kind == SectionBreak && x.start == s.start) &&
    forall x :: x in structural && InTab(x, tab) && x.kind == SectionBreak ==> s.start <= x.start
  }

  /** s has the range of the last text that is taken: the one with the greatest end, and of those with
      that end the greatest start. */
  ghost predicate EndsLikeLast(structural: seq<Span>, locations: seq<Span>, tab: string, keep: set<string>, s: Span) {
    exists last :: IsLastText(structural, locations, tab, keep, last) && s.start == last.start && s.end == last.end
  }

  ghost predicate IsLastText(structural: seq<Span>, locations: seq<Span>, tab: string, keep: set<string>, last: Span) {
    Takes(structural, locations, tab, keep, last) && IsText(last.kind) &&
    forall x :: Takes(structural, locations, tab, keep, x) && IsText(x.kind) ==>
      ComesBefore(x, last)
  }

  /** What is deleted of a span: all of it, but for the last text's terminator; nothing of the first
      section break. */
  ghost predicate Deletes(structural: seq<Span>, locations: seq<Span>, tab: string, keep: set<string>, s: Span, e: Edit) {
    Takes(structural, locations, tab, keep, s) && !IsFirstBreak(structural, tab, s) &&
    e.start == s.start && e.start < e.stop && e.runs == [] &&
    e.stop == if s.start < s.end && EndsLikeLast(structural, locations, tab, keep, s) then s.end - 1 else s.end
  }

  // ---------------------------------------------------------------------------------------------

  lemma {:induction false} OfTabIs(spans: seq<Span>, tab: string, keep: set<string>, s: Span)
    ensures s in OfTab(spans, tab, keep) <==> s in spans && InTab(s, tab) && (s.objectId == "" || s.objectId !in keep)
  {
    if spans != [] {
      OfTabIs(spans[1..], tab, keep, s);
      assert spans == [spans[0]] + spans[1..];
    }
  }

  lemma ListedIs(structural: seq<Span>, locations: seq<Span>, tab: string, keep: set<string>, s: Span)
    ensures s in Sort(Listed(structural, locations, tab, keep), BySpan) <==> Takes(structural, locations, tab, keep, s)
  {
    hide OfTab, Sort;
    SortedIn(Listed(structural, locations, tab, keep), BySpan, s);
    OfTabIs(structural, tab, {}, s);
    OfTabIs(locations, tab, keep, s);
  }

  lemma {:induction false} LowestIs(spans: seq<Span>)
    ensures var low := LowestSection(spans);
      if low < 0 then low == -1 && forall x :: x in spans ==> x.kind != SectionBreak
      else (exists x :: x in spans && x.kind == SectionBreak && x.start == low) &&
           forall x :: x in spans && x.kind == SectionBreak ==> low <= x.start
  {
    if spans != [] {
      LowestIs(spans[1..]);
      assert spans == [spans[0]] + spans[1..];
      assert forall x :: x in spans <==> x == spans[0] || x in spans[1..];
    }
  }

  lemma FirstBreakIs(structural: seq<Span>, tab: string, s: Span)
    ensures s.kind == SectionBreak && s.start == LowestSection(OfTab(structural, tab, {})) <==> IsFirstBreak(structural, tab, s)
  {
    hide OfTab, LowestSection;
    var breaks := OfTab(structural, tab, {});
    LowestIs(breaks);
    forall x ensures x in breaks <==> x in structural && InTab(x, tab) { OfTabIs(structural, tab, {}, x); }
  }

  predicate ComesBefore(x: Span, last: Span) {
    x.end < last.end || (x.end == last.end && x.start <= last.start)
  }

  lemma LastStarts(spans: seq<Span>, x: Span)
    requires spans != [] && Sorted(spans, BySpan) && x in spans[..|spans| - 1]
    ensures x.start >= spans[|spans| - 1].start
  {
    var i :| 0 <= i < |spans| - 1 && spans[..|spans| - 1][i] == x;
    assert BySpan(spans[i]) >= BySpan(spans[|spans| - 1]);
  }

  lemma InitSorted(spans: seq<Span>)
    requires spans != [] && Sorted(spans, BySpan)
    ensures Sorted(spans[..|spans| - 1], BySpan)
  {
  }

  lemma {:induction false} LastIs(spans: seq<Span>)
    requires Sorted(spans, BySpan)
    ensures forall x :: x in spans && IsText(x.kind) ==> LastText(spans).Some? && ComesBefore(x, LastText(spans).value)
    decreases |spans|
  {
    if spans != [] {
      hide Sorted;
      var init, s := spans[..|spans| - 1], spans[|spans| - 1];
      Snoc(spans);
      InitSorted(spans);
      LastIs(init);
      forall x | x in spans && IsText(x.kind) ensures ComesBefore(x, LastText(spans).value) {
        if x in init { LastStarts(spans, x); }
        if LastText(init).Some? { LastStarts(spans, LastText(init).value); }
      }
    }
  }

  lemma LastTextIs(structural: seq<Span>, locations: seq<Span>, tab: string, keep: set<string>, s: Span)
    ensures var last := LastText(Sort(Listed(structural, locations, tab, keep), BySpan));
      last.Some? && s.start == last.value.start && s.end == last.value.end <==> EndsLikeLast(structural, locations, tab, keep, s)
  {
    hide LastText, Listed, Sort, Takes;
    var spans := Sort(Listed(structural, locations, tab, keep), BySpan);
    var last := LastText(spans);
    SortSorted(Listed(structural, locations, tab, keep), BySpan);
    LastIs(spans);
    forall x ensures x in spans <==> Takes(structural, locations, tab, keep, x) { ListedIs(structural, locations, tab, keep, x); }
    if last.Some? { assert IsLastText(structural, locations, tab, keep, last.value); }
  }

  predicate Gives(s: Span, low: int, last: Inline.Option<Span>, e: Edit) {
    !(s.kind == SectionBreak && s.start == low) && StopOf(s, last) > s.start && e == Edit(s.start, StopOf(s, last), [])
  }

  lemma {:induction false} RangesAre(spans: seq<Span>, low: int, last: Inline.Option<Span>, e: Edit)
    ensures e in Ranges(spans, low, last) <==>
      exists s :: s in spans && Gives(s, low, last, e)
  {
    if spans != [] {
      hide StopOf;
      RangesAre(spans[1..], low, last, e);
      assert spans == [spans[0]] + spans[1..];
      assert e in Ranges(spans, low, last) <==> Gives(spans[0], low, last, e) || e in Ranges(spans[1..], low, last);
      hide Gives;
      if s :| s in spans[1..] && Gives(s, low, last, e) { assert s in spans; }
    }
  }

  /** Main result: the ranges that the script deletes, exactly. */
  lemma DeletesExactly(structural: seq<Span>, locations: seq<Span>, tab: string, keep: set<string>, e: Edit)
    ensures e in DeleteRanges(structural, locations, tab, keep) <==>
      exists s :: Deletes(structural, locations, tab, keep, s, e)
  {
    hide Ranges, Listed, Sort, LowestSection, LastText, OfTab, Takes, IsFirstBreak, EndsLikeLast;
    var spans := Sort(Listed(structural, locations, tab, keep), BySpan);
    var low, last := LowestSection(OfTab(structural, tab, {})), LastText(spans);
    RangesAre(spans, low, last, e);
    forall s
      ensures s in spans && Gives(s, low, last, e) <==> Deletes(structural, locations, tab, keep, s, e)
    {
      ListedIs(structural, locations, tab, keep, s);
      FirstBreakIs(structural, tab, s);
      LastTextIs(structural, locations, tab, keep, s);
    }
  }
}
