/** The delete script of a set-blocks write (vfs/docs_map.go, mapSetBlocksDeletes), and exactly when
    it removes what it lists. */
module DocsDelete {
  import opened Inline
  import opened Sequences
  import opened DocsBody
  import opened DocsReplace
  import opened DocsReplaceAll
  import opened DocsBlocks

  datatype SpanKind = SectionBreak | Paragraph | Heading | ListItem | OtherSpan

  datatype Span = Span(tab: string, start: nat, end: nat, kind: SpanKind, objectId: string)

  /** The spans of a tab; an empty tab is every tab. Kept images are left out. */
  function OfTab(spans: seq<Span>, tab: string, keep: set<string>): seq<Span> {
    if spans == [] then []
    else
      (if (tab != "" && spans[0].tab != tab) || (spans[0].objectId != "" && spans[0].objectId in keep) then []
       else [spans[0]])
      + OfTab(spans[1..], tab, keep)
  }

  /** The lowest start of a section break, or -1. */
  function LowestSection(spans: seq<Span>): (low: int)
    ensures low >= -1
  {
    if spans == [] then -1
    else
      var rest := LowestSection(spans[1..]);
      if spans[0].kind == SectionBreak && (rest < 0 || spans[0].start < rest) then spans[0].start else rest
  }

  predicate IsText(kind: SpanKind) {
    kind == Paragraph || kind == Heading || kind == ListItem
  }

  /** The first of the text spans with the greatest end. */
  function LastText(spans: seq<Span>): (last: Option<Span>)
    ensures last.Some? ==> last.value in spans && IsText(last.value.kind)
    ensures forall s :: s in spans && IsText(s.kind) ==> last.Some? && s.end <= last.value.end
  {
    if spans == [] then None
    else
      var init, s := spans[..|spans| - 1], spans[|spans| - 1];
      assert spans == init + [s];
      var before := LastText(init);
      if IsText(s.kind) && (before.None? || s.end > before.value.end) then Some(s) else before
  }

  /** Where the deletion of s stops: the last text span keeps its terminator. */
  function StopOf(s: Span, last: Option<Span>): nat {
    if last.Some? && s.start == last.value.start && s.end == last.value.end && s.end > s.start then s.end - 1 else s.end
  }

  /** The ranges the script deletes, in its order; `low` is the section break that stays. */
  function Ranges(spans: seq<Span>, low: int, last: Option<Span>): seq<Edit> {
    if spans == [] then []
    else
      (if (spans[0].kind == SectionBreak && spans[0].start == low) || StopOf(spans[0], last) <= spans[0].start then []
       else [Edit(spans[0].start, StopOf(spans[0], last), [])])
      + Ranges(spans[1..], low, last)
  }

  const BySpan: Span -> int := (s: Span) => s.start

  function Listed(structural: seq<Span>, locations: seq<Span>, tab: string, keep: set<string>): seq<Span> {
    OfTab(structural, tab, {}) + OfTab(locations, tab, keep)
  }

  function DeleteRanges(structural: seq<Span>, locations: seq<Span>, tab: string, keep: set<string>): seq<Edit> {
    var spans := Sort(Listed(structural, locations, tab, keep), BySpan);
    Ranges(spans, LowestSection(OfTab(structural, tab, {})), LastText(spans))
  }

  predicate Dropped(s: Span, tab: string, keep: set<string>) {
    (tab != "" && s.tab != tab) || (s.objectId != "" && s.objectId in keep)
  }

  lemma OfTabStep(spans: seq<Span>, i: nat, tab: string, keep: set<string>)
    requires i < |spans|
    ensures OfTab(spans[i..], tab, keep) == (if Dropped(spans[i], tab, keep) then [] else [spans[i]]) + OfTab(spans[i + 1..], tab, keep)
  {
    Suffix(spans, i);
  }

  lemma OfTabNone(spans: seq<Span>, tab: string, keep: set<string>)
    ensures OfTab(spans[|spans|..], tab, keep) == []
  {
  }

  method KeepOfTab(spans: seq<Span>, tab: string, keep: set<string>) returns (out: seq<Span>)
    ensures out == OfTab(spans, tab, keep)
  {
    hide OfTab;
    out := [];
    assert spans[0..] == spans;
    for i := 0 to |spans|
      invariant OfTab(spans, tab, keep) == out + OfTab(spans[i..], tab, keep)
    {
      OfTabStep(spans, i, tab, keep);
      Assoc(out, if Dropped(spans[i], tab, keep) then [] else [spans[i]], OfTab(spans[i + 1..], tab, keep));
      Empty(out);
      if tab != "" && spans[i].tab != tab {
        continue;
      }
      if spans[i].objectId != "" && spans[i].objectId in keep {
        continue;
      }
      out := out + [spans[i]];
    }
    OfTabNone(spans, tab, keep);
    Empty(out);
  }

  lemma LowestLast(spans: seq<Span>, s: Span)
    ensures LowestSection(spans + [s]) ==
      var low := LowestSection(spans);
      if s.kind == SectionBreak && (low < 0 || s.start < low) then s.start else low
  {
    if spans == [] {
      assert spans + [s] == [s] && [s][1..] == [];
    } else {
      assert (spans + [s])[1..] == spans[1..] + [s];
      LowestLast(spans[1..], s);
    }
  }

  /** The first section break, which cannot be deleted. */
  method FindLowest(sections: seq<Span>) returns (low: int)
    ensures low == LowestSection(sections)
  {
    hide LowestSection;
    low := -1;
    NoLowest();
    assert sections[..0] == [];
    for i := 0 to |sections|
      invariant low == LowestSection(sections[..i])
    {
      assert sections[..i + 1] == sections[..i] + [sections[i]];
      LowestLast(sections[..i], sections[i]);
      if sections[i].kind == SectionBreak && (low < 0 || sections[i].start < low) {
        low := sections[i].start;
      }
    }
    assert sections[..|sections|] == sections;
  }

  lemma NoLowest()
    ensures LowestSection([]) == -1
  {
  }

  /** The paragraph that keeps its terminator. */
  method FindLast(spans: seq<Span>) returns (last: Option<Span>)
    ensures last == LastText(spans)
  {
    last := None;
    for i := 0 to |spans|
      invariant last == LastText(spans[..i])
    {
      assert spans[..i + 1][..i] == spans[..i];
      if IsText(spans[i].kind) && (last.None? || spans[i].end > last.value.end) {
        last := Some(spans[i]);
      }
    }
    assert spans[..|spans|] == spans;
  }

  method MapSetBlocksDeletes(structural: seq<Span>, locations: seq<Span>, tab: string, keep: set<string>)
    returns (reqs: seq<Request>)
    ensures reqs == Scripts(tab, DeleteRanges(structural, locations, tab, keep))
  {
    hide OfTab, LowestSection, LastText, Ranges, Scripts, DocsBlocks.Sort;
    var sections := KeepOfTab(structural, tab, {});
    var low := FindLowest(sections);
    var rest := KeepOfTab(locations, tab, keep);
    var spans := Sort(sections + rest, BySpan);
    var last := FindLast(spans);
    reqs := ScriptDeletes(tab, spans, low, last);
  }

  lemma ScriptsStep(tab: string, spans: seq<Span>, low: int, last: Option<Span>, i: nat)
    requires i < |spans|
    ensures var s := spans[i];
      Scripts(tab, Ranges(spans[i..], low, last)) ==
      (if (s.kind == SectionBreak && s.start == low) || StopOf(s, last) <= s.start then []
       else [Delete(tab, s.start, StopOf(s, last))])
      + Scripts(tab, Ranges(spans[i + 1..], low, last))
  {
    assert spans[i..][1..] == spans[i + 1..];
    var s, rest := spans[i], Ranges(spans[i + 1..], low, last);
    var e := Edit(s.start, StopOf(s, last), []);
    assert Script(tab, e) == if e.stop > e.start then [Delete(tab, e.start, e.stop)] else [];
    assert ([e] + rest)[1..] == rest && [] + rest == rest;
  }

  method ScriptDeletes(tab: string, spans: seq<Span>, low: int, last: Option<Span>) returns (reqs: seq<Request>)
    ensures reqs == Scripts(tab, Ranges(spans, low, last))
  {
    hide Scripts, Ranges, StopOf;
    reqs := [];
    assert spans[0..] == spans;
    for i := 0 to |spans|
      invariant Scripts(tab, Ranges(spans, low, last)) == reqs + Scripts(tab, Ranges(spans[i..], low, last))
    {
      ScriptsStep(tab, spans, low, last, i);
      var s := spans[i];
      if s.kind == SectionBreak && s.start == low {
        continue;
      }
      var end := StopOf(s, last);
      if end <= s.start {
        continue;
      }
      reqs := reqs + [Delete(tab, s.start, end)];
    }
    NoScripts(tab, spans, low, last);
  }

  lemma NoScripts(tab: string, spans: seq<Span>, low: int, last: Option<Span>)
    ensures Scripts(tab, Ranges(spans[|spans|..], low, last)) == []
  {
  }

  // ---------------------------------------------------------------------------------------------
  // What the ranges cover
  // ---------------------------------------------------------------------------------------------

  predicate Holds(start: nat, stop: nat, i: nat) {
    start <= i < stop
  }

  function Range(start: nat, stop: nat): (r: set<nat>)
    ensures forall i: nat :: i in r <==> start <= i < stop
  {
    set i: nat | i < stop && Holds(start, stop, i)
  }

  function Cover(es: seq<Edit>): set<nat> {
    if es == [] then {} else Range(es[0].start, es[0].stop) + Cover(es[1..])
  }

  ghost predicate Goes(spans: seq<Span>, low: int, last: Option<Span>, i: nat) {
    exists s :: s in spans && !(s.kind == SectionBreak && s.start == low) && s.start <= i < StopOf(s, last)
  }

  /** A unit goes exactly when a listed span holds it, but for the first section break, and the
      terminator of the last text. */
  lemma {:induction false} CoverOfRanges(spans: seq<Span>, low: int, last: Option<Span>, i: nat)
    ensures i in Cover(Ranges(spans, low, last)) <==> Goes(spans, low, last, i)
  {
    hide StopOf;
    if spans != [] {
      CoverOfRanges(spans[1..], low, last, i);
      var s, rest := spans[0], Ranges(spans[1..], low, last);
      assert s in spans && forall t :: t in spans <==> t == s || t in spans[1..];
      assert Goes(spans, low, last, i) <==>
        (!(s.kind == SectionBreak && s.start == low) && s.start <= i < StopOf(s, last)) || Goes(spans[1..], low, last, i);
      if (s.kind == SectionBreak && s.start == low) || StopOf(s, last) <= s.start {
        assert [] + rest == rest;
      } else {
        assert ([Edit(s.start, StopOf(s, last), [])] + rest)[1..] == rest;
      }
    }
  }

  /** Stated of the listed spans, in whatever order they come. */
  lemma DeletedUnits(structural: seq<Span>, locations: seq<Span>, tab: string, keep: set<string>, i: nat)
    ensures i in Cover(DeleteRanges(structural, locations, tab, keep)) <==>
      Goes(Listed(structural, locations, tab, keep), LowestSection(OfTab(structural, tab, {})),
           LastText(Sort(Listed(structural, locations, tab, keep), BySpan)), i)
  {
    hide LowestSection, LastText, StopOf, OfTab;
    var listed := Listed(structural, locations, tab, keep);
    var spans := Sort(listed, BySpan);
    CoverOfRanges(spans, LowestSection(OfTab(structural, tab, {})), LastText(spans), i);
    forall s ensures s in spans <==> s in listed {
      assert s in spans <==> s in multiset(spans);
      assert s in listed <==> s in multiset(listed);
    }
  }

  function Size(es: seq<Edit>): int {
    if es == [] then 0 else es[0].stop - es[0].start + Size(es[1..])
  }

  /** Deletions only, each of at least one unit, all within `size` units. */
  predicate Deletions(es: seq<Edit>, size: nat) {
    forall e :: e in es ==> e.start < e.stop <= size && e.runs == []
  }

  /** No unit is in two of the ranges. */
  predicate Disjoint(es: seq<Edit>) {
    es == [] || ((forall e :: e in es[1..] ==> e.stop <= es[0].start || es[0].stop <= e.start) && Disjoint(es[1..]))
  }

  lemma {:induction false} RangeSize(start: nat, stop: nat)
    requires start <= stop
    ensures |Range(start, stop)| == stop - start
    decreases stop - start
  {
    if start < stop {
      RangeSize(start + 1, stop);
      assert Range(start, stop) == {start} + Range(start + 1, stop);
    } else {
      assert Range(start, stop) == {};
    }
  }

  lemma {:induction false} CoverMembers(es: seq<Edit>, i: nat)
    ensures i in Cover(es) <==> exists e :: e in es && e.start <= i < e.stop
  {
    if es != [] {
      CoverMembers(es[1..], i);
      assert es[0] in es && forall e :: e in es ==> e == es[0] || e in es[1..];
    }
  }

  /** The ranges cover as many units as their sizes add up to exactly when they are disjoint. */
  lemma {:induction false} CoverSize(es: seq<Edit>, size: nat)
    requires Deletions(es, size)
    ensures |Cover(es)| <= Size(es)
    ensures |Cover(es)| == Size(es) <==> Disjoint(es)
  {
    if es != [] {
      CoverSize(es[1..], size);
      var e := es[0];
      var a, b := Range(e.start, e.stop), Cover(es[1..]);
      assert e in es;
      RangeSize(e.start, e.stop);
      assert |a + b| == |a| + |b| - |a * b|;
      if a * b == {} {
        forall x | x in es[1..] ensures x.stop <= e.start || e.stop <= x.start {
          assert x in es;
          var i := if x.start < e.start then e.start else x.start;
          CoverMembers(es[1..], i);
          assert i !in a * b;
        }
      } else {
        var i :| i in a * b;
        CoverMembers(es[1..], i);
      }
    }
  }

  // ---------------------------------------------------------------------------------------------
  // What stays
  // ---------------------------------------------------------------------------------------------

  /** The units of `body`, the first of them at index `from`, that are not gone. */
  function Stay(body: Body, gone: set<nat>, from: nat): Body {
    if body == [] then []
    else (if from in gone then [] else [body[0]]) + Stay(body[1..], gone, from + 1)
  }

  lemma {:induction false} StayAppend(a: Body, b: Body, gone: set<nat>, from: nat)
    ensures Stay(a + b, gone, from) == Stay(a, gone, from) + Stay(b, gone, from + |a|)
  {
    if a == [] {
      Empty(b);
    } else {
      Uncons(a, b);
      StayAppend(a[1..], b, gone, from + 1);
      Assoc(if from in gone then [] else [a[0]], Stay(a[1..], gone, from + 1), Stay(b, gone, from + |a|));
    }
  }

  lemma {:induction false} StaySame(a: Body, gone: set<nat>, other: set<nat>, from: nat)
    requires forall i :: from <= i < from + |a| ==> (i in gone <==> i in other)
    ensures Stay(a, gone, from) == Stay(a, other, from)
  {
    if a != [] { StaySame(a[1..], gone, other, from + 1); }
  }

  lemma {:induction false} StayAll(a: Body, gone: set<nat>, from: nat)
    requires forall i :: from <= i < from + |a| ==> i !in gone
    ensures Stay(a, gone, from) == a
  {
    if a != [] { StayAll(a[1..], gone, from + 1); }
  }

  lemma {:induction false} StayNone(a: Body, gone: set<nat>, from: nat)
    requires forall i :: from <= i < from + |a| ==> i in gone
    ensures Stay(a, gone, from) == []
  {
    if a != [] { StayNone(a[1..], gone, from + 1); }
  }

  lemma {:induction false} StaySize(a: Body, gone: set<nat>, from: nat)
    requires forall i :: i in gone ==> from <= i < from + |a|
    ensures |Stay(a, gone, from)| == |a| - |gone|
  {
    if a == [] {
      assert gone == {};
    } else {
      var less := gone - {from};
      StaySize(a[1..], less, from + 1);
      StaySame(a[1..], gone, less, from + 1);
    }
  }

  lemma DeleteOne(inherit: Inherit, tab: string, body: Body, es: seq<Edit>)
    requires es != [] && es[0].start < es[0].stop && es[0].runs == []
    ensures Execute(inherit, tab, body, Scripts(tab, es)) ==
            if es[0].stop <= |body| then Execute(inherit, tab, body[..es[0].start] + body[es[0].stop..], Scripts(tab, es[1..]))
            else None
  {
    var rest := Scripts(tab, es[1..]);
    assert Script(tab, es[0]) == [Delete(tab, es[0].start, es[0].stop)];
    assert ([Delete(tab, es[0].start, es[0].stop)] + rest)[1..] == rest;
  }

  /** What the script leaves when it is not refused has lost one unit for each unit listed. */
  lemma {:induction false} DeleteSize(inherit: Inherit, tab: string, body: Body, es: seq<Edit>, size: nat)
    requires Deletions(es, size)
    ensures var r := Execute(inherit, tab, body, Scripts(tab, es)); r.Some? ==> |r.value| == |body| - Size(es)
    decreases |es|
  {
    hide Execute, Scripts;
    if es == [] {
      NoDeletes(inherit, tab, body);
    } else {
      assert es[0] in es;
      DeleteOne(inherit, tab, body, es);
      if es[0].stop <= |body| {
        DeleteSize(inherit, tab, body[..es[0].start] + body[es[0].stop..], es[1..], size);
      }
    }
  }

  lemma NoDeletes(inherit: Inherit, tab: string, body: Body)
    ensures Execute(inherit, tab, body, Scripts(tab, [])) == Some(body)
  {
  }

  lemma {:induction false} CoverBelow(es: seq<Edit>, hi: nat)
    requires Descending(es, hi)
    ensures forall i :: i in Cover(es) ==> i < hi
    decreases |es|
  {
    if es != [] { CoverBelow(es[1..], es[0].start); }
  }

  lemma CoverParts(es: seq<Edit>, hi: nat, i: nat)
    requires es != [] && Descending(es, hi)
    ensures i < es[0].start ==> (i in Cover(es) <==> i in Cover(es[1..]))
    ensures es[0].start <= i < es[0].stop ==> i in Cover(es)
    ensures es[0].start <= i ==> i !in Cover(es[1..])
    ensures es[0].stop <= i ==> i !in Cover(es)
  {
    CoverBelow(es[1..], es[0].start);
  }

  lemma StayPieces(body: Body, es: seq<Edit>)
    requires es != [] && Descending(es, |body|)
    ensures Stay(body[..es[0].start] + body[es[0].stop..], Cover(es[1..]), 0) == Stay(body, Cover(es), 0)
  {
    hide Stay;
    var e, rest, all := es[0], Cover(es[1..]), Cover(es);
    assert e.start <= e.stop <= |body|;
    forall i: nat
      ensures i < e.start ==> (i in all <==> i in rest)
      ensures e.start <= i < e.stop ==> i in all
      ensures e.start <= i ==> i !in rest
      ensures e.stop <= i ==> i !in all
    {
      CoverParts(es, |body|, i);
    }
    StayAround(body, e.start, e.stop, rest, all);
  }

  lemma StayAround(body: Body, start: nat, stop: nat, rest: set<nat>, all: set<nat>)
    requires start <= stop <= |body|
    requires forall i: nat :: i < start ==> (i in all <==> i in rest)
    requires forall i: nat :: start <= i < stop ==> i in all
    requires forall i: nat :: start <= i ==> i !in rest
    requires forall i: nat :: stop <= i ==> i !in all
    ensures Stay(body[..start] + body[stop..], rest, 0) == Stay(body, all, 0)
  {
    hide Stay;
    var pre, mid, post := body[..start], body[start..stop], body[stop..];
    assert body == pre + mid + post;
    StayAppend(pre, post, rest, 0);
    StayAppend(pre + mid, post, all, 0);
    StayAppend(pre, mid, all, 0);
    StaySame(pre, rest, all, 0);
    StayNone(mid, all, start);
    StayAll(post, rest, start);
    StayAll(post, all, stop);
  }

  lemma {:induction false} DeleteDescending(inherit: Inherit, tab: string, body: Body, es: seq<Edit>)
    requires Descending(es, |body|) && Deletions(es, |body|)
    ensures Execute(inherit, tab, body, Scripts(tab, es)) == Some(Stay(body, Cover(es), 0))
    decreases |es|
  {
    hide Execute, Scripts, Stay;
    if es == [] {
      NoDeletes(inherit, tab, body);
      StayAll(body, Cover(es), 0);
    } else {
      var e := es[0];
      assert e in es;
      DeleteOne(inherit, tab, body, es);
      var less := body[..e.start] + body[e.stop..];
      DescendingWithin(es[1..], e.start);
      DescendingWeaker(es[1..], e.start, |less|);
      assert Deletions(es[1..], |less|);
      DeleteDescending(inherit, tab, less, es[1..]);
      StayPieces(body, es);
    }
  }

  lemma {:induction false} DescendingWithin(es: seq<Edit>, hi: nat)
    requires Descending(es, hi)
    ensures forall e :: e in es ==> e.stop <= hi
    decreases |es|
  {
    if es != [] { DescendingWithin(es[1..], es[0].start); }
  }

  lemma {:induction false} DisjointDescends(es: seq<Edit>, hi: nat)
    requires Sorted(es, ByStart) && Disjoint(es) && Deletions(es, hi)
    ensures Descending(es, hi)
    decreases |es|
  {
    if es != [] {
      assert es[0] in es;
      forall j | 0 < j < |es| ensures es[j].stop <= es[0].start {
        assert ByStart(es[0]) >= ByStart(es[j]);
        assert es[j] == es[1..][j - 1];
        assert es[j] in es;
      }
      assert Sorted(es[1..], ByStart);
      DisjointDescends(es[1..], es[0].start);
    }
  }

  /** Run in order, the deletions take exactly the units they list, if and only if no two of them
      share a unit. */
  lemma DeletesExactly(inherit: Inherit, tab: string, body: Body, es: seq<Edit>)
    requires Sorted(es, ByStart) && Deletions(es, |body|)
    ensures Execute(inherit, tab, body, Scripts(tab, es)) == Some(Stay(body, Cover(es), 0)) <==> Disjoint(es)
    ensures var r := Execute(inherit, tab, body, Scripts(tab, es));
      !Disjoint(es) && r.Some? ==> |r.value| < |Stay(body, Cover(es), 0)|
  {
    hide Execute, Scripts, Stay;
    if Disjoint(es) {
      DisjointDescends(es, |body|);
      DeleteDescending(inherit, tab, body, es);
    } else {
      DeleteSize(inherit, tab, body, es, |body|);
      CoverSize(es, |body|);
      forall i | i in Cover(es) ensures i < |body| { CoverMembers(es, i); }
      StaySize(body, Cover(es), 0);
    }
  }

  // ---------------------------------------------------------------------------------------------
  // The script of a set-blocks write
  // ---------------------------------------------------------------------------------------------

  predicate Within(spans: seq<Span>, size: nat) {
    forall s :: s in spans ==> s.end <= size
  }

  predicate FromSpans(es: seq<Edit>, spans: seq<Span>) {
    forall e :: e in es ==> exists s :: s in spans && s.start == e.start && e.stop <= s.end
  }

  lemma FromTail(es: seq<Edit>, spans: seq<Span>)
    requires spans != [] && FromSpans(es, spans[1..]) && Sorted(spans, BySpan)
    ensures FromSpans(es, spans) && forall e :: e in es ==> e.start <= spans[0].start
  {
    forall e | e in es ensures e.start <= spans[0].start && exists t :: t in spans && t.start == e.start && e.stop <= t.end {
      var t :| t in spans[1..] && t.start == e.start && e.stop <= t.end;
      var j :| 0 <= j < |spans[1..]| && spans[1..][j] == t;
      assert BySpan(spans[0]) >= BySpan(spans[j + 1]);
      assert t in spans;
    }
  }

  lemma {:induction false} RangesSorted(spans: seq<Span>, low: int, last: Option<Span>, size: nat)
    requires Sorted(spans, BySpan) && Within(spans, size)
    ensures Sorted(Ranges(spans, low, last), ByStart) && Deletions(Ranges(spans, low, last), size)
    ensures FromSpans(Ranges(spans, low, last), spans)
  {
    hide Sorted, FromSpans, Ranges, Deletions, StopOf, Within;
    if spans == [] {
      NoRanges(low, last, size);
    } else {
      var s, rest := spans[0], Ranges(spans[1..], low, last);
      SpansTail(spans, size);
      RangesSorted(spans[1..], low, last, size);
      FromTail(rest, spans);
      RangesUnfold(spans, low, last);
      if Ranges(spans, low, last) != rest {
        var e := Edit(s.start, StopOf(s, last), []);
        SortedCons(e, rest, ByStart);
        StopWithin(spans, last, size);
        FromCons(e, rest, spans, s, size);
      }
    }
  }

  lemma NoRanges(low: int, last: Option<Span>, size: nat)
    ensures Ranges([], low, last) == [] && Sorted<Edit>([], ByStart) && Deletions([], size) && FromSpans([], [])
  {
  }

  lemma RangesUnfold(spans: seq<Span>, low: int, last: Option<Span>)
    requires spans != []
    ensures var s, rest := spans[0], Ranges(spans[1..], low, last);
      Ranges(spans, low, last) == rest ||
      (StopOf(s, last) > s.start && Ranges(spans, low, last) == [Edit(s.start, StopOf(s, last), [])] + rest)
  {
    var s, rest := spans[0], Ranges(spans[1..], low, last);
    if (s.kind == SectionBreak && s.start == low) || StopOf(s, last) <= s.start { assert [] + rest == rest; }
  }

  lemma StopWithin(spans: seq<Span>, last: Option<Span>, size: nat)
    requires spans != [] && Within(spans, size)
    ensures StopOf(spans[0], last) <= spans[0].end <= size
  {
    assert spans[0] in spans;
  }

  lemma FromCons(e: Edit, rest: seq<Edit>, spans: seq<Span>, s: Span, size: nat)
    requires FromSpans(rest, spans) && Deletions(rest, size)
    requires s in spans && s.start == e.start < e.stop <= s.end && e.stop <= size && e.runs == []
    ensures FromSpans([e] + rest, spans) && Deletions([e] + rest, size)
  {
  }

  lemma SpansTail(spans: seq<Span>, size: nat)
    requires spans != [] && Sorted(spans, BySpan) && Within(spans, size)
    ensures Sorted(spans[1..], BySpan) && Within(spans[1..], size)
  {
    assert forall t :: t in spans[1..] ==> t in spans;
  }

  // ---------------------------------------------------------------------------------------------
  // Which listed spans it deletes exactly
  // ---------------------------------------------------------------------------------------------

  /** The script deletes a range of s. */
  predicate Deleted(s: Span, low: int, last: Option<Span>) {
    !(s.kind == SectionBreak && s.start == low) && s.start < StopOf(s, last)
  }

  /** s and t share a unit that goes. */
  predicate Share(s: Span, t: Span, low: int, last: Option<Span>) {
    Deleted(s, low, last) && Deleted(t, low, last) && s.start < StopOf(t, last) && t.start < StopOf(s, last)
  }

  /** No two of the spans do. */
  predicate NoneShare(spans: seq<Span>, low: int, last: Option<Span>) {
    spans == [] || ((forall t :: t in spans[1..] ==> !Share(spans[0], t, low, last)) && NoneShare(spans[1..], low, last))
  }

  function RangeOf(s: Span, last: Option<Span>): Edit {
    Edit(s.start, StopOf(s, last), [])
  }

  lemma RangesCons(spans: seq<Span>, low: int, last: Option<Span>)
    requires spans != []
    ensures Ranges(spans, low, last) ==
            (if Deleted(spans[0], low, last) then [RangeOf(spans[0], last)] else []) + Ranges(spans[1..], low, last)
  {
  }

  lemma {:induction false} RangesMembers(spans: seq<Span>, low: int, last: Option<Span>, e: Edit)
    ensures e in Ranges(spans, low, last) <==> exists t :: t in spans && Deleted(t, low, last) && e == RangeOf(t, last)
  {
    hide Deleted, RangeOf, Ranges;
    if spans == [] {
      NoRanges(low, last, 0);
    } else {
      RangesCons(spans, low, last);
      RangesMembers(spans[1..], low, last, e);
      assert spans[0] in spans && forall t :: t in spans <==> t == spans[0] || t in spans[1..];
    }
  }

  lemma DisjointCons(e: Edit, rest: seq<Edit>)
    ensures Disjoint([e] + rest) <==> (forall x :: x in rest ==> x.stop <= e.start || e.stop <= x.start) && Disjoint(rest)
  {
    assert ([e] + rest)[1..] == rest;
  }

  lemma RangesListed(spans: seq<Span>, low: int, last: Option<Span>)
    ensures forall t :: t in spans && Deleted(t, low, last) ==> RangeOf(t, last) in Ranges(spans, low, last)
    ensures forall x :: x in Ranges(spans, low, last) ==> exists t :: t in spans && Deleted(t, low, last) && x == RangeOf(t, last)
  {
    hide Deleted, RangeOf, Ranges;
    forall t | t in spans && Deleted(t, low, last) ensures RangeOf(t, last) in Ranges(spans, low, last) {
      RangesMembers(spans, low, last, RangeOf(t, last));
    }
    forall x | x in Ranges(spans, low, last) ensures exists t :: t in spans && Deleted(t, low, last) && x == RangeOf(t, last) {
      RangesMembers(spans, low, last, x);
    }
  }

  /** The ranges of spans are disjoint exactly when no two spans share a unit that goes. */
  lemma {:induction false} RangesDisjoint(spans: seq<Span>, low: int, last: Option<Span>)
    ensures Disjoint(Ranges(spans, low, last)) <==> NoneShare(spans, low, last)
  {
    if spans == [] {
      NoRanges(low, last, 0);
    } else {
      hide StopOf, Ranges, Disjoint, Deleted;
      var s, rest := spans[0], Ranges(spans[1..], low, last);
      RangesCons(spans, low, last);
      RangesDisjoint(spans[1..], low, last);
      RangesListed(spans[1..], low, last);
      if Deleted(s, low, last) {
        DisjointCons(RangeOf(s, last), rest);
        HeadClear(s, spans[1..], rest, low, last);
      } else {
        Empty(rest);
      }
    }
  }

  lemma HeadClear(s: Span, spans: seq<Span>, rest: seq<Edit>, low: int, last: Option<Span>)
    requires Deleted(s, low, last)
    requires forall t :: t in spans && Deleted(t, low, last) ==> RangeOf(t, last) in rest
    requires forall x :: x in rest ==> exists t :: t in spans && Deleted(t, low, last) && x == RangeOf(t, last)
    ensures (forall x :: x in rest ==> x.stop <= s.start || StopOf(s, last) <= x.start) <==>
            forall t :: t in spans ==> !Share(s, t, low, last)
  {
    hide StopOf;
    if forall t :: t in spans ==> !Share(s, t, low, last) {
      forall x | x in rest ensures x.stop <= s.start || StopOf(s, last) <= x.start {
        var t :| t in spans && Deleted(t, low, last) && x == RangeOf(t, last);
      }
    }
    if forall x :: x in rest ==> x.stop <= s.start || StopOf(s, last) <= x.start {
      forall t | t in spans ensures !Share(s, t, low, last) {
        if Deleted(t, low, last) { assert RangeOf(t, last) in rest; }
      }
    }
  }

  lemma NoneShareCons(x: Span, xs: seq<Span>, low: int, last: Option<Span>)
    ensures NoneShare([x] + xs, low, last) <==> (forall t :: t in xs ==> !Share(x, t, low, last)) && NoneShare(xs, low, last)
  {
    assert ([x] + xs)[1..] == xs;
  }

  lemma {:induction false} InsertNoneShare(x: Span, xs: seq<Span>, low: int, last: Option<Span>)
    ensures NoneShare(DocsBlocks.Insert(x, xs, BySpan), low, last) <==> NoneShare([x] + xs, low, last)
    decreases |xs|
  {
    hide Share, NoneShare;
    if xs != [] && x.start < xs[0].start {
      var y, ys := xs[0], xs[1..];
      var rest := DocsBlocks.Insert(x, ys, BySpan);
      assert xs == [y] + ys;
      NoneShareCons(x, xs, low, last);
      NoneShareCons(y, ys, low, last);
      NoneShareCons(x, ys, low, last);
      NoneShareCons(y, rest, low, last);
      InsertNoneShare(x, ys, low, last);
      forall t ensures t in rest <==> t == x || t in ys { InsertIn(x, ys, BySpan, t); }
      ShareBoth(x, y, low, last);
    }
  }

  lemma ShareBoth(s: Span, t: Span, low: int, last: Option<Span>)
    ensures Share(s, t, low, last) <==> Share(t, s, low, last)
  {
  }

  lemma {:induction false} SortNoneShare(xs: seq<Span>, low: int, last: Option<Span>)
    ensures NoneShare(Sort(xs, BySpan), low, last) <==> NoneShare(xs, low, last)
  {
    if xs != [] {
      hide Share;
      var rest := Sort(xs[1..], BySpan);
      SortNoneShare(xs[1..], low, last);
      InsertNoneShare(xs[0], rest, low, last);
      assert ([xs[0]] + rest)[1..] == rest;
      forall t ensures t in rest <==> t in xs[1..] {
        assert t in rest <==> t in multiset(rest);
        assert t in xs[1..] <==> t in multiset(xs[1..]);
      }
    }
  }

  /** No two listed spans share a unit that goes. */
  predicate ListedApart(structural: seq<Span>, locations: seq<Span>, tab: string, keep: set<string>) {
    var listed := Listed(structural, locations, tab, keep);
    NoneShare(listed, LowestSection(OfTab(structural, tab, {})), LastText(Sort(listed, BySpan)))
  }

  /** Main result: the script of a set-blocks write deletes exactly what it lists if and only if no two
      of the listed spans share a unit that goes, whatever their order; otherwise it takes more. */
  lemma SetBlocksDeletes(inherit: Inherit, body: Body, structural: seq<Span>, locations: seq<Span>, tab: string, keep: set<string>)
    requires Within(Listed(structural, locations, tab, keep), |body|)
    ensures var es := DeleteRanges(structural, locations, tab, keep);
      var r := Execute(inherit, tab, body, Scripts(tab, es));
      (r == Some(Stay(body, Cover(es), 0)) <==> ListedApart(structural, locations, tab, keep)) &&
      (!ListedApart(structural, locations, tab, keep) && r.Some? ==> |r.value| < |Stay(body, Cover(es), 0)|)
  {
    hide LowestSection, LastText, OfTab, Execute, Scripts, Stay, Share;
    var listed := Listed(structural, locations, tab, keep);
    var spans := Sort(listed, BySpan);
    var low, last := LowestSection(OfTab(structural, tab, {})), LastText(spans);
    SortSorted(listed, BySpan);
    forall s | s in spans ensures s.end <= |body| { assert s in multiset(spans); assert s in multiset(listed); }
    RangesSorted(spans, low, last, |body|);
    DeletesExactly(inherit, tab, body, DeleteRanges(structural, locations, tab, keep));
    RangesDisjoint(spans, low, last);
    SortNoneShare(listed, low, last);
  }

  predicate SpansApart(spans: seq<Span>) {
    spans == [] ||
    ((forall t :: t in spans[1..] ==> ClearOf(spans[0].start, spans[0].end, t.start, t.end)) && SpansApart(spans[1..]))
  }

  lemma {:induction false} ApartNoneShare(spans: seq<Span>, low: int, last: Option<Span>)
    requires SpansApart(spans)
    ensures NoneShare(spans, low, last)
  {
    if spans != [] { ApartNoneShare(spans[1..], low, last); }
  }

  /** Listed spans that do not overlap: the body keeps exactly the units no span takes. */
  lemma SetBlocksApart(inherit: Inherit, body: Body, structural: seq<Span>, locations: seq<Span>, tab: string, keep: set<string>)
    requires Within(Listed(structural, locations, tab, keep), |body|)
    requires SpansApart(Listed(structural, locations, tab, keep))
    ensures var es := DeleteRanges(structural, locations, tab, keep);
      Execute(inherit, tab, body, Scripts(tab, es)) == Some(Stay(body, Cover(es), 0))
  {
    hide LowestSection, LastText, OfTab, Execute, Scripts, Stay, NoneShare, SpansApart;
    var listed := Listed(structural, locations, tab, keep);
    ApartNoneShare(listed, LowestSection(OfTab(structural, tab, {})), LastText(Sort(listed, BySpan)));
    SetBlocksDeletes(inherit, body, structural, locations, tab, keep);
  }

  const FIRST := Span.Span("", 1, 10, Paragraph, "")
  const IMAGE := Span.Span("", 4, 5, OtherSpan, "image")
  const FINAL := Span.Span("", 10, 12, Paragraph, "")

  lemma OfTabCons(s: Span, rest: seq<Span>)
    ensures OfTab([s] + rest, "", {}) == [s] + OfTab(rest, "", {})
  {
    assert ([s] + rest)[1..] == rest;
  }

  lemma SortCons(s: Span, rest: seq<Span>)
    ensures Sort([s] + rest, BySpan) == DocsBlocks.Insert(s, Sort(rest, BySpan), BySpan)
  {
    assert ([s] + rest)[1..] == rest;
  }

  /** The image lies in the first of two paragraphs. */
  lemma ImageListed()
    ensures Listed([], [FIRST, IMAGE, FINAL], "", {}) == [FIRST, IMAGE, FINAL]
  {
    hide OfTab;
    OfTabNone([], "", {});
    OfTabCons(FINAL, []);
    OfTabCons(IMAGE, [FINAL]);
    OfTabCons(FIRST, [IMAGE, FINAL]);
    assert [FIRST, IMAGE, FINAL] == [FIRST] + [IMAGE, FINAL] && [IMAGE, FINAL] == [IMAGE] + [FINAL] && [FINAL] == [FINAL] + [];
    assert [] + [FIRST, IMAGE, FINAL] == [FIRST, IMAGE, FINAL];
  }

  lemma SortTwo(a: Span, b: Span)
    requires a.start < b.start
    ensures Sort([a, b], BySpan) == [b, a]
  {
    hide Sort;
    SortNone();
    SortCons(b, []);
    SortCons(a, [b]);
    InsertLater(a, b, []);
    assert [b] + [] == [b] && [a] + [b] == [a, b];
    assert DocsBlocks.Insert(b, [], BySpan) == [b];
  }

  lemma ThreeLists(a: Span, b: Span, c: Span)
    ensures [a] + [b, c] == [a, b, c] && [c] + [b] == [c, b] && [b] + [] == [b] && [c] + ([b] + [a]) == [c, b, a]
  {
  }

  lemma SortThree(a: Span, b: Span, c: Span)
    requires a.start < b.start < c.start
    ensures Sort([a, b, c], BySpan) == [c, b, a]
  {
    hide *;
    SortTwo(b, c);
    SortCons(a, [b, c]);
    InsertLater(a, c, [b]);
    InsertLater(a, b, []);
    ThreeLists(a, b, c);
  }

  lemma SortNone()
    ensures Sort<Span>([], BySpan) == []
  {
  }

  lemma InsertLater(x: Span, y: Span, ys: seq<Span>)
    requires x.start < y.start
    ensures DocsBlocks.Insert(x, [y] + ys, BySpan) == [y] + DocsBlocks.Insert(x, ys, BySpan)
    ensures DocsBlocks.Insert(x, [], BySpan) == [x]
  {
    assert ([y] + ys)[1..] == ys;
  }

  lemma LastTextLast(init: seq<Span>, s: Span)
    ensures LastText(init + [s]) == (if IsText(s.kind) && (LastText(init).None? || s.end > LastText(init).value.end) then Some(s) else LastText(init))
  {
    assert (init + [s])[..|init|] == init;
  }

  lemma ImageLast()
    ensures LastText([FINAL, IMAGE, FIRST]) == Some(FINAL)
  {
    hide LastText;
    assert LastText([]).None? by { NoLast(); }
    LastTextLast([], FINAL);
    LastTextLast([FINAL], IMAGE);
    LastTextLast([FINAL, IMAGE], FIRST);
    assert [] + [FINAL] == [FINAL] && [FINAL] + [IMAGE] == [FINAL, IMAGE] && [FINAL, IMAGE] + [FIRST] == [FINAL, IMAGE, FIRST];
  }

  lemma NoLast()
    ensures LastText([]).None?
  {
  }

  lemma RangesOf(structural: seq<Span>, locations: seq<Span>, tab: string, keep: set<string>)
    ensures var spans := Sort(Listed(structural, locations, tab, keep), BySpan);
      DeleteRanges(structural, locations, tab, keep) == Ranges(spans, LowestSection(OfTab(structural, tab, {})), LastText(spans))
  {
    hide Sort, Listed, Ranges, LowestSection, LastText;
  }

  lemma NoSection(tab: string)
    ensures LowestSection(OfTab([], tab, {})) == -1
  {
  }

  lemma ImageSteps(last: Option<Span>)
    requires last == Some(FINAL)
    ensures Ranges([FINAL, IMAGE, FIRST], -1, last) == [Edit(10, 11, []), Edit(4, 5, []), Edit(1, 10, [])]
  {
    hide Ranges;
    assert [FINAL, IMAGE, FIRST][1..] == [IMAGE, FIRST] && [IMAGE, FIRST][1..] == [FIRST] && [FIRST][1..] == [];
    NoRanges(-1, last, 0);
    RangesCons([FIRST], -1, last);
    RangesCons([IMAGE, FIRST], -1, last);
    RangesCons([FINAL, IMAGE, FIRST], -1, last);
  }

  lemma ImageRanges()
    ensures DeleteRanges([], [FIRST, IMAGE, FINAL], "", {}) == [Edit(10, 11, []), Edit(4, 5, []), Edit(1, 10, [])]
  {
    hide DeleteRanges, Sort, Listed, Ranges, LowestSection, LastText, OfTab;
    RangesOf([], [FIRST, IMAGE, FINAL], "", {});
    ImageListed();
    SortThree(FIRST, IMAGE, FINAL);
    ImageLast();
    NoSection("");
    ImageSteps(Some(FINAL));
  }

  /** The reader of a document lists an image beside the paragraph that holds it
      (vfs/docs_api.go:567-568). The image goes first, the paragraph's own range then reaches one
      unit too far, and the terminator that must stay goes with it. */
  lemma NestedImage(inherit: Inherit, body: Body)
    requires |body| == 12
    ensures var es := DeleteRanges([], [FIRST, IMAGE, FINAL], "", {});
      Execute(inherit, "", body, Scripts("", es)) == Some(body[..1]) && |Stay(body, Cover(es), 0)| == 2
  {
    hide Execute, Scripts, DeleteRanges;
    ImageRanges();
    var es := [Edit(10, 11, []), Edit(4, 5, []), Edit(1, 10, [])];
    DeleteOne(inherit, "", body, es);
    var b1 := body[..10] + body[11..];
    DeleteOne(inherit, "", b1, es[1..]);
    var b2 := b1[..4] + b1[5..];
    DeleteOne(inherit, "", b2, es[2..]);
    assert b2[..1] + b2[10..] == body[..1];
    NoDeletes(inherit, "", body[..1]);
    assert es[3..] == [];
    assert Cover(es) == Range(1, 11) by {
      forall i: nat ensures i in Cover(es) <==> i in Range(1, 11) { CoverMembers(es, i); }
    }
    RangeSize(1, 11);
    StaySize(body, Cover(es), 0);
  }
}
