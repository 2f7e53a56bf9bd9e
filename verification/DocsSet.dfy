/** A whole set-blocks write (vfs/gdrive_write.go, setBlocksDoc): the delete script, and the insert
    script that follows it on what the deletes leave, for blocks without tables. */
module DocsSet {
  import Inline
  import opened DocsBody
  import opened DocsReplace
  import opened DocsReplaceAll
  import opened DocsDelete
  import opened DocsInsert
  import opened DocsInsertText
  import opened DocsInsertStyles
  import opened DocsInsertShown
  import opened DocsBlocks

  /** What the listed spans leave of a body. */
  function Kept(body: Body, es: seq<Edit>): Body {
    Stay(body, Cover(es), 0)
  }

  /** Run on body, the two scripts leave every block's text under its marks at index idx of what the
      listed spans leave, and change nothing else. */
  ghost predicate SetShown(inherit: Inherit, tab: string, body: Body, es: seq<Edit>, idx: nat, blocks: seq<NewBlock>)
    requires InsertReqs(tab, idx, blocks).Some? && idx <= |Kept(body, es)|
  {
    var reqs := InsertReqs(tab, idx, blocks).value.reqs;
    exists shown: Body :: ShowsAll(shown, blocks) &&
      Execute(inherit, tab, body, Scripts(tab, es) + (TextPart(reqs) + StylePart(reqs))) == Inline.Some(Placed(Kept(body, es), idx, shown))
  }

  /** When the deletes do what they list, the rest is the insert script on what they leave. */
  lemma SetIsInsert(inherit: Inherit, tab: string, body: Body, es: seq<Edit>, idx: nat, blocks: seq<NewBlock>)
    requires InsertReqs(tab, idx, blocks).Some? && idx <= |Kept(body, es)|
    requires Execute(inherit, tab, body, Scripts(tab, es)) == Inline.Some(Kept(body, es))
    ensures SetShown(inherit, tab, body, es, idx, blocks) <==> ShownAt(inherit, tab, Kept(body, es), idx, blocks)
  {
    hide Execute, InsertReqs, TextPart, StylePart, Scripts, Kept, ShowsAll, Placed;
    var reqs := InsertReqs(tab, idx, blocks).value.reqs;
    ExecuteAppend(inherit, tab, body, Scripts(tab, es), TextPart(reqs) + StylePart(reqs));
  }

  /** When the deletes take more, too few units are left in the end. */
  lemma TakenNotShown(inherit: Inherit, tab: string, body: Body, es: seq<Edit>, idx: nat, blocks: seq<NewBlock>)
    requires InsertReqs(tab, idx, blocks).Some? && idx <= |Kept(body, es)|
    requires var r := Execute(inherit, tab, body, Scripts(tab, es)); r.Some? ==> |r.value| < |Kept(body, es)|
    ensures !SetShown(inherit, tab, body, es, idx, blocks)
  {
    hide Execute, InsertReqs, TextPart, StylePart, Scripts, Kept, ShowsAll, Text, Clean, Utf16;
    var reqs := InsertReqs(tab, idx, blocks).value.reqs;
    ExecuteAppend(inherit, tab, body, Scripts(tab, es), TextPart(reqs) + StylePart(reqs));
    if SetShown(inherit, tab, body, es, idx, blocks) {
      var shown: Body :| ShowsAll(shown, blocks) &&
        Execute(inherit, tab, body, Scripts(tab, es) + (TextPart(reqs) + StylePart(reqs))) == Inline.Some(Placed(Kept(body, es), idx, shown));
      ShownSize(shown, blocks);
      var mid := Execute(inherit, tab, body, Scripts(tab, es)).value;
      InsertSize(inherit, tab, mid, idx, blocks, Placed(Kept(body, es), idx, shown));
      assert false;
    }
  }

  /** The insert script adds at most the units of its text. */
  lemma InsertSize(inherit: Inherit, tab: string, body: Body, idx: nat, blocks: seq<NewBlock>, after: Body)
    requires InsertReqs(tab, idx, blocks).Some?
    requires var reqs := InsertReqs(tab, idx, blocks).value.reqs;
      Execute(inherit, tab, body, TextPart(reqs) + StylePart(reqs)) == Inline.Some(after)
    ensures |after| <= |body| + |Utf16(Text(blocks))|
  {
    hide Execute, InsertReqs, TextPart, StylePart, Text, Clean, Utf16, Placed;
    var reqs := InsertReqs(tab, idx, blocks).value.reqs;
    var u := InsertsText(inherit, tab, body, idx, blocks);
    ExecuteAppend(inherit, tab, body, TextPart(reqs), StylePart(reqs));
    StylesOnly(reqs);
    ExecuteSize(inherit, tab, Execute(inherit, tab, body, TextPart(reqs)).value, StylePart(reqs), after);
  }

  lemma {:induction false} StylesOnly(reqs: seq<Request>)
    ensures forall q :: q in StylePart(reqs) ==> q.SetStyle?
  {
    if reqs != [] { StylesOnly(reqs[1..]); }
  }

  lemma {:induction false} StayPlain(body: Body, gone: set<nat>, from: nat)
    requires AllPlain(body)
    ensures AllPlain(Stay(body, gone, from))
  {
    if body != [] {
      assert AllPlain(body[1..]);
      StayPlain(body[1..], gone, from + 1);
    }
  }

  /** A body of units without style, long enough for the spans and for an index. */
  function PlainBody(n: nat): (body: Body)
    ensures |body| == n && AllPlain(body)
  {
    seq(n, i => Unit(0, PLAIN))
  }

  function Reach(spans: seq<Span>): nat {
    if spans == [] then 0
    else
      var rest := Reach(spans[1..]);
      if spans[0].end > rest then spans[0].end else rest
  }

  lemma {:induction false} ReachWithin(spans: seq<Span>)
    ensures Within(spans, Reach(spans))
  {
    if spans != [] { ReachWithin(spans[1..]); }
  }

  lemma CoverReach(structural: seq<Span>, locations: seq<Span>, tab: string, keep: set<string>, i: nat)
    requires i in Cover(DeleteRanges(structural, locations, tab, keep))
    ensures i < Reach(Listed(structural, locations, tab, keep))
  {
    hide LowestSection, LastText, OfTab, Ranges, Sorted, FromSpans, Cover;
    var listed := Listed(structural, locations, tab, keep);
    var spans := Sort(listed, BySpan);
    ReachWithin(listed);
    SortSorted(listed, BySpan);
    forall s | s in spans ensures s.end <= Reach(listed) { assert s in multiset(spans); assert s in multiset(listed); }
    RangesSorted(spans, LowestSection(OfTab(structural, tab, {})), LastText(spans), Reach(listed));
    CoverMembers(DeleteRanges(structural, locations, tab, keep), i);
  }

  /** The spans of a body that reaches idx further leave room for idx. */
  lemma RoomLeft(structural: seq<Span>, locations: seq<Span>, tab: string, keep: set<string>, idx: nat)
    ensures SetRuns(PlainBody(Reach(Listed(structural, locations, tab, keep)) + idx), structural, locations, tab, keep, idx)
  {
    hide Listed, DeleteRanges, Cover, Stay, Reach, Within;
    var listed, es := Listed(structural, locations, tab, keep), DeleteRanges(structural, locations, tab, keep);
    var body := PlainBody(Reach(listed) + idx);
    ReachWithin(listed);
    WithinMore(listed, Reach(listed), |body|);
    forall i | i in Cover(es) ensures i < Reach(listed) { CoverReach(structural, locations, tab, keep, i); }
    StaySize(body, Cover(es), 0);
    CoverBelow(Cover(es), Reach(listed));
  }

  lemma WithinMore(spans: seq<Span>, n: nat, m: nat)
    requires Within(spans, n) && n <= m
    ensures Within(spans, m)
  {
  }

  lemma CoverBelow(gone: set<nat>, n: nat)
    requires forall i :: i in gone ==> i < n
    ensures |gone| <= n
  {
    RangeSize(0, n);
    Subset(gone, Range(0, n));
  }

  lemma {:induction false} Subset(a: set<nat>, b: set<nat>)
    requires a <= b
    ensures |a| <= |b|
  {
    assert b == a + (b - a);
  }

  lemma SetShows(inherit: Inherit, body: Body, structural: seq<Span>, locations: seq<Span>, tab: string, keep: set<string>,
                 idx: nat, blocks: seq<NewBlock>)
    requires InsertReqs(tab, idx, blocks).Some? && Clean(blocks) && SetRuns(body, structural, locations, tab, keep, idx)
    requires ListedApart(structural, locations, tab, keep) && Flat(blocks)
    ensures SetShown(inherit, tab, body, DeleteRanges(structural, locations, tab, keep), idx, blocks)
  {
    hide Listed, ListedApart, Flat, Clean, InsertReqs, DeleteRanges, SetShown, Kept;
    var es := DeleteRanges(structural, locations, tab, keep);
    SetIsKept(inherit, body, structural, locations, tab, keep);
    SetIsInsert(inherit, tab, body, es, idx, blocks);
    ShownOne(inherit, tab, Kept(body, es), idx, blocks);
  }

  /** Otherwise a plain body, of a service that gives inserted units no style, is not shown. */
  lemma SetFails(structural: seq<Span>, locations: seq<Span>, tab: string, keep: set<string>, idx: nat, blocks: seq<NewBlock>)
      returns (body: Body)
    requires InsertReqs(tab, idx, blocks).Some? && Clean(blocks) && !(ListedApart(structural, locations, tab, keep) && Flat(blocks))
    ensures SetRuns(body, structural, locations, tab, keep, idx)
    ensures !SetShown(Unmarked, tab, body, DeleteRanges(structural, locations, tab, keep), idx, blocks)
  {
    hide Listed, ListedApart, Flat, Clean, InsertReqs, DeleteRanges, SetShown, Kept;
    var es := DeleteRanges(structural, locations, tab, keep);
    body := PlainBody(Reach(Listed(structural, locations, tab, keep)) + idx);
    RoomLeft(structural, locations, tab, keep, idx);
    SetIsKept(Unmarked, body, structural, locations, tab, keep);
    if ListedApart(structural, locations, tab, keep) {
      KeptPlain(body, es);
      SetIsInsert(Unmarked, tab, body, es, idx, blocks);
      ShiftedNotShown(tab, Kept(body, es), idx, blocks);
    } else {
      TakenNotShown(Unmarked, tab, body, es, idx, blocks);
    }
  }

  /** Main result: a set-blocks write of clean blocks leaves, in every body and whatever style the
      service gives inserted units, the new blocks under their marks at the index and every unit that
      no listed span takes, if and only if no two listed spans share a unit that goes and no styled item
      comes below a nested one of its list. */
  lemma SetExactly(structural: seq<Span>, locations: seq<Span>, tab: string, keep: set<string>, idx: nat, blocks: seq<NewBlock>)
    requires InsertReqs(tab, idx, blocks).Some? && Clean(blocks)
    ensures ListedApart(structural, locations, tab, keep) && Flat(blocks) <==>
            forall inherit: Inherit, body: Body ::
              SetRuns(body, structural, locations, tab, keep, idx) ==>
                SetShown(inherit, tab, body, DeleteRanges(structural, locations, tab, keep), idx, blocks)
  {
    hide Listed, ListedApart, Flat, Clean, InsertReqs, DeleteRanges, SetShown, Kept;
    var es := DeleteRanges(structural, locations, tab, keep);
    if ListedApart(structural, locations, tab, keep) && Flat(blocks) {
      forall inherit: Inherit, body: Body | SetRuns(body, structural, locations, tab, keep, idx)
        ensures SetShown(inherit, tab, body, es, idx, blocks)
      {
        SetShows(inherit, body, structural, locations, tab, keep, idx, blocks);
      }
    } else {
      var body := SetFails(structural, locations, tab, keep, idx, blocks);
    }
  }

  /** The body has the listed spans, and the index in what they leave. */
  predicate SetRuns(body: Body, structural: seq<Span>, locations: seq<Span>, tab: string, keep: set<string>, idx: nat) {
    Within(Listed(structural, locations, tab, keep), |body|) && idx <= |Kept(body, DeleteRanges(structural, locations, tab, keep))|
  }

  lemma KeptPlain(body: Body, es: seq<Edit>)
    requires AllPlain(body)
    ensures AllPlain(Kept(body, es))
  {
    StayPlain(body, Cover(es), 0);
  }

  lemma SetIsKept(inherit: Inherit, body: Body, structural: seq<Span>, locations: seq<Span>, tab: string, keep: set<string>)
    requires Within(Listed(structural, locations, tab, keep), |body|)
    ensures var es := DeleteRanges(structural, locations, tab, keep);
      var r := Execute(inherit, tab, body, Scripts(tab, es));
      (ListedApart(structural, locations, tab, keep) ==> r == Inline.Some(Kept(body, es))) &&
      (!ListedApart(structural, locations, tab, keep) && r.Some? ==> |r.value| < |Kept(body, es)|)
  {
    hide Execute, Scripts, Stay, Listed, ListedApart, DeleteRanges;
    SetBlocksDeletes(inherit, body, structural, locations, tab, keep);
  }
}
