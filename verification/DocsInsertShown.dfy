/** What an insert script shows after its second batch (vfs/docs_map.go, mapInsertBlocks): a style
    request that lands too far on leaves the first unit of its run as the service inserted it. */
module DocsInsertShown {
  import opened Inline
  import opened DocsBody
  import opened DocsReplace
  import opened DocsInsert
  import opened DocsInsertText
  import opened DocsInsertStyles

  const PLAIN := Style(false, false, false, "")

  /** A service that gives inserted units no style. */
  const Unmarked: Inherit := (b: Body, at: nat, i: nat) => PLAIN

  // ---------------------------------------------------------------------------------------------
  // The styles of the script, against the right ones
  // ---------------------------------------------------------------------------------------------

  /** The same style request, the first of the two as far on or further. */
  predicate Behind(q: Request, p: Request) {
    q.SetStyle? && p.SetStyle? && q.start >= p.start && q == SetStyle(p.tab, q.start, q.start + (p.end - p.start), p.style) &&
    p.start < p.end
  }

  predicate AllBehind(got: seq<Request>, want: seq<Request>) {
    |got| == |want| && forall k :: 0 <= k < |got| ==> Behind(got[k], want[k])
  }

  lemma BehindAppend(a: seq<Request>, b: seq<Request>, c: seq<Request>, d: seq<Request>)
    requires AllBehind(a, c) && AllBehind(b, d)
    ensures AllBehind(a + b, c + d)
  {
  }

  lemma {:induction false} InlineBehind(tab: string, a: nat, b: nat, runs: seq<Inline.Run>)
    requires a >= b
    ensures AllBehind(InlineStyles(tab, a, runs), InlineStyles(tab, b, runs))
    decreases |runs|
  {
    if runs != [] {
      hide HasMarks, StyleOf, Utf16, InlineStyles;
      var n := |Utf16(runs[0].text)|;
      assert runs[0..] == runs;
      StylesFrom(tab, a, runs, 0);
      StylesFrom(tab, b, runs, 0);
      InlineBehind(tab, a + n, b + n, runs[1..]);
      BehindAppend(OneStyle(tab, a, runs[0]), InlineStyles(tab, a + n, runs[1..]), OneStyle(tab, b, runs[0]), InlineStyles(tab, b + n, runs[1..]));
    }
  }

  lemma {:induction false} ListBehind(tab: string, at: nat, shift: nat, items: seq<NewBlock>)
    requires forall b :: b in items ==> b.kind == NewItem
    ensures AllBehind(StylePart(ListReqs(tab, at + shift, items)), RightStyles(tab, at, items))
    decreases |items|
  {
    hide *;
    if items == [] {
      ListNone(tab, at, shift);
      NoneBehind();
    } else {
      var b, rest := items[0], items[1..];
      assert b in items;
      ListBehind(tab, at + |Utf16(Line(b))|, shift + Nesting(b), rest);
      PayloadUnits(b);
      assert at + |Utf16(Line(b))| + (shift + Nesting(b)) == at + shift + PayloadLen(b);
      ListUnfold(tab, at, shift, items);
      InlineBehind(tab, at + shift, at, b.runs);
      BehindAppend(InlineStyles(tab, at + shift, b.runs), StylePart(ListReqs(tab, at + shift + PayloadLen(b), rest)),
                   InlineStyles(tab, at, b.runs), RightStyles(tab, at + |Utf16(Line(b))|, rest));
    }
  }

  lemma NoneBehind()
    ensures AllBehind([], [])
  {
  }

  lemma PartsBehind(tab: string, at: nat, first: seq<Request>, rest: seq<Request>, a: seq<NewBlock>, b: seq<NewBlock>)
    requires AllBehind(StylePart(first), RightStyles(tab, at, a))
    requires AllBehind(StylePart(rest), RightStyles(tab, at + |Utf16(Text(a))|, b))
    ensures AllBehind(StylePart(first + rest), RightStyles(tab, at, a + b))
  {
    hide StylePart, RightStyles, Utf16, Text, AllBehind;
    PartsAppend(first, rest);
    RightAppend(tab, at, a, b);
    BehindAppend(StylePart(first), StylePart(rest), RightStyles(tab, at, a), RightStyles(tab, at + |Utf16(Text(a))|, b));
  }

  lemma {:induction false} StylesBehind(tab: string, idx: nat, blocks: seq<NewBlock>)
    requires InsertReqs(tab, idx, blocks).Some?
    ensures AllBehind(StylePart(InsertReqs(tab, idx, blocks).value.reqs), RightStyles(tab, idx, blocks))
    decreases |blocks|
  {
    hide *;
    if blocks == [] {
      NoReqs(tab, idx);
      NoStyles();
      RightNone(tab, idx);
      NoneBehind();
    } else if blocks[0].kind == NewImage {
      ImageReqs(tab, idx, blocks);
      StylesBehind(tab, idx, blocks[1..]);
      RightImage(tab, idx, blocks);
    } else if blocks[0].kind == NewItem {
      var items, rest := ItemReqs(tab, idx, blocks);
      var bullets, next := Bullets(tab, idx, idx + ListLen(items), blocks[0].listType), idx + |Utf16(Text(items))|;
      ListBehind(tab, idx, 0, items);
      ListPart(tab, idx, items, bullets);
      StylesBehind(tab, next, rest);
      ThenIs(ListReqs(tab, idx, items) + [bullets], InsertReqs(tab, next, rest));
      PartsBehind(tab, idx, ListReqs(tab, idx, items) + [bullets], InsertReqs(tab, next, rest).value.reqs, items, rest);
    } else {
      var b, next := blocks[0], idx + |Utf16(Text([blocks[0]]))|;
      BlockReqs(tab, idx, blocks);
      TextOfOne(tab, idx, b);
      RightOne(tab, idx, b);
      InlineBehind(tab, idx, idx, b.runs);
      StylesBehind(tab, next, blocks[1..]);
      ThenIs(InsertOne(tab, idx, b), InsertReqs(tab, next, blocks[1..]));
      PartsBehind(tab, idx, InsertOne(tab, idx, b), InsertReqs(tab, next, blocks[1..]).value.reqs, [b], blocks[1..]);
    }
  }

  // ---------------------------------------------------------------------------------------------
  // Where the right ones are
  // ---------------------------------------------------------------------------------------------

  /** Style requests in rising order, in [lo, hi), none of them of no style. */
  predicate Climbs(qs: seq<Request>, lo: nat, hi: nat) {
    (forall k :: 0 <= k < |qs| ==> qs[k].SetStyle? && lo <= qs[k].start < qs[k].end <= hi && qs[k].style != PLAIN) &&
    forall j, k :: 0 <= j < k < |qs| ==> qs[j].SetStyle? && qs[k].SetStyle? && qs[j].end <= qs[k].start
  }

  lemma ClimbsAppend(a: seq<Request>, b: seq<Request>, lo: nat, mid: nat, hi: nat)
    requires lo <= mid <= hi && Climbs(a, lo, mid) && Climbs(b, mid, hi)
    ensures Climbs(a + b, lo, hi)
  {
    var qs := a + b;
    forall j, k | 0 <= j < k < |qs| ensures qs[j].SetStyle? && qs[k].SetStyle? && qs[j].end <= qs[k].start {
      assert qs[j] == if j < |a| then a[j] else b[j - |a|];
      assert qs[k] == if k < |a| then a[k] else b[k - |a|];
    }
  }

  lemma OneClimbs(tab: string, at: nat, r: Inline.Run)
    ensures Climbs(OneStyle(tab, at, r), at, at + |Utf16(r.text)|)
  {
  }

  lemma PlainUnits(runs: seq<Inline.Run>)
    requires runs != []
    ensures |Utf16(PlainText(runs))| == |Utf16(runs[0].text)| + |Utf16(PlainText(runs[1..]))|
  {
    hide Utf16;
    Utf16Append(runs[0].text, PlainText(runs[1..]));
  }

  lemma {:induction false} InlineClimbs(tab: string, at: nat, runs: seq<Inline.Run>)
    ensures Climbs(InlineStyles(tab, at, runs), at, at + |Utf16(PlainText(runs))|)
    decreases |runs|
  {
    hide *;
    if runs == [] {
      NoRuns(tab, at);
      NoneClimbs(at, at + |Utf16(PlainText(runs))|);
    } else {
      var n := |Utf16(runs[0].text)|;
      assert runs[0..] == runs;
      StylesFrom(tab, at, runs, 0);
      OneClimbs(tab, at, runs[0]);
      InlineClimbs(tab, at + n, runs[1..]);
      PlainUnits(runs);
      ClimbsAppend(OneStyle(tab, at, runs[0]), InlineStyles(tab, at + n, runs[1..]), at, at + n, at + |Utf16(PlainText(runs))|);
    }
  }

  lemma ClimbsWider(qs: seq<Request>, lo: nat, hi: nat, more: nat)
    requires Climbs(qs, lo, hi) && hi <= more
    ensures Climbs(qs, lo, more)
  {
  }

  lemma {:induction false} RightClimbs(tab: string, at: nat, blocks: seq<NewBlock>)
    ensures Climbs(RightStyles(tab, at, blocks), at, at + |Utf16(Text(blocks))|)
    decreases |blocks|
  {
    hide Utf16, InlineStyles, Climbs;
    if blocks == [] {
      assert Climbs([], at, at + |Utf16("")|) by { NoneClimbs(at, at + |Utf16("")|); }
    } else if blocks[0].kind == NewImage {
      RightClimbs(tab, at, blocks[1..]);
      assert "" + Text(blocks[1..]) == Text(blocks[1..]);
    } else {
      var b, n := blocks[0], |Utf16(Line(blocks[0]))|;
      InlineClimbs(tab, at, b.runs);
      Utf16Append(PlainText(b.runs), "\n");
      ClimbsWider(InlineStyles(tab, at, b.runs), at, at + |Utf16(PlainText(b.runs))|, at + n);
      RightClimbs(tab, at + n, blocks[1..]);
      Utf16Append(Line(b), Text(blocks[1..]));
      ClimbsAppend(InlineStyles(tab, at, b.runs), RightStyles(tab, at + n, blocks[1..]), at, at + n, at + |Utf16(Text(blocks))|);
    }
  }

  lemma NoneClimbs(lo: nat, hi: nat)
    ensures Climbs([], lo, hi)
  {
  }

  /** The first unit of each request has its style in what shows the blocks from index at on. */
  ghost predicate FirstUnits(shown: Body, at: nat, qs: seq<Request>) {
    forall q :: q in qs ==> q.SetStyle? && at <= q.start < at + |shown| && shown[q.start - at].style == q.style
  }

  lemma FirstAppend(a: Body, b: Body, at: nat, qs: seq<Request>, more: seq<Request>)
    requires FirstUnits(a, at, qs) && FirstUnits(b, at + |a|, more)
    ensures FirstUnits(a + b, at, qs + more)
  {
  }

  lemma OneFirst(tab: string, at: nat, u: Body, r: Inline.Run)
    requires |u| == |Utf16(r.text)| && (HasMarks(r) ==> forall i :: 0 <= i < |u| ==> u[i].style == StyleOf(r))
    ensures FirstUnits(u, at, OneStyle(tab, at, r))
  {
    hide HasMarks, StyleOf, Utf16;
  }

  lemma ShowsCons(u: Body, runs: seq<Inline.Run>)
    requires runs != [] && Shows(u, runs)
    ensures var n := |Utf16(runs[0].text)|;
      n <= |u| && u == u[..n] + u[n..] && Shows(u[n..], runs[1..]) &&
      (HasMarks(runs[0]) ==> forall i :: 0 <= i < |u[..n]| ==> u[..n][i].style == StyleOf(runs[0]))
  {
    hide Utf16, HasMarks, StyleOf;
  }

  lemma {:induction false} InlineFirst(tab: string, at: nat, u: Body, runs: seq<Inline.Run>)
    requires Shows(u, runs)
    ensures FirstUnits(u, at, InlineStyles(tab, at, runs))
    decreases |runs|
  {
    hide *;
    if runs == [] {
      NoRuns(tab, at);
      NoFirstUnits(u, at);
    } else {
      var n := |Utf16(runs[0].text)|;
      assert runs[0..] == runs;
      ShowsCons(u, runs);
      StylesFrom(tab, at, runs, 0);
      OneFirst(tab, at, u[..n], runs[0]);
      InlineFirst(tab, at + n, u[n..], runs[1..]);
      FirstAppend(u[..n], u[n..], at, OneStyle(tab, at, runs[0]), InlineStyles(tab, at + n, runs[1..]));
    }
  }

  lemma FirstLine(shown: Body, blocks: seq<NewBlock>) returns (line: Body, rest: Body)
    requires blocks != [] && blocks[0].kind != NewImage && ShowsAll(shown, blocks)
    ensures shown == line + rest && |line| > 0 && Shows(line[..|line| - 1], blocks[0].runs) && ShowsAll(rest, blocks[1..])
  {
    hide Shows;
    line, rest :| shown == line + rest && |line| > 0 && Shows(line[..|line| - 1], blocks[0].runs) &&
      line[|line| - 1].code == NEWLINE && ShowsAll(rest, blocks[1..]);
  }

  lemma ShowsImage(shown: Body, blocks: seq<NewBlock>)
    requires blocks != [] && blocks[0].kind == NewImage && ShowsAll(shown, blocks)
    ensures ShowsAll(shown, blocks[1..])
  {
    hide Shows;
  }

  lemma {:induction false} RightFirst(tab: string, at: nat, shown: Body, blocks: seq<NewBlock>)
    requires ShowsAll(shown, blocks)
    ensures FirstUnits(shown, at, RightStyles(tab, at, blocks))
    decreases |blocks|
  {
    hide *;
    if blocks == [] {
      RightNone(tab, at);
      NoFirstUnits(shown, at);
    } else if blocks[0].kind == NewImage {
      RightImage(tab, at, blocks);
      ShowsImage(shown, blocks);
      RightFirst(tab, at, shown, blocks[1..]);
    } else {
      var line, rest := FirstLine(shown, blocks);
      InlineFirst(tab, at, line[..|line| - 1], blocks[0].runs);
      FirstLonger(line, at, InlineStyles(tab, at, blocks[0].runs));
      LineSize(line, blocks[0]);
      RightFirst(tab, at + |line|, rest, blocks[1..]);
      RightLine(tab, at, blocks);
      FirstAppend(line, rest, at, InlineStyles(tab, at, blocks[0].runs), RightStyles(tab, at + |line|, blocks[1..]));
    }
  }

  lemma NoFirstUnits(shown: Body, at: nat)
    ensures FirstUnits(shown, at, [])
  {
  }

  lemma FirstLonger(line: Body, at: nat, qs: seq<Request>)
    requires |line| > 0 && FirstUnits(line[..|line| - 1], at, qs)
    ensures FirstUnits(line, at, qs)
  {
  }

  lemma LineSize(line: Body, b: NewBlock)
    requires |line| > 0 && Shows(line[..|line| - 1], b.runs)
    ensures |line| == |Utf16(Line(b))|
  {
    hide Utf16, Shows;
    var u := line[..|line| - 1];
    ShowsSpells(u, b.runs);
    assert |Codes(u)| == |u|;
    Utf16Append(PlainText(b.runs), "\n");
    NewlineUnits();
  }

  // ---------------------------------------------------------------------------------------------
  // What the batches leave alone
  // ---------------------------------------------------------------------------------------------

  predicate AllPlain(body: Body) {
    forall i :: 0 <= i < |body| ==> body[i].style == PLAIN
  }

  lemma {:induction false} StripPlain(u: Body, atStart: bool)
    requires AllPlain(u)
    ensures AllPlain(StripTabs(u, atStart))
  {
    if u != [] {
      assert AllPlain(u[1..]);
      StripPlain(u[1..], if atStart && u[0].code == TAB then true else u[0].code == NEWLINE);
    }
  }

  lemma ApplyPlain(body: Body, q: Request)
    requires AllPlain(body) && !q.SetStyle? && Apply(Unmarked, body, q).Some?
    ensures AllPlain(Apply(Unmarked, body, q).value)
  {
    match q {
      case Bullets(_, start, end, _) =>
        assert AllPlain(body[start..end]);
        StripPlain(body[start..end], true);
      case _ =>
    }
  }

  lemma {:induction false} ExecutePlain(tab: string, body: Body, reqs: seq<Request>)
    requires AllPlain(body) && (forall q :: q in reqs ==> !q.SetStyle?) && Execute(Unmarked, tab, body, reqs).Some?
    ensures AllPlain(Execute(Unmarked, tab, body, reqs).value)
    decreases |reqs|
  {
    hide Apply;
    if reqs != [] {
      assert reqs[0] in reqs && forall q :: q in reqs[1..] ==> q in reqs;
      if reqs[0].tab != tab {
        ExecutePlain(tab, body, reqs[1..]);
      } else {
        ApplyPlain(body, reqs[0]);
        ExecutePlain(tab, Apply(Unmarked, body, reqs[0]).value, reqs[1..]);
      }
    }
  }

  lemma {:induction false} TextPartNoStyle(reqs: seq<Request>)
    ensures forall q :: q in TextPart(reqs) ==> !q.SetStyle?
  {
    if reqs != [] { TextPartNoStyle(reqs[1..]); }
  }

  /** A unit that no style request covers stays as it is. */
  lemma {:induction false} Uncovered(inherit: Inherit, tab: string, body: Body, reqs: seq<Request>, a: nat)
    requires forall q :: q in reqs ==> q.SetStyle? && !(q.start <= a < q.end)
    requires Execute(inherit, tab, body, reqs).Some? && a < |body|
    ensures |Execute(inherit, tab, body, reqs).value| == |body| && Execute(inherit, tab, body, reqs).value[a] == body[a]
    decreases |reqs|
  {
    if reqs != [] {
      assert reqs[0] in reqs && forall q :: q in reqs[1..] ==> q in reqs;
      if reqs[0].tab != tab {
        Uncovered(inherit, tab, body, reqs[1..], a);
      } else {
        Uncovered(inherit, tab, Apply(inherit, body, reqs[0]).value, reqs[1..], a);
      }
    }
  }

  /** Of styles that are not the right ones, none covers the first unit of the first that is not. */
  lemma MissedUnit(got: seq<Request>, want: seq<Request>, lo: nat, hi: nat) returns (k: nat)
    requires AllBehind(got, want) && Climbs(want, lo, hi) && got != want
    ensures k < |want| && forall q :: q in got ==> q.SetStyle? && !(q.start <= want[k].start < q.end)
  {
    k := FirstOther(got, want);
    assert Behind(got[k], want[k]);
    forall m | 0 <= m < |got| ensures got[m].SetStyle? && !(got[m].start <= want[k].start < got[m].end) {
      assert Behind(got[m], want[m]);
    }
  }

  lemma {:induction false} FirstOther(got: seq<Request>, want: seq<Request>) returns (k: nat)
    requires |got| == |want| && got != want
    ensures k < |want| && got[k] != want[k] && got[..k] == want[..k]
  {
    if got[0] != want[0] {
      k := 0;
    } else {
      assert got == [got[0]] + got[1..] && want == [want[0]] + want[1..];
      var j := FirstOther(got[1..], want[1..]);
      k := j + 1;
      assert got[..k] == [got[0]] + got[1..][..j] && want[..k] == [want[0]] + want[1..][..j];
    }
  }

  // ---------------------------------------------------------------------------------------------
  // When every block shows its marks
  // ---------------------------------------------------------------------------------------------

  /** Run on body, the script puts every block's text under its marks at idx, and changes nothing else. */
  ghost predicate ShownAt(inherit: Inherit, tab: string, body: Body, idx: nat, blocks: seq<NewBlock>)
    requires InsertReqs(tab, idx, blocks).Some? && idx <= |body|
  {
    var reqs := InsertReqs(tab, idx, blocks).value.reqs;
    exists shown: Body :: ShowsAll(shown, blocks) &&
      Execute(inherit, tab, body, TextPart(reqs) + StylePart(reqs)) == Some(Placed(body, idx, shown))
  }

  lemma ShiftedNotShown(tab: string, body: Body, idx: nat, blocks: seq<NewBlock>)
    requires InsertReqs(tab, idx, blocks).Some? && idx <= |body| && AllPlain(body) && !Flat(blocks)
    ensures !ShownAt(Unmarked, tab, body, idx, blocks)
  {
    hide Execute, TextPart, StylePart, InsertReqs, RightStyles, Flat, ShowsAll, FirstUnits, Climbs, AllBehind, Placed;
    var reqs := InsertReqs(tab, idx, blocks).value.reqs;
    var got, want := StylePart(reqs), RightStyles(tab, idx, blocks);
    StylesRight(tab, idx, blocks);
    StylesBehind(tab, idx, blocks);
    RightClimbs(tab, idx, blocks);
    var k := MissedUnit(got, want, idx, idx + |Utf16(Text(blocks))|);
    ExecuteAppend(Unmarked, tab, body, TextPart(reqs), got);
    if ShownAt(Unmarked, tab, body, idx, blocks) {
      var shown: Body :| ShowsAll(shown, blocks) &&
        Execute(Unmarked, tab, body, TextPart(reqs) + got) == Some(Placed(body, idx, shown));
      var mid := Execute(Unmarked, tab, body, TextPart(reqs)).value;
      TextPartNoStyle(reqs);
      ExecutePlain(tab, body, TextPart(reqs));
      RightFirst(tab, idx, shown, blocks);
      FirstAt(shown, idx, want, k, idx + |Utf16(Text(blocks))|);
      PlacedAt(body, idx, shown, want[k].start);
      ExecuteSize(Unmarked, tab, mid, got, Placed(body, idx, shown));
      Uncovered(Unmarked, tab, mid, got, want[k].start);
      assert false;
    }
  }

  lemma FirstAt(shown: Body, at: nat, qs: seq<Request>, k: nat, hi: nat)
    requires FirstUnits(shown, at, qs) && Climbs(qs, at, hi) && k < |qs|
    ensures qs[k].SetStyle? && at <= qs[k].start < at + |shown| && shown[qs[k].start - at].style == qs[k].style != PLAIN
  {
    assert qs[k] in qs;
  }

  lemma PlacedAt(body: Body, idx: nat, u: Body, a: nat)
    requires idx <= |body| && idx <= a < idx + |u|
    ensures a < |Placed(body, idx, u)| && Placed(body, idx, u)[a] == u[a - idx]
  {
  }

  lemma {:induction false} ExecuteSize(inherit: Inherit, tab: string, body: Body, reqs: seq<Request>, after: Body)
    requires (forall q :: q in reqs ==> q.SetStyle?) && Execute(inherit, tab, body, reqs) == Some(after)
    ensures |after| == |body|
    decreases |reqs|
  {
    if reqs != [] {
      assert reqs[0] in reqs && forall q :: q in reqs[1..] ==> q in reqs;
      if reqs[0].tab != tab {
        ExecuteSize(inherit, tab, body, reqs[1..], after);
      } else {
        ExecuteSize(inherit, tab, Apply(inherit, body, reqs[0]).value, reqs[1..], after);
      }
    }
  }

  /** Main result: the script of clean blocks shows every block under its marks, in every body and
      whatever style the service gives inserted units, if and only if no styled item comes below a
      nested one of its list. */
  lemma ShownExactly(tab: string, idx: nat, blocks: seq<NewBlock>)
    requires InsertReqs(tab, idx, blocks).Some? && Clean(blocks)
    ensures Flat(blocks) <==>
            forall inherit: Inherit, body: Body :: idx <= |body| ==> ShownAt(inherit, tab, body, idx, blocks)
  {
    hide Flat, Clean, InsertReqs, Execute, TextPart, StylePart, ShowsAll, Placed, ShownAt;
    if Flat(blocks) {
      forall inherit: Inherit, body: Body | idx <= |body| ensures ShownAt(inherit, tab, body, idx, blocks) {
        ShownOne(inherit, tab, body, idx, blocks);
      }
    } else {
      var body: Body := seq(idx, i => Unit(0, PLAIN));
      ShiftedNotShown(tab, body, idx, blocks);
    }
  }

  lemma ShownOne(inherit: Inherit, tab: string, body: Body, idx: nat, blocks: seq<NewBlock>)
    requires InsertReqs(tab, idx, blocks).Some? && idx <= |body| && Clean(blocks) && Flat(blocks)
    ensures ShownAt(inherit, tab, body, idx, blocks)
  {
    hide Flat, Clean, InsertReqs, Execute, TextPart, StylePart, ShowsAll, Placed;
    var shown := InsertedStyled(inherit, tab, body, idx, blocks);
  }
}
