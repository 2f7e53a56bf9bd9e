/** Replace scripts (vfs/docs_map.go): every index is computed up front, and the script runs from
    the end of the body to its start, so no request moves what a later one addresses. */
module DocsReplace {
  import opened Inline
  import opened DocsBody
  import opened Sequences

  /** Text units [start, stop) give way to the runs' text. */
  datatype Edit = Edit(start: nat, stop: nat, runs: seq<Inline.Run>)

  // ---------------------------------------------------------------------------------------------
  // The requests of one edit
  // ---------------------------------------------------------------------------------------------

  /** The style requests of runs whose text starts at `start`. */
  function InlineStyles(tab: string, start: nat, runs: seq<Inline.Run>): seq<Request>
    decreases |runs|
  {
    if runs == [] then []
    else
      var n := |Utf16(runs[0].text)|;
      (if n > 0 && HasMarks(runs[0]) then [SetStyle(tab, start, start + n, StyleOf(runs[0]))] else [])
      + InlineStyles(tab, start + n, runs[1..])
  }

  method MapInlineStyles(start: nat, tab: string, runs: seq<Inline.Run>) returns (reqs: seq<Request>)
    ensures reqs == InlineStyles(tab, start, runs)
  {
    hide Utf16, HasMarks, StyleOf, InlineStyles;
    reqs := [];
    var off := 0;
    assert runs[0..] == runs;
    for i := 0 to |runs|
      invariant off >= 0 && InlineStyles(tab, start, runs) == reqs + InlineStyles(tab, start + off, runs[i..])
    {
      var n := DocsIndexLen(runs[i].text);
      StylesFrom(tab, start + off, runs, i);
      Assoc(reqs, OneStyle(tab, start + off, runs[i]), InlineStyles(tab, start + (off + n), runs[i + 1..]));
      Empty(reqs);
      if n > 0 && HasMarks(runs[i]) {
        reqs := reqs + [SetStyle(tab, start + off, start + off + n, StyleOf(runs[i]))];
      }
      off := off + n;
    }
    NoStylesLeft(tab, start + off, runs);
    Empty(reqs);
  }

  function OneStyle(tab: string, at: nat, r: Inline.Run): seq<Request> {
    var n := |Utf16(r.text)|;
    if n > 0 && HasMarks(r) then [SetStyle(tab, at, at + n, StyleOf(r))] else []
  }

  lemma StylesFrom(tab: string, at: nat, runs: seq<Inline.Run>, i: nat)
    requires i < |runs|
    ensures InlineStyles(tab, at, runs[i..]) == OneStyle(tab, at, runs[i]) + InlineStyles(tab, at + |Utf16(runs[i].text)|, runs[i + 1..])
  {
    hide Utf16, HasMarks, StyleOf;
    Suffix(runs, i);
  }

  lemma NoStylesLeft(tab: string, at: nat, runs: seq<Inline.Run>)
    ensures InlineStyles(tab, at, runs[|runs|..]) == []
  {
  }

  function Script(tab: string, e: Edit): seq<Request> {
    var plain := PlainText(e.runs);
    (if e.stop > e.start then [Delete(tab, e.start, e.stop)] else []) +
    (if plain != "" then [Insert(tab, e.start, plain)] + InlineStyles(tab, e.start, e.runs) else [])
  }

  // ---------------------------------------------------------------------------------------------
  // What one edit does
  // ---------------------------------------------------------------------------------------------

  lemma {:induction false} StylesKeepText(inherit: Inherit, tab: string, pre: Body, u: Body, post: Body, runs: seq<Inline.Run>)
    returns (shown: Body)
    requires Codes(u) == Utf16(PlainText(runs))
    ensures Execute(inherit, tab, pre + u + post, InlineStyles(tab, |pre|, runs)) == Some(pre + shown + post)
    ensures Shows(shown, runs)
    decreases |runs|
  {
    hide *;
    if runs == [] {
      shown := u;
      NothingShown(inherit, tab, pre, u, post);
    } else {
      var r := runs[0];
      var head, tail := SplitCodes(u, runs);
      var styled := StyledHead(head, r);
      var rest := StylesKeepText(inherit, tab, pre + styled, tail, post, runs[1..]);
      shown := styled + rest;
      ShowsJoin(styled, rest, runs);
      StyleFirst(inherit, tab, pre, head, tail, post, r, styled);
      InlineStylesStep(tab, |pre|, runs);
      Reassociate(pre, head, tail, post);
      Reassociate(pre, styled, tail, post);
      Reassociate(pre, styled, rest, post);
      Chain(inherit, tab, pre + u + post, pre + styled + (tail + post), pre + shown + post,
            InlineStyles(tab, |pre|, [r]), InlineStyles(tab, |pre + styled|, runs[1..]));
    }
  }

  lemma NothingShown(inherit: Inherit, tab: string, pre: Body, u: Body, post: Body)
    requires Codes(u) == Utf16(PlainText([]))
    ensures Execute(inherit, tab, pre + u + post, InlineStyles(tab, |pre|, [])) == Some(pre + u + post) && Shows(u, [])
  {
    assert |Codes(u)| == 0;
  }

  /** The head's units with the run's marks, when it has some. */
  lemma StyledHead(head: Body, r: Inline.Run) returns (styled: Body)
    requires Codes(head) == Utf16(r.text)
    ensures styled == if |head| > 0 && HasMarks(r) then Restyled(head, StyleOf(r)) else head
    ensures Codes(styled) == Utf16(r.text) && |styled| == |head| == |Utf16(r.text)|
    ensures HasMarks(r) ==> forall i :: 0 <= i < |styled| ==> styled[i].style == StyleOf(r)
  {
    hide Utf16, HasMarks, StyleOf;
    assert |Codes(head)| == |head|;
    styled := if |head| > 0 && HasMarks(r) then Restyled(head, StyleOf(r)) else head;
    assert Codes(styled) == Codes(head);
  }

  lemma SplitCodes(u: Body, runs: seq<Inline.Run>) returns (head: Body, tail: Body)
    requires runs != [] && Codes(u) == Utf16(PlainText(runs))
    ensures u == head + tail && Codes(head) == Utf16(runs[0].text) && Codes(tail) == Utf16(PlainText(runs[1..]))
  {
    hide Utf16;
    var n := |Utf16(runs[0].text)|;
    Utf16Append(runs[0].text, PlainText(runs[1..]));
    head, tail := u[..n], u[n..];
    CodesAppend(head, tail);
    assert Codes(tail) == Codes(u)[n..] && Codes(head) == Codes(u)[..n];
  }

  lemma Chain(inherit: Inherit, tab: string, b0: Body, b1: Body, b2: Body, first: seq<Request>, second: seq<Request>)
    requires Execute(inherit, tab, b0, first) == Some(b1) && Execute(inherit, tab, b1, second) == Some(b2)
    ensures Execute(inherit, tab, b0, first + second) == Some(b2)
  {
    ExecuteAppend(inherit, tab, b0, first, second);
  }

  lemma Reassociate(a: Body, b: Body, c: Body, d: Body)
    ensures a + (b + c) + d == a + b + (c + d) == a + b + c + d
  {
  }

  lemma InlineStylesStep(tab: string, start: nat, runs: seq<Inline.Run>)
    requires runs != []
    ensures InlineStyles(tab, start, runs)
         == InlineStyles(tab, start, [runs[0]]) + InlineStyles(tab, start + |Utf16(runs[0].text)|, runs[1..])
  {
    assert [runs[0]][1..] == [];
  }

  lemma StyleFirst(inherit: Inherit, tab: string, pre: Body, head: Body, tail: Body, post: Body, r: Inline.Run, styled: Body)
    requires |head| == |Utf16(r.text)|
    requires styled == if |head| > 0 && HasMarks(r) then Restyled(head, StyleOf(r)) else head
    ensures Execute(inherit, tab, pre + head + (tail + post), InlineStyles(tab, |pre|, [r])) == Some(pre + styled + (tail + post))
  {
    assert [r][1..] == [];
    var body := pre + head + (tail + post);
    if |head| > 0 && HasMarks(r) {
      var req := SetStyle(tab, |pre|, |pre| + |head|, StyleOf(r));
      assert InlineStyles(tab, |pre|, [r]) == [req];
      ExecuteOne(inherit, tab, body, req);
      assert body[..|pre|] == pre && body[|pre|..|pre| + |head|] == head && body[|pre| + |head|..] == tail + post;
    } else {
      assert InlineStyles(tab, |pre|, [r]) == [];
    }
  }

  lemma ShowsJoin(styled: Body, rest: Body, runs: seq<Inline.Run>)
    requires runs != [] && Codes(styled) == Utf16(runs[0].text) && Shows(rest, runs[1..])
    requires HasMarks(runs[0]) ==> forall i :: 0 <= i < |styled| ==> styled[i].style == StyleOf(runs[0])
    ensures Shows(styled + rest, runs)
  {
    var u, n := styled + rest, |Utf16(runs[0].text)|;
    assert |styled| == n && u[..n] == styled && u[n..] == rest;
  }

  lemma ShowsNothing(runs: seq<Inline.Run>)
    requires PlainText(runs) == ""
    ensures Shows([], runs)
  {
    if runs != [] {
      assert runs[0].text == "" && PlainText(runs[1..]) == "";
      ShowsNothing(runs[1..]);
      var u: Body := [];
      assert u[..0] == [] && u[0..] == [] && Codes(u) == [];
    }
  }

  lemma RangeDeleted(inherit: Inherit, tab: string, body: Body, e: Edit)
    requires e.start <= e.stop <= |body|
    ensures var dels := if e.stop > e.start then [Delete(tab, e.start, e.stop)] else [];
      Execute(inherit, tab, body, dels) == Some(body[..e.start] + body[e.stop..])
  {
    if e.stop > e.start {
      ExecuteOne(inherit, tab, body, Delete(tab, e.start, e.stop));
    } else {
      assert body == body[..e.start] + body[e.stop..];
    }
  }

  /** Running one edit's script puts units that show its runs in place of its range. */
  lemma ScriptEdits(inherit: Inherit, tab: string, body: Body, e: Edit) returns (put: Body)
    requires e.start <= e.stop <= |body|
    ensures Shows(put, e.runs)
    ensures Execute(inherit, tab, body, Script(tab, e)) == Some(body[..e.start] + put + body[e.stop..])
  {
    hide *;
    var pre, post := body[..e.start], body[e.stop..];
    var dels := if e.stop > e.start then [Delete(tab, e.start, e.stop)] else [];
    RangeDeleted(inherit, tab, body, e);
    ScriptParts(tab, e);
    if PlainText(e.runs) == "" {
      put := [];
      ShowsNothing(e.runs);
      Empty(pre);
    } else {
      var ins, styles := [Insert(tab, e.start, PlainText(e.runs))], InlineStyles(tab, e.start, e.runs);
      var u := TextInserted(inherit, tab, pre, post, PlainText(e.runs));
      put := StylesKeepText(inherit, tab, pre, u, post, e.runs);
      ExecuteAppend(inherit, tab, pre + post, ins, styles);
      ExecuteAppend(inherit, tab, body, dels, ins + styles);
    }
  }

  lemma ScriptParts(tab: string, e: Edit)
    ensures var dels := if e.stop > e.start then [Delete(tab, e.start, e.stop)] else [];
      Script(tab, e) == if PlainText(e.runs) == "" then dels
        else dels + ([Insert(tab, e.start, PlainText(e.runs))] + InlineStyles(tab, e.start, e.runs))
  {
    hide InlineStyles, PlainText;
  }

  lemma TextInserted(inherit: Inherit, tab: string, pre: Body, post: Body, text: string) returns (u: Body)
    requires text != ""
    ensures Codes(u) == Utf16(text) && Execute(inherit, tab, pre + post, [Insert(tab, |pre|, text)]) == Some(pre + u + post)
  {
    hide Utf16, Execute;
    u := Inserted(inherit, pre + post, |pre|, text);
    assert Codes(u) == Utf16(text);
    assert (pre + post)[..|pre|] == pre && (pre + post)[|pre|..] == post;
    ExecuteOne(inherit, tab, pre + post, Insert(tab, |pre|, text));
  }

  // ---------------------------------------------------------------------------------------------
  // Many edits
  // ---------------------------------------------------------------------------------------------

  /** Edits in body order, from `at` on, without overlap. */
  predicate Ascending(at: nat, es: seq<Edit>, size: nat)
    decreases |es|
  {
    if es == [] then at <= size
    else at <= es[0].start <= es[0].stop && Ascending(es[0].stop, es[1..], size)
  }

  /** after is before[at..] with each edit's range replaced by units that show its runs, and every
      other unit as it was. */
  ghost predicate Spliced(before: Body, at: nat, es: seq<Edit>, after: Body)
    requires Ascending(at, es, |before|)
    decreases |es|
  {
    AscendingBound(at, es, |before|);
    if es == [] then after == before[at..]
    else exists put: Body, rest: Body ::
      after == before[at..es[0].start] + put + rest && Shows(put, es[0].runs) &&
      Spliced(before, es[0].stop, es[1..], rest)
  }

  lemma {:induction false} AscendingBound(at: nat, es: seq<Edit>, size: nat)
    requires Ascending(at, es, size)
    ensures at <= size && (es != [] ==> es[0].start <= es[0].stop <= size)
    decreases |es|
  {
    if es != [] { AscendingBound(es[0].stop, es[1..], size); }
  }

  /** The scripts of the edits, the last edit of the body first. */
  function BackwardScript(tab: string, es: seq<Edit>): seq<Request>
    decreases |es|
  {
    if es == [] then [] else BackwardScript(tab, es[1..]) + Script(tab, es[0])
  }

  /** Running the scripts from the end of the body makes every edit, and nothing else. */
  lemma {:induction false} BackwardEdits(inherit: Inherit, tab: string, before: Body, at: nat, es: seq<Edit>)
    returns (after: Body)
    requires Ascending(at, es, |before|)
    ensures Spliced(before, at, es, after) && at <= |before|
    ensures Execute(inherit, tab, before, BackwardScript(tab, es)) == Some(before[..at] + after)
    decreases |es|
  {
    AscendingBound(at, es, |before|);
    if es == [] {
      after := before[at..];
      assert before == before[..at] + before[at..];
      assert Execute(inherit, tab, before, []) == Some(before);
    } else {
      hide Script, Execute, Shows;
      var e := es[0];
      var rest := BackwardEdits(inherit, tab, before, e.stop, es[1..]);
      var mid := before[..e.stop] + rest;
      var put := ScriptEdits(inherit, tab, mid, e);
      after := before[at..e.start] + put + rest;
      SplicePieces(before, at, e, put, rest);
      Chain(inherit, tab, before, mid, before[..at] + after, BackwardScript(tab, es[1..]), Script(tab, e));
    }
  }

  lemma SplicePieces(before: Body, at: nat, e: Edit, put: Body, rest: Body)
    requires at <= e.start <= e.stop <= |before|
    ensures var mid := before[..e.stop] + rest;
      mid[..e.start] + put + mid[e.stop..] == before[..at] + (before[at..e.start] + put + rest)
  {
    var mid := before[..e.stop] + rest;
    assert mid[..e.start] == before[..at] + before[at..e.start] && mid[e.stop..] == rest;
  }
}
