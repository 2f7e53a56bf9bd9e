/** Inline markup of a text block: the parser, the printer and the round trip between them
    (vfs/inline.go). Every delimiter is one ASCII character, so a character of the model may be
    read as a byte or as a whole code point of the Go string. */
module Inline {
  import opened Sequences

  type Marks = map<string, string>

  /** One contiguous marked slice of a block. */
  datatype Run = Run(text: string, marks: Marks)

  const BOLD := "bold"
  const ITALIC := "italic"
  const STRIKE := "strike"
  const HREF := "href"

  datatype Option<T> = None | Some(value: T)

  // ---------------------------------------------------------------------------------------------
  // The parser
  // ---------------------------------------------------------------------------------------------

  function Drop(s: string, n: nat): string {
    if n <= |s| then s[n..] else ""
  }

  function Shift(i: int, n: nat): int {
    if i < 0 then -1 else i + n
  }

  /** Offset of the first delim in s that no backslash escapes, or -1. */
  function CloseAt(s: string, delim: string): (i: int)
    requires delim != ""
    ensures i == -1 || 0 <= i <= i + |delim| <= |s|
    decreases |s|
  {
    if |s| < |delim| then -1
    else if s[0] == '\\' then Shift(CloseAt(Drop(s, 2), delim), 2)
    else if delim <= s then 0
    else Shift(CloseAt(s[1..], delim), 1)
  }

  /** Offset in s of the ']' that closes `depth` open brackets, or -1. */
  function LabelEnd(s: string, depth: nat): (i: int)
    requires depth > 0
    ensures i == -1 || (0 <= i < |s| && s[i] == ']')
  {
    if s == "" then -1
    else if s[0] == '\\' && |s| > 1 then Shift(LabelEnd(s[2..], depth), 2)
    else if s[0] == '[' then Shift(LabelEnd(s[1..], depth + 1), 1)
    else if s[0] == ']' then if depth == 1 then 0 else Shift(LabelEnd(s[1..], depth - 1), 1)
    else Shift(LabelEnd(s[1..], depth), 1)
  }

  function IndexChar(s: string, c: char): (i: int)
    ensures i == -1 || (0 <= i < |s| && s[i] == c)
    ensures forall j :: 0 <= j < (if i < 0 then |s| else i) ==> s[j] != c
  {
    if s == "" then -1 else if s[0] == c then 0 else Shift(IndexChar(s[1..], c), 1)
  }

  /** A span that opens at the start of a text: what is inside, the mark it adds, and its length. */
  datatype Span = Span(inner: string, key: string, value: string, length: nat)

  function Emphasis(s: string, delim: string, key: string): (r: Option<Span>)
    requires delim != ""
    ensures r.Some? ==> |r.value.inner| < |s| && 0 < r.value.length <= |s|
  {
    if !(delim <= s) then None
    else
      var end := CloseAt(s[|delim|..], delim);
      if end < 0 then None else Some(Enclosed(s, |delim|, end, key))
  }

  /** The span of `length` characters between delimiters of n each. */
  function Enclosed(s: string, n: nat, length: nat, key: string): Span
    requires n + length <= |s|
  {
    Span(s[n..n + length], key, "true", length + 2 * n)
  }

  /** A [label](href) link at the start of s. */
  function Link(s: string): (r: Option<Span>)
    ensures r.Some? ==> |r.value.inner| < |s| && 0 < r.value.length <= |s|
  {
    if s == "" || s[0] != '[' then None
    else
      var p := Shift(LabelEnd(s[1..], 1), 1);
      if p < 0 || p + 1 >= |s| || s[p + 1] != '(' then None
      else
        var k := IndexChar(s[p + 2..], ')');
        if k < 0 then None else Some(Span(s[1..p], HREF, s[p + 2..p + 2 + k], p + 3 + k))
  }

  /** The span that opens at the start of s, in the order the parser tries them. */
  function Opening(s: string): (r: Option<Span>)
    ensures r.Some? ==> |r.value.inner| < |s| && 0 < r.value.length <= |s|
  {
    var bold := Emphasis(s, "**", BOLD);
    var strike := Emphasis(s, "~~", STRIKE);
    var link := Link(s);
    var under := Emphasis(s, "_", ITALIC);
    if bold.Some? then bold
    else if strike.Some? then strike
    else if link.Some? then link
    else if under.Some? then under
    else if "**" <= s then None
    else Emphasis(s, "*", ITALIC)
  }

  function Flush(lit: string, base: Marks): seq<Run> {
    if lit == "" then [] else [Run(lit, base)]
  }

  /** The runs of s inside the marks base, after the literal text lit. */
  function Parse(s: string, lit: string, base: Marks): seq<Run>
    decreases |s|
  {
    if s == "" then Flush(lit, base)
    else if s[0] == '\\' && |s| > 1 then Parse(s[2..], lit + [s[1]], base)
    else
      match Opening(s)
      case Some(o) =>
        Flush(lit, base) + Parse(o.inner, "", base[o.key := o.value]) + Parse(s[o.length..], "", base)
      case None => Parse(s[1..], lit + [s[0]], base)
  }

  function Get(m: Marks, key: string): string {
    if key in m then m[key] else ""
  }

  /** Equality of marks as the source tests it: a missing key reads as the empty string. */
  predicate MarksEqual(a: Marks, b: Marks) {
    |a| == |b| && forall k :: k in a ==> Get(b, k) == a[k]
  }

  function Push(out: seq<Run>, r: Run): seq<Run> {
    if r.text == "" then out
    else if out != [] && MarksEqual(out[|out| - 1].marks, r.marks) then
      var last := out[|out| - 1];
      out[..|out| - 1] + [Run(last.text + r.text, last.marks)]
    else out + [r]
  }

  function MergeOnto(out: seq<Run>, rs: seq<Run>): seq<Run>
    decreases |rs|
  {
    if rs == [] then out else MergeOnto(Push(out, rs[0]), rs[1..])
  }

  function Merge(rs: seq<Run>): seq<Run> {
    MergeOnto([], rs)
  }

  /** ParseInline as a function of the text. */
  function Parsed(s: string): seq<Run> {
    Merge(Parse(s, "", map[]))
  }

  // ---------------------------------------------------------------------------------------------
  // The printer
  // ---------------------------------------------------------------------------------------------

  predicate Special(c: char) {
    c in "\\*_~[]"
  }

  function Escape(s: string): string {
    if s == "" then "" else (if Special(s[0]) then ['\\', s[0]] else [s[0]]) + Escape(s[1..])
  }

  function EscapeParens(s: string): string {
    if s == "" then "" else (if s[0] == ')' then "\\)" else [s[0]]) + EscapeParens(s[1..])
  }

  function Wrap(on: bool, delim: string, inner: string): string {
    if on then delim + inner + delim else inner
  }

  function Emphasized(r: Run): string {
    Wrap(Get(r.marks, STRIKE) == "true", "~~",
         Wrap(Get(r.marks, BOLD) == "true", "**",
              Wrap(Get(r.marks, ITALIC) == "true", "_", Escape(r.text))))
  }

  function FormatRun(r: Run): string {
    var href := Get(r.marks, HREF);
    if href == "" then Emphasized(r) else "[" + Emphasized(r) + "](" + EscapeParens(href) + ")"
  }

  /** FormatInline as a function of the runs. */
  function Format(rs: seq<Run>): string {
    if rs == [] then "" else FormatRun(rs[0]) + Format(rs[1..])
  }

  function PlainText(rs: seq<Run>): string {
    if rs == [] then "" else rs[0].text + PlainText(rs[1..])
  }

  // ---------------------------------------------------------------------------------------------
  // The loops of the source, proved against the functions above
  // ---------------------------------------------------------------------------------------------

  /** One step of the search: what CloseAt does at position i of the whole text. */
  lemma CloseAtStep(s: string, i: nat, delim: string)
    requires delim != "" && i + |delim| <= |s|
    ensures CloseAt(Drop(s, i), delim)
         == if s[i] == '\\' then Shift(CloseAt(Drop(s, i + 2), delim), 2)
            else if s[i..i + |delim|] == delim then 0
            else Shift(CloseAt(Drop(s, i + 1), delim), 1)
  {
    var t := s[i..];
    assert Drop(t, 2) == Drop(s, i + 2) && t[1..] == Drop(s, i + 1);
    assert t[..|delim|] == s[i..i + |delim|];
  }

  method IndexClose(s: string, from: nat, delim: string) returns (i: int)
    requires from <= |s| && delim != ""
    ensures i == Shift(CloseAt(s[from..], delim), from)
  {
    hide CloseAt, Drop;
    i := from;
    DropAt(s, from);
    while i + |delim| <= |s|
      invariant from <= i
      invariant Shift(CloseAt(s[from..], delim), from) == Shift(CloseAt(Drop(s, i), delim), i)
    {
      CloseAtStep(s, i, delim);
      if s[i] == '\\' {
        i := i + 2;
      } else if s[i..i + |delim|] == delim {
        return;
      } else {
        i := i + 1;
      }
    }
    CloseAtEnd(s, i, delim);
    i := -1;
  }

  lemma DropAt(s: string, i: nat)
    requires i <= |s|
    ensures Drop(s, i) == s[i..]
  {
  }

  lemma CloseAtEnd(s: string, i: nat, delim: string)
    requires delim != "" && i + |delim| > |s|
    ensures CloseAt(Drop(s, i), delim) == -1
  {
  }

  /** One step of the search for a label's end. */
  lemma LabelStep(s: string, j: nat, depth: nat)
    requires j < |s| && depth > 0
    ensures LabelEnd(s[j..], depth) ==
            if s[j] == '\\' && j + 1 < |s| then Shift(LabelEnd(s[j + 2..], depth), 2)
            else if s[j] == '[' then Shift(LabelEnd(s[j + 1..], depth + 1), 1)
            else if s[j] == ']' then (if depth == 1 then 0 else Shift(LabelEnd(s[j + 1..], depth - 1), 1))
            else Shift(LabelEnd(s[j + 1..], depth), 1)
  {
    assert s[j..][1..] == s[j + 1..];
    if j + 1 < |s| { assert s[j..][2..] == s[j + 2..]; }
  }

  lemma LabelNone(s: string, depth: nat)
    requires depth > 0
    ensures LabelEnd(s[|s|..], depth) == -1
  {
  }

  method LabelClose(s: string, from: nat) returns (j: int)
    requires from <= |s|
    ensures j == Shift(LabelEnd(s[from..], 1), from)
  {
    hide LabelEnd;
    var depth: nat := 1;
    j := from;
    while j < |s|
      invariant from <= j <= |s| && depth > 0
      invariant LabelEnd(s[from..], 1) == Shift(LabelEnd(s[j..], depth), j - from)
    {
      LabelStep(s, j, depth);
      if s[j] == '\\' && j + 1 < |s| {
        j := j + 2;
      } else {
        if s[j] == '[' {
          depth := depth + 1;
        } else if s[j] == ']' {
          depth := depth - 1;
          if depth == 0 {
            return;
          }
        }
        j := j + 1;
      }
    }
    LabelNone(s, depth);
    j := -1;
  }

  method ParseLink(s: string, i: nat) returns (r: Option<Span>)
    requires i < |s| && s[i] == '['
    ensures r == Link(s[i..])
  {
    hide LabelEnd, IndexChar, Link;
    ghost var t := s[i..];
    assert t[1..] == s[i + 1..];
    var j := LabelClose(s, i + 1);
    ghost var p := if j < 0 then -1 else j - i;
    if j < 0 || j + 1 >= |s| || s[j + 1] != '(' {
      NoTarget(t, p);
      return None;
    }
    assert t[p + 2..] == s[j + 2..];
    var k := IndexChar(s[j + 2..], ')');
    LinkIs(t, p, k);
    if k < 0 {
      return None;
    }
    assert t[1..p] == s[i + 1..j];
    assert t[p + 2..p + 2 + k] == s[j + 2..j + 2 + k];
    r := Some(Span(s[i + 1..j], HREF, s[j + 2..j + 2 + k], j - i + 3 + k));
  }

  lemma NoTarget(t: string, p: int)
    requires t != "" && p == Shift(LabelEnd(t[1..], 1), 1) && (p < 0 || p + 1 >= |t| || t[p + 1] != '(')
    ensures Link(t) == None
  {
    hide LabelEnd, IndexChar;
  }

  lemma LinkIs(t: string, p: nat, k: int)
    requires t != "" && t[0] == '[' && p == Shift(LabelEnd(t[1..], 1), 1) && p + 1 < |t| && t[p + 1] == '('
    requires k == IndexChar(t[p + 2..], ')')
    ensures 0 < p && Link(t) == if k < 0 then None else Some(Span(t[1..p], HREF, t[p + 2..p + 2 + k], p + 3 + k))
  {
    hide LabelEnd, IndexChar;
  }

  lemma EmphasisIs(s: string, delim: string, key: string)
    requires delim != "" && delim <= s && CloseAt(s[|delim|..], delim) >= 0
    ensures var end := CloseAt(s[|delim|..], delim);
      Emphasis(s, delim, key) == Some(Enclosed(s, |delim|, end, key))
  {
    hide CloseAt, Enclosed;
  }

  lemma EmphasisOpen(s: string, delim: string, key: string)
    requires delim != "" && (delim <= s ==> CloseAt(s[|delim|..], delim) < 0)
    ensures Emphasis(s, delim, key) == None
  {
    hide CloseAt;
  }

  lemma PrefixAt(s: string, i: nat, delim: string)
    requires i <= |s|
    ensures delim <= s[i..] <==> i + |delim| <= |s| && s[i..i + |delim|] == delim
    ensures delim <= s[i..] ==> s[i..][|delim|..] == s[i + |delim|..]
  {
    if delim <= s[i..] { assert s[i..i + |delim|] == s[i..][..|delim|]; }
    if i + |delim| <= |s| && s[i..i + |delim|] == delim { assert s[i..][..|delim|] == s[i..i + |delim|]; }
  }

  /** One delimiter of the parser's scan: the span of delim at s[i], when it closes. */
  method TryEmphasis(s: string, i: nat, delim: string, key: string) returns (r: Option<Span>)
    requires i < |s| && delim != ""
    ensures r == Emphasis(s[i..], delim, key)
  {
    hide Emphasis, CloseAt;
    PrefixAt(s, i, delim);
    if i + |delim| > |s| || s[i..i + |delim|] != delim {
      EmphasisOpen(s[i..], delim, key);
      return None;
    }
    var end := IndexClose(s, i + |delim|, delim);
    if end < 0 {
      EmphasisOpen(s[i..], delim, key);
      return None;
    }
    EmphasisIs(s[i..], delim, key);
    assert s[i..][|delim|..end - i] == s[i + |delim|..end];
    return Some(Span(s[i + |delim|..end], key, "true", end + |delim| - i));
  }

  /** The delimiters the scan tries at s[i], in order. */
  method SpanAt(s: string, i: nat) returns (o: Option<Span>)
    requires i < |s|
    ensures o == Opening(s[i..])
  {
    o := TryEmphasis(s, i, "**", BOLD);
    if o.Some? { return; }
    o := TryEmphasis(s, i, "~~", STRIKE);
    if o.Some? { return; }
    if s[i] == '[' {
      o := ParseLink(s, i);
      if o.Some? { return; }
    }
    o := TryEmphasis(s, i, "_", ITALIC);
    if o.Some? { return; }
    if !("**" <= s[i..]) {
      o := TryEmphasis(s, i, "*", ITALIC);
    }
  }

  lemma ParseStep(s: string, i: nat, lit: string, base: Marks)
    requires i < |s|
    ensures s[i] == '\\' && i + 1 < |s| ==> Parse(s[i..], lit, base) == Parse(s[i + 2..], lit + [s[i + 1]], base)
    ensures !(s[i] == '\\' && i + 1 < |s|) && Opening(s[i..]).None? ==> Parse(s[i..], lit, base) == Parse(s[i + 1..], lit + [s[i]], base)
  {
    hide Opening;
    Suffix(s, i);
    if i + 1 < |s| { Suffix(s[i..], 1); Suffix(s, i + 1); }
  }

  lemma ParseSpan(s: string, i: nat, lit: string, base: Marks, out: seq<Run>, o: Span)
    requires i < |s| && !(s[i] == '\\' && i + 1 < |s|) && Opening(s[i..]) == Some(o)
    ensures out + Parse(s[i..], lit, base)
         == (out + Flush(lit, base) + Parse(o.inner, "", base[o.key := o.value])) + Parse(s[i + o.length..], "", base)
  {
    hide Opening, Flush;
    var flush, inner, rest := Flush(lit, base), Parse(o.inner, "", base[o.key := o.value]), Parse(s[i + o.length..], "", base);
    assert s[i..][o.length..] == s[i + o.length..];
    assert Parse(s[i..], lit, base) == flush + inner + rest;
    Assoc(out, flush + inner, rest);
    Assoc(out, flush, inner);
  }

  lemma ParseEnd(s: string, lit: string, base: Marks)
    ensures Parse(s[|s|..], lit, base) == Flush(lit, base)
  {
    hide Opening, Flush;
  }

  method ParseRuns(s: string, base: Marks) returns (out: seq<Run>)
    ensures out == Parse(s, "", base)
    decreases |s|
  {
    hide Opening, Parse, Flush;
    out := [];
    var lit := "";
    var i := 0;
    Empty(Parse(s, "", base));
    assert s[0..] == s;
    while i < |s|
      invariant 0 <= i <= |s|
      invariant Parse(s, "", base) == out + Parse(s[i..], lit, base)
    {
      ParseStep(s, i, lit, base);
      if s[i] == '\\' && i + 1 < |s| {
        lit := lit + [s[i + 1]];
        i := i + 2;
      } else {
        var o := SpanAt(s, i);
        if o.Some? {
          var inner := ParseRuns(o.value.inner, base[o.value.key := o.value.value]);
          ParseSpan(s, i, lit, base, out, o.value);
          out := out + Flush(lit, base) + inner;
          lit := "";
          i := i + o.value.length;
        } else {
          lit := lit + [s[i]];
          i := i + 1;
        }
      }
    }
    ParseEnd(s, lit, base);
    out := out + Flush(lit, base);
  }

  method MergeRuns(rs: seq<Run>) returns (out: seq<Run>)
    ensures out == Merge(rs)
  {
    out := [];
    for i := 0 to |rs|
      invariant Merge(rs) == MergeOnto(out, rs[i..])
    {
      assert rs[i..][1..] == rs[i + 1..];
      var r := rs[i];
      if r.text != "" {
        var n := |out|;
        if n > 0 && MarksEqual(out[n - 1].marks, r.marks) {
          ghost var was := out;
          out := out[n - 1 := Run(out[n - 1].text + r.text, out[n - 1].marks)];
          assert out == Push(was, r);
        } else {
          out := out + [r];
        }
      }
    }
  }

  method ParseInline(s: string) returns (rs: seq<Run>)
    ensures rs == Parsed(s)
  {
    if s == "" {
      return [];
    }
    var runs := ParseRuns(s, map[]);
    rs := MergeRuns(runs);
  }

  method EscapeInline(s: string) returns (b: string)
    ensures b == Escape(s)
  {
    hide Escape, Special;
    b := "";
    EscapeEnds(s);
    for i := 0 to |s|
      invariant Escape(s) == b + Escape(s[i..])
    {
      EscapeStep(s, i, b);
      if Special(s[i]) {
        b := b + "\\";
      }
      b := b + [s[i]];
    }
    Empty(b);
  }

  lemma EscapeStep(s: string, i: nat, b: string)
    requires i < |s|
    ensures b + Escape(s[i..]) == (if Special(s[i]) then b + "\\" + [s[i]] else b + [s[i]]) + Escape(s[i + 1..])
  {
    hide Special;
    Suffix(s, i);
    var one := if Special(s[i]) then ['\\', s[i]] else [s[i]];
    Assoc(b, one, Escape(s[i + 1..]));
    assert b + "\\" + [s[i]] == b + ['\\', s[i]];
  }

  lemma EscapeEnds(s: string)
    ensures Escape(s) == "" + Escape(s[0..]) && Escape(s[|s|..]) == ""
  {
    hide Special;
    assert s[0..] == s;
  }

  method FormatRunText(r: Run) returns (inner: string)
    ensures inner == FormatRun(r)
  {
    inner := EscapeInline(r.text);
    if Get(r.marks, ITALIC) == "true" { inner := "_" + inner + "_"; }
    if Get(r.marks, BOLD) == "true" { inner := "**" + inner + "**"; }
    if Get(r.marks, STRIKE) == "true" { inner := "~~" + inner + "~~"; }
    var href := Get(r.marks, HREF);
    if href != "" { inner := "[" + inner + "](" + EscapeParens(href) + ")"; }
  }

  method FormatInline(rs: seq<Run>) returns (b: string)
    ensures b == Format(rs)
  {
    hide *;
    b := "";
    FormatEnds(rs);
    for i := 0 to |rs|
      invariant Format(rs) == b + Format(rs[i..])
    {
      FormatStep(rs, i, b);
      var run := FormatRunText(rs[i]);
      b := b + run;
    }
    Empty(b);
  }

  lemma FormatStep(rs: seq<Run>, i: nat, b: string)
    requires i < |rs|
    ensures b + Format(rs[i..]) == b + FormatRun(rs[i]) + Format(rs[i + 1..])
  {
    hide FormatRun;
    Suffix(rs, i);
    Assoc(b, FormatRun(rs[i]), Format(rs[i + 1..]));
  }

  lemma FormatEnds(rs: seq<Run>)
    ensures Format(rs) == "" + Format(rs[0..]) && Format(rs[|rs|..]) == ""
  {
    hide FormatRun;
    assert rs[0..] == rs;
  }

  // ---------------------------------------------------------------------------------------------
  // What is printed
  // ---------------------------------------------------------------------------------------------

  /** What a character is printed as: with a backslash when it could open or close something. */
  function Printed(c: char): string {
    if c == '\\' || c == '*' || c == '_' || c == '~' || c == '[' || c == ']' then ['\\', c] else [c]
  }

  /** And in a target, when it is a closing parenthesis. */
  function PrintedInTarget(c: char): string {
    if c == ')' then ['\\', c] else [c]
  }

  lemma EscapeFirst(s: string)
    ensures Escape("") == "" && (s != "" ==> Escape(s) == Printed(s[0]) + Escape(s[1..]))
    ensures EscapeParens("") == "" && (s != "" ==> EscapeParens(s) == PrintedInTarget(s[0]) + EscapeParens(s[1..]))
  {
  }

  /** A text and a target are printed character by character. */
  lemma {:induction false} EscapesLast(s: string, c: char)
    ensures Escape(s + [c]) == Escape(s) + Printed(c)
    ensures EscapeParens(s + [c]) == EscapeParens(s) + PrintedInTarget(c)
  {
    hide *;
    EscapeFirst(s + [c]);
    EscapeFirst(s);
    Empty(Printed(c));
    Empty(PrintedInTarget(c));
    if s == "" {
      assert s + [c] == [c] && [c][1..] == "";
    } else {
      Uncons(s, [c]);
      EscapesLast(s[1..], c);
      Assoc(Printed(s[0]), Escape(s[1..]), Printed(c));
      Assoc(PrintedInTarget(s[0]), EscapeParens(s[1..]), PrintedInTarget(c));
    }
  }

  predicate IsOn(m: Marks, mark: string) {
    mark in m && m[mark] == "true"
  }

  function LinkOf(m: Marks): string {
    if "href" in m then m["href"] else ""
  }

  /** From the inside out: italic, bold, struck, linked. */
  lemma PrintsAs(r: Run)
    ensures var m := r.marks;
      var em, strong, struck := if IsOn(m, "italic") then "_" else "", if IsOn(m, "bold") then "**" else "",
                                if IsOn(m, "strike") then "~~" else "";
      var inner := struck + strong + em + Escape(r.text) + em + strong + struck;
      FormatRun(r) == if LinkOf(m) != "" then "[" + inner + "](" + EscapeParens(LinkOf(m)) + ")" else inner
  {
    hide Escape, EscapeParens;
    var m, t := r.marks, Escape(r.text);
    var em, strong, struck := if IsOn(m, "italic") then "_" else "", if IsOn(m, "bold") then "**" else "",
                              if IsOn(m, "strike") then "~~" else "";
    Around(IsOn(m, "italic"), "_", t);
    Around(IsOn(m, "bold"), "**", em + t + em);
    Around(IsOn(m, "strike"), "~~", strong + (em + t + em) + strong);
    Nest(struck, strong, em, t);
  }

  lemma Around(on: bool, delim: string, inner: string)
    ensures var d := if on then delim else ""; Wrap(on, delim, inner) == d + inner + d
  {
    assert "" + inner + "" == inner;
  }

  lemma Nest(a: string, b: string, c: string, t: string)
    ensures a + (b + (c + t + c) + b) + a == a + b + c + t + c + b + a
  {
  }
}
