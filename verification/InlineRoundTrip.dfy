/** What the inline markup promises (vfs/inline.go): the parser undoes the printer, the plain text
    is the runs' text, and printing after parsing is idempotent, with the exact conditions. */
module InlineRoundTrip {
  import opened Inline
  import opened Sequences

  // ---------------------------------------------------------------------------------------------
  // What a run list says: one marked character after another
  // ---------------------------------------------------------------------------------------------

  datatype Marked = Marked(c: char, marks: Marks)

  function Flat(text: string, marks: Marks): (f: seq<Marked>)
    ensures |f| == |text|
    ensures forall i :: 0 <= i < |f| ==> f[i] == Marked(text[i], marks)
  {
    seq(|text|, i requires 0 <= i < |text| => Marked(text[i], marks))
  }

  function Flatten(rs: seq<Run>): seq<Marked> {
    if rs == [] then [] else Flat(rs[0].text, rs[0].marks) + Flatten(rs[1..])
  }

  lemma {:induction false} FlattenAppend(a: seq<Run>, b: seq<Run>)
    ensures Flatten(a + b) == Flatten(a) + Flatten(b)
  {
    if a == [] {
      Empty(b);
    } else {
      Uncons(a, b);
      FlattenAppend(a[1..], b);
      Assoc(Flat(a[0].text, a[0].marks), Flatten(a[1..]), Flatten(b));
    }
  }

  lemma FlatAppend(x: string, y: string, m: Marks)
    ensures Flat(x + y, m) == Flat(x, m) + Flat(y, m)
  {
  }

  // ---------------------------------------------------------------------------------------------
  // The closing delimiter is found where the printer wrote it
  // ---------------------------------------------------------------------------------------------

  /** Every c in s follows a backslash, and every backslash escapes a character. */
  predicate Clean(s: string, c: char) {
    s == "" ||
    if s[0] == '\\' then |s| > 1 && Clean(s[2..], c) else s[0] != c && Clean(s[1..], c)
  }

  lemma {:induction false} CleanAppend(a: string, b: string, c: char)
    requires Clean(a, c) && Clean(b, c)
    ensures Clean(a + b, c)
    decreases |a|
  {
    if a == "" {
      Empty(b);
    } else {
      var n := if a[0] == '\\' then 2 else 1;
      assert (a + b)[n..] == a[n..] + b;
      CleanAppend(a[n..], b, c);
    }
  }

  lemma {:induction false} EscapeClean(x: string, c: char)
    requires Special(c)
    ensures Clean(Escape(x), c)
  {
    if x != "" {
      EscapeClean(x[1..], c);
      var n := if Special(x[0]) then 2 else 1;
      assert Escape(x)[n..] == Escape(x[1..]);
    }
  }

  lemma {:induction false} CloseAtClean(inner: string, delim: string, t: string)
    requires delim != "" && delim[0] != '\\' && Clean(inner, delim[0])
    ensures CloseAt(inner + delim + t, delim) == |inner|
    decreases |inner|
  {
    var s := inner + delim + t;
    if inner == "" {
      assert s == delim + t;
    } else {
      var n := if inner[0] == '\\' then 2 else 1;
      assert Drop(s, n) == inner[n..] + delim + t;
      CloseAtClean(inner[n..], delim, t);
    }
  }

  lemma {:induction false} LabelEndClean(inner: string, t: string)
    requires Clean(inner, '[') && Clean(inner, ']')
    ensures LabelEnd(inner + "]" + t, 1) == |inner|
    decreases |inner|
  {
    var s := inner + "]" + t;
    if inner == "" {
      assert s == "]" + t;
    } else {
      var n := if inner[0] == '\\' then 2 else 1;
      assert s[n..] == inner[n..] + "]" + t;
      LabelEndClean(inner[n..], t);
    }
  }

  lemma EmphasisNone(s: string, delim: string, key: string)
    requires delim != "" && (s == "" || s[0] != delim[0])
    ensures Emphasis(s, delim, key) == None
  {
    hide CloseAt;
  }

  /** Which delimiter the parser tries depends on the first character alone. */
  lemma OpeningByHead(s: string)
    requires s != ""
    ensures s[0] != '*' && s[0] != '~' && s[0] != '[' && s[0] != '_' ==> Opening(s) == None
    ensures s[0] == '*' && Emphasis(s, "**", BOLD).Some? ==> Opening(s) == Emphasis(s, "**", BOLD)
    ensures s[0] == '~' ==> Opening(s) == Emphasis(s, "~~", STRIKE)
    ensures s[0] == '[' ==> Opening(s) == Link(s)
    ensures s[0] == '_' ==> Opening(s) == Emphasis(s, "_", ITALIC)
  {
    if s[0] != '*' { EmphasisNone(s, "**", BOLD); EmphasisNone(s, "*", ITALIC); }
    if s[0] != '~' { EmphasisNone(s, "~~", STRIKE); }
    if s[0] != '_' { EmphasisNone(s, "_", ITALIC); }
    hide Emphasis, LabelEnd, IndexChar;
  }

  lemma Slices(a: string, b: string, c: string, t: string)
    ensures var s := a + b + c + t; a <= s && s[|a|..] == b + c + t
    ensures (a + b + c + t)[|a|..|a| + |b|] == b
    ensures (a + b + c + t)[|a| + |b|..] == c + t
    ensures (a + b + c + t)[|a| + |b| + |c|..] == t
  {
  }

  /** The span the parser finds at a delimiter the printer wrote. */
  lemma EmphasisClean(inner: string, delim: string, key: string, t: string)
    requires delim != "" && delim[0] != '\\' && Clean(inner, delim[0])
    ensures Emphasis(delim + inner + delim + t, delim, key)
         == Some(Span(inner, key, "true", |inner| + 2 * |delim|))
  {
    hide *;
    var s := delim + inner + delim + t;
    Slices(delim, inner, delim, t);
    CloseAtClean(inner, delim, t);
    EmphasisAt(s, delim, key, inner);
  }

  lemma EmphasisAt(s: string, delim: string, key: string, inner: string)
    requires delim != "" && delim <= s && CloseAt(s[|delim|..], delim) == |inner|
    requires |delim| + |inner| <= |s| && s[|delim|..|delim| + |inner|] == inner
    ensures Emphasis(s, delim, key) == Some(Span(inner, key, "true", |inner| + 2 * |delim|))
  {
    hide Emphasis, CloseAt;
    EmphasisIs(s, delim, key);
  }

  lemma LinkAt(s: string, p: nat, href: string)
    requires 0 < p && p + 2 + |href| < |s| && s[0] == '[' && s[p + 1] == '('
    requires LabelEnd(s[1..], 1) == p - 1 && IndexChar(s[p + 2..], ')') == |href|
    requires s[p + 2..p + 2 + |href|] == href
    ensures Link(s) == Some(Span(s[1..p], HREF, href, p + 3 + |href|))
  {
    hide Link, LabelEnd, IndexChar;
    LinkIs(s, p, |href|);
  }

  lemma Reassociate(a: string, b: string, c: string, d: string)
    ensures a + b + c + d == a + (b + c + d)
  {
  }

  lemma LinkShape(inner: string, u: string)
    ensures var s := "[" + inner + "](" + u; |s| == |inner| + |u| + 3 && s[0] == '['
    ensures ("[" + inner + "](" + u)[1..] == inner + "]" + ("(" + u)
    ensures ("[" + inner + "](" + u)[1..|inner| + 1] == inner
    ensures ("[" + inner + "](" + u)[|inner| + 2] == '('
    ensures ("[" + inner + "](" + u)[|inner| + 3..] == u
  {
  }

  lemma LinkBefore(inner: string, u: string, href: string)
    requires Clean(inner, '[') && Clean(inner, ']') && href < u && IndexChar(u, ')') == |href|
    ensures Link("[" + inner + "](" + u) == Some(Span(inner, HREF, href, |inner| + |href| + 4))
  {
    hide *;
    var s := "[" + inner + "](" + u;
    LinkShape(inner, u);
    LabelEndClean(inner, "(" + u);
    SliceOfSuffix(s, |inner| + 3, |href|);
    LinkAt(s, |inner| + 1, href);
  }

  lemma SliceOfSuffix(s: string, i: nat, n: nat)
    requires i + n <= |s|
    ensures s[i..i + n] == s[i..][..n]
  {
  }

  lemma LinkClean(inner: string, href: string, t: string)
    requires Clean(inner, '[') && Clean(inner, ']') && ')' !in href
    ensures Link("[" + inner + "](" + href + ")" + t) == Some(Span(inner, HREF, href, |inner| + |href| + 4))
  {
    hide *;
    IndexCharAt(href, t);
    Reassociate("[" + inner + "](", href, ")", t);
    LinkBefore(inner, href + ")" + t, href);
  }

  lemma IndexCharAt(href: string, t: string)
    requires ')' !in href
    ensures IndexChar(href + ")" + t, ')') == |href| && href < href + ")" + t
  {
    var u := href + ")" + t;
    assert forall j :: 0 <= j < |href| ==> u[j] == href[j];
    assert u[|href|] == ')';
  }

  // ---------------------------------------------------------------------------------------------
  // Parsing one printed run
  // ---------------------------------------------------------------------------------------------

  /** The parser takes a character that opens nothing, or one that a backslash escapes, as text. */
  lemma ParseChar(s: string, c: char, t: string, lit: string, base: Marks)
    requires s == (if Special(c) then ['\\', c] else [c]) + t
    ensures Parse(s, lit, base) == Parse(t, lit + [c], base)
  {
    OpeningByHead(s);
    hide Opening;
    if Special(c) {
      assert s[2..] == t && s[1] == c;
    } else {
      assert s[1..] == t && s[0] == c;
    }
  }

  lemma {:induction false} ParseEscaped(x: string, t: string, lit: string, base: Marks)
    ensures Parse(Escape(x) + t, lit, base) == Parse(t, lit + x, base)
    decreases |x|
  {
    hide Parse;
    if x == "" {
      assert Escape(x) + t == t && lit + x == lit;
    } else {
      var head := if Special(x[0]) then ['\\', x[0]] else [x[0]];
      assert Escape(x) + t == head + (Escape(x[1..]) + t);
      ParseChar(Escape(x) + t, x[0], Escape(x[1..]) + t, lit, base);
      assert lit + x == (lit + [x[0]]) + x[1..];
      ParseEscaped(x[1..], t, lit + [x[0]], base);
    }
  }

  lemma ParseOpening(s: string, lit: string, base: Marks, o: Span, t: string)
    requires s != "" && s[0] != '\\' && Opening(s) == Some(o) && s[o.length..] == t
    ensures Parse(s, lit, base) == Flush(lit, base) + Parse(o.inner, "", base[o.key := o.value]) + Parse(t, "", base)
  {
    hide Opening;
  }

  lemma ParseEmpty(lit: string, base: Marks)
    ensures Parse("", lit, base) == Flush(lit, base)
  {
  }

  /** A delimited span parses to its inner text under the mark, wherever it stands. */
  lemma ParseWrapped(inner: string, delim: string, key: string, t: string, lit: string, base: Marks)
    requires (delim == "**" && key == BOLD) || (delim == "~~" && key == STRIKE) || (delim == "_" && key == ITALIC)
    requires Clean(inner, delim[0])
    ensures Parse(delim + inner + delim + t, lit, base)
         == Flush(lit, base) + Parse(inner, "", base[key := "true"]) + Parse(t, "", base)
  {
    hide Parse, Opening, Emphasis, Clean;
    var s := delim + inner + delim + t;
    EmphasisClean(inner, delim, key, t);
    assert s[0] == delim[0];
    OpeningByHead(s);
    assert s[|inner| + 2 * |delim|..] == t;
    ParseOpening(s, lit, base, Span(inner, key, "true", |inner| + 2 * |delim|), t);
  }

  /** The printer writes italic with underscores; a single star reads the same. */
  lemma ParseStarred(inner: string, t: string, lit: string, base: Marks)
    requires Clean(inner, '*') && inner != "" && inner[0] != '*'
    ensures Parse("*" + inner + "*" + t, lit, base)
         == Flush(lit, base) + Parse(inner, "", base[ITALIC := "true"]) + Parse(t, "", base)
  {
    hide Parse, Opening, Emphasis, Clean;
    var s := "*" + inner + "*" + t;
    EmphasisClean(inner, "*", ITALIC, t);
    StarOpens(s);
    assert s[|inner| + 2..] == t;
    ParseOpening(s, lit, base, Span(inner, ITALIC, "true", |inner| + 2), t);
  }

  lemma StarOpens(s: string)
    requires |s| > 1 && s[0] == '*' && s[1] != '*'
    ensures Opening(s) == Emphasis(s, "*", ITALIC)
  {
    hide CloseAt;
    EmphasisNone(s, "~~", STRIKE);
    EmphasisNone(s, "_", ITALIC);
    assert !("**" <= s);
  }

  lemma ParseLinked(inner: string, href: string, t: string, lit: string, base: Marks)
    requires Clean(inner, '[') && Clean(inner, ']') && ')' !in href
    ensures Parse("[" + inner + "](" + href + ")" + t, lit, base)
         == Flush(lit, base) + Parse(inner, "", base[HREF := href]) + Parse(t, "", base)
  {
    hide Parse, Opening, Link, Clean;
    var s := "[" + inner + "](" + href + ")" + t;
    LinkClean(inner, href, t);
    OpeningByHead(s);
    assert s[|inner| + |href| + 4..] == t;
    ParseOpening(s, lit, base, Span(inner, HREF, href, |inner| + |href| + 4), t);
  }

  // ---------------------------------------------------------------------------------------------
  // Parsing a whole printed run list
  // ---------------------------------------------------------------------------------------------

  function Mark(on: bool, base: Marks, key: string, value: string): Marks {
    if on then base[key := value] else base
  }

  /** The marks of m that the printer writes, on top of base. */
  function Emphases(base: Marks, m: Marks): Marks {
    Mark(Get(m, ITALIC) == "true",
         Mark(Get(m, BOLD) == "true",
              Mark(Get(m, STRIKE) == "true", base, STRIKE, "true"), BOLD, "true"), ITALIC, "true")
  }

  function Effective(m: Marks): Marks {
    Emphases(Mark(Get(m, HREF) != "", map[], HREF, Get(m, HREF)), m)
  }

  function EffectiveRuns(rs: seq<Run>): seq<Run> {
    seq(|rs|, i requires 0 <= i < |rs| => Run(rs[i].text, Effective(rs[i].marks)))
  }

  lemma FlattenSpan(lit: string, base: Marks, inner: seq<Run>, rest: seq<Run>)
    ensures Flatten(Flush(lit, base) + inner + rest) == Flat(lit, base) + Flatten(inner + rest)
  {
    FlattenAppend(Flush(lit, base), inner + rest);
    assert Flush(lit, base) + inner + rest == Flush(lit, base) + (inner + rest);
  }

  lemma FlattenFlush(lit: string, base: Marks)
    ensures Flatten(Flush(lit, base)) == Flat(lit, base)
  {
  }

  /** Text that the parser has read goes in front of the rest, under the same marks. */
  lemma {:induction false} ParseLit(s: string, lit: string, base: Marks)
    ensures Flatten(Parse(s, lit, base)) == Flat(lit, base) + Flatten(Parse(s, "", base))
    decreases |s|
  {
    hide Opening, Flatten;
    if s == "" {
      FlattenFlush(lit, base);
      FlattenFlush("", base);
    } else if s[0] == '\\' && |s| > 1 {
      ParseLit(s[2..], lit + [s[1]], base);
      ParseLit(s[2..], "" + [s[1]], base);
      FlatAppend(lit, [s[1]], base);
    } else if Opening(s).Some? {
      var o := Opening(s).value;
      var inner, rest := Parse(o.inner, "", base[o.key := o.value]), Parse(s[o.length..], "", base);
      FlattenSpan(lit, base, inner, rest);
      FlattenSpan("", base, inner, rest);
    } else {
      ParseLit(s[1..], lit + [s[0]], base);
      ParseLit(s[1..], "" + [s[0]], base);
      FlatAppend(lit, [s[0]], base);
    }
  }

  lemma WrapClean(on: bool, delim: string, inner: string, c: char)
    requires delim in ["_", "**", "~~"] && c != delim[0] && Clean(inner, c)
    ensures Clean(Wrap(on, delim, inner), c)
  {
    if on {
      assert Clean(delim, c);
      CleanAppend(delim, inner, c);
      CleanAppend(delim + inner, delim, c);
    }
  }

  function Italic(r: Run): string {
    Wrap(Get(r.marks, ITALIC) == "true", "_", Escape(r.text))
  }

  function BoldItalic(r: Run): string {
    Wrap(Get(r.marks, BOLD) == "true", "**", Italic(r))
  }

  lemma LayersClean(r: Run)
    ensures Clean(Escape(r.text), '_') && Clean(Italic(r), '*') && Clean(BoldItalic(r), '~')
    ensures Clean(Emphasized(r), '[') && Clean(Emphasized(r), ']')
  {
    hide Clean;
    forall c | c in "_*~[]" ensures Clean(Escape(r.text), c) { EscapeClean(r.text, c); }
    forall c | c in "*~[]" ensures Clean(Italic(r), c) {
      WrapClean(Get(r.marks, ITALIC) == "true", "_", Escape(r.text), c);
    }
    forall c | c in "~[]" ensures Clean(BoldItalic(r), c) {
      WrapClean(Get(r.marks, BOLD) == "true", "**", Italic(r), c);
    }
    forall c | c in "[]" ensures Clean(Emphasized(r), c) {
      WrapClean(Get(r.marks, STRIKE) == "true", "~~", BoldItalic(r), c);
    }
  }

  lemma ParseLiteral(x: string, base: Marks)
    ensures Parse(Escape(x), "", base) == Flush(x, base)
  {
    hide Parse;
    ParseEscaped(x, "", "", base);
    assert Escape(x) + "" == Escape(x) && "" + x == x;
    ParseEmpty(x, base);
  }

  /** A wrapped text parses to its inside under the mark. */
  lemma ParseWrap(on: bool, delim: string, key: string, inner: string, base: Marks)
    requires (delim == "**" && key == BOLD) || (delim == "~~" && key == STRIKE) || (delim == "_" && key == ITALIC)
    requires Clean(inner, delim[0])
    ensures Parse(Wrap(on, delim, inner), "", base) == Parse(inner, "", Mark(on, base, key, "true"))
  {
    hide Parse, Clean;
    if on {
      ParseWrapped(inner, delim, key, "", "", base);
      ParseEmpty("", base);
      assert delim + inner + delim + "" == delim + inner + delim;
    }
  }

  lemma ParseEmphasized(r: Run, base: Marks)
    ensures Parse(Italic(r), "", Mark(Get(r.marks, BOLD) == "true", Mark(Get(r.marks, STRIKE) == "true", base, STRIKE, "true"), BOLD, "true"))
         == Flush(r.text, Emphases(base, r.marks))
    ensures Parse(BoldItalic(r), "", Mark(Get(r.marks, STRIKE) == "true", base, STRIKE, "true"))
         == Flush(r.text, Emphases(base, r.marks))
    ensures Parse(Emphasized(r), "", base) == Flush(r.text, Emphases(base, r.marks))
  {
    hide Parse, Clean;
    LayersClean(r);
    var s := Mark(Get(r.marks, STRIKE) == "true", base, STRIKE, "true");
    var b := Mark(Get(r.marks, BOLD) == "true", s, BOLD, "true");
    ParseWrap(Get(r.marks, STRIKE) == "true", "~~", STRIKE, BoldItalic(r), base);
    ParseWrap(Get(r.marks, BOLD) == "true", "**", BOLD, Italic(r), s);
    ParseWrap(Get(r.marks, ITALIC) == "true", "_", ITALIC, Escape(r.text), b);
    ParseLiteral(r.text, Emphases(base, r.marks));
  }

  lemma {:induction false} EscapeParensNone(href: string)
    requires ')' !in href
    ensures EscapeParens(href) == href
  {
    if href != "" { EscapeParensNone(href[1..]); }
  }

  /** One printed run, whatever follows it, parses to its text under the marks the printer writes. */
  lemma ParseRun(r: Run, t: string, lit: string)
    requires ')' !in Get(r.marks, HREF)
    ensures Flatten(Parse(FormatRun(r) + t, lit, map[]))
         == Flat(lit, map[]) + Flat(r.text, Effective(r.marks)) + Flatten(Parse(t, "", map[]))
  {
    hide Parse, Clean, Flatten;
    LayersClean(r);
    var href := Get(r.marks, HREF);
    var base := Mark(href != "", map[], HREF, href);
    ParseEmphasized(r, base);
    if href != "" {
      EscapeParensNone(href);
      assert FormatRun(r) + t == "[" + Emphasized(r) + "](" + href + ")" + t;
      ParseLinked(Emphasized(r), href, t, lit, map[]);
      FlattenRun(r.text, Effective(r.marks), lit, Parse(t, "", map[]));
    } else if Get(r.marks, STRIKE) == "true" {
      ParseWrapped(BoldItalic(r), "~~", STRIKE, t, lit, map[]);
      FlattenRun(r.text, Effective(r.marks), lit, Parse(t, "", map[]));
    } else if Get(r.marks, BOLD) == "true" {
      ParseWrapped(Italic(r), "**", BOLD, t, lit, map[]);
      FlattenRun(r.text, Effective(r.marks), lit, Parse(t, "", map[]));
    } else if Get(r.marks, ITALIC) == "true" {
      ParseWrapped(Escape(r.text), "_", ITALIC, t, lit, map[]);
      ParseLiteral(r.text, map[ITALIC := "true"]);
      FlattenRun(r.text, Effective(r.marks), lit, Parse(t, "", map[]));
    } else {
      ParseEscaped(r.text, t, lit, map[]);
      ParseLit(t, lit + r.text, map[]);
      FlatAppend(lit, r.text, map[]);
    }
  }

  lemma FlattenRun(text: string, marks: Marks, lit: string, rest: seq<Run>)
    ensures Flatten(Flush(lit, map[]) + Flush(text, marks) + rest)
         == Flat(lit, map[]) + Flat(text, marks) + Flatten(rest)
  {
    FlattenSpan(lit, map[], Flush(text, marks), rest);
    FlattenAppend(Flush(text, marks), rest);
  }

  /** No link target holds the character that ends one. */
  predicate Linkable(rs: seq<Run>) {
    forall r :: r in rs ==> ')' !in Get(r.marks, HREF)
  }

  lemma FlattenEffective(rs: seq<Run>)
    requires rs != []
    ensures Flatten(EffectiveRuns(rs)) == Flat(rs[0].text, Effective(rs[0].marks)) + Flatten(EffectiveRuns(rs[1..]))
  {
    hide Effective;
    assert EffectiveRuns(rs)[1..] == EffectiveRuns(rs[1..]);
  }

  lemma {:induction false} ParseFormat(rs: seq<Run>, t: string)
    requires Linkable(rs)
    ensures Flatten(Parse(Format(rs) + t, "", map[])) == Flatten(EffectiveRuns(rs)) + Flatten(Parse(t, "", map[]))
  {
    hide Parse, Flatten, FormatRun, Effective;
    if rs == [] {
      assert Format(rs) + t == t && EffectiveRuns(rs) == [];
      FlattenNone();
    } else {
      assert Format(rs) + t == FormatRun(rs[0]) + (Format(rs[1..]) + t);
      ParseRun(rs[0], Format(rs[1..]) + t, "");
      ParseFormat(rs[1..], t);
      FlattenEffective(rs);
    }
  }

  lemma FlattenNone()
    ensures Flatten([]) == []
  {
  }

  // ---------------------------------------------------------------------------------------------
  // Merging keeps what the runs say
  // ---------------------------------------------------------------------------------------------

  predicate Valued(m: Marks) {
    forall k :: k in m ==> m[k] != ""
  }

  predicate Written(rs: seq<Run>) {
    forall r :: r in rs ==> r.text != ""
  }

  /** The form mergeRuns gives a list: no empty text, and no two neighbours with the same marks. */
  predicate Normal(rs: seq<Run>) {
    Written(rs) && forall i :: 0 < i < |rs| ==> rs[i - 1].marks != rs[i].marks
  }

  /** The source's test of two marks is equality once no value of the first is empty. */
  lemma MarksEqualValued(a: Marks, b: Marks)
    requires Valued(a) && MarksEqual(a, b)
    ensures a == b
  {
    forall k | k in a ensures k in b && b[k] == a[k] { assert Get(b, k) == a[k]; }
    assert a.Keys <= b.Keys && |b.Keys - a.Keys| == |b.Keys| - |a.Keys|;
  }

  lemma FlattenLast(out: seq<Run>, r: Run)
    ensures Flatten(out + [r]) == Flatten(out) + Flat(r.text, r.marks)
  {
    FlattenAppend(out, [r]);
    assert Flatten([r]) == Flat(r.text, r.marks) + Flatten([]);
  }

  /** One step of the merge, up to the first n characters, of which the last run's marks are valued. */
  lemma PushFlat(out: seq<Run>, r: Run, n: nat)
    requires Written(out)
    requires forall i :: 0 <= i < n && i < |Flatten(out)| ==> Valued(Flatten(out)[i].marks)
    ensures Written(Push(out, r))
    ensures |Flatten(Push(out, r))| == |Flatten(out)| + |r.text|
    ensures Flatten(out) <= Flatten(Push(out, r))
    ensures n > |Flatten(out)| ==> Flatten(Push(out, r)) == Flatten(out) + Flat(r.text, r.marks)
  {
    hide Flatten, MarksEqual, Valued;
    if r.text == "" {
      assert Flatten(out) + Flat(r.text, r.marks) == Flatten(out);
    } else if out != [] && MarksEqual(out[|out| - 1].marks, r.marks) {
      PushJoins(out, r, n);
    } else {
      FlattenLast(out, r);
    }
  }

  lemma PushJoined(out: seq<Run>, r: Run)
    requires Written(out) && r.text != "" && out != [] && MarksEqual(out[|out| - 1].marks, r.marks)
    ensures Push(out, r) == out[..|out| - 1] + [Run(out[|out| - 1].text + r.text, out[|out| - 1].marks)] && Written(Push(out, r))
  {
    hide MarksEqual;
  }

  lemma JoinFlat(init: seq<Run>, last: Run, r: Run)
    ensures Flatten(init + [Run(last.text + r.text, last.marks)]) == Flatten(init + [last]) + Flat(r.text, last.marks)
  {
    hide *;
    FlattenLast(init, last);
    FlattenLast(init, Run(last.text + r.text, last.marks));
    FlatAppend(last.text, r.text, last.marks);
    Assoc(Flatten(init), Flat(last.text, last.marks), Flat(r.text, last.marks));
  }

  /** The last character has the marks of the last run. */
  lemma LastMarked(out: seq<Run>)
    requires Written(out) && out != []
    ensures Flatten(out) != [] && Flatten(out)[|Flatten(out)| - 1].marks == out[|out| - 1].marks
  {
    hide Flatten;
    var init, last := out[..|out| - 1], out[|out| - 1];
    assert out == init + [last] && last in out && last.text != "";
    FlattenLast(init, last);
  }

  /** The run joins the last one. */
  lemma PushJoins(out: seq<Run>, r: Run, n: nat)
    requires Written(out) && r.text != "" && out != [] && MarksEqual(out[|out| - 1].marks, r.marks)
    requires forall i :: 0 <= i < n && i < |Flatten(out)| ==> Valued(Flatten(out)[i].marks)
    ensures Written(Push(out, r)) && Flatten(Push(out, r)) == Flatten(out) + Flat(r.text, out[|out| - 1].marks)
    ensures n > |Flatten(out)| ==> out[|out| - 1].marks == r.marks
  {
    hide *;
    var init, last := out[..|out| - 1], out[|out| - 1];
    PushJoined(out, r);
    assert out == init + [last];
    JoinFlat(init, last, r);
    if n > |Flatten(out)| {
      LastMarked(out);
      MarksEqualValued(last.marks, r.marks);
    }
  }

  /** Merging keeps every character, and the marks of the characters before any empty mark value. */
  lemma {:induction false} MergeOntoFlat(out: seq<Run>, rs: seq<Run>, n: nat)
    requires Written(out) && n <= |Flatten(out)| + |Flatten(rs)|
    requires forall i :: 0 <= i < n ==> Valued((Flatten(out) + Flatten(rs))[i].marks)
    ensures |Flatten(MergeOnto(out, rs))| == |Flatten(out)| + |Flatten(rs)|
    ensures Flatten(MergeOnto(out, rs))[..n] == (Flatten(out) + Flatten(rs))[..n]
    decreases |rs|
  {
    hide *;
    if rs == [] {
      MergeOntoNone(out);
    } else {
      var next, flat := Push(out, rs[0]), Flat(rs[0].text, rs[0].marks);
      MergeOntoStep(out, rs);
      assert forall i :: 0 <= i < n && i < |Flatten(out)| ==> Flatten(out)[i] == (Flatten(out) + Flatten(rs))[i];
      PushFlat(out, rs[0], n);
      PrefixKept(Flatten(out), flat, Flatten(rs[1..]), Flatten(next), n);
      var was, now := Flatten(out) + Flatten(rs), Flatten(next) + Flatten(rs[1..]);
      forall i | 0 <= i < n ensures Valued(now[i].marks) {
        assert now[i] == now[..n][i] == was[..n][i] == was[i];
      }
      MergeOntoFlat(next, rs[1..], n);
    }
  }

  lemma MergeOntoNone(out: seq<Run>)
    ensures MergeOnto(out, []) == out && Flatten(out) + Flatten([]) == Flatten(out)
  {
    hide Push;
  }

  lemma MergeOntoStep(out: seq<Run>, rs: seq<Run>)
    requires rs != []
    ensures MergeOnto(out, rs) == MergeOnto(Push(out, rs[0]), rs[1..])
    ensures Flatten(rs) == Flat(rs[0].text, rs[0].marks) + Flatten(rs[1..])
    ensures |Flat(rs[0].text, rs[0].marks)| == |rs[0].text|
  {
    hide Push;
  }

  lemma PrefixKept<T>(a: seq<T>, f: seq<T>, rest: seq<T>, b: seq<T>, n: nat)
    requires a <= b && |b| == |a| + |f| && (n > |a| ==> b == a + f) && n <= |a| + |f| + |rest|
    ensures (a + (f + rest))[..n] == (b + rest)[..n]
  {
    if n > |a| { Assoc(a, f, rest); }
  }

  lemma {:induction false} MergeOntoNormal(out: seq<Run>, rs: seq<Run>)
    requires Normal(out)
    ensures Normal(MergeOnto(out, rs))
    decreases |rs|
  {
    if rs != [] {
      assert out != [] && out[|out| - 1].marks == rs[0].marks ==> MarksEqual(out[|out| - 1].marks, rs[0].marks);
      MergeOntoNormal(Push(out, rs[0]), rs[1..]);
    }
  }

  predicate AllValued(f: seq<Marked>) {
    forall i :: 0 <= i < |f| ==> Valued(f[i].marks)
  }

  lemma MergeFlat(rs: seq<Run>)
    requires AllValued(Flatten(rs))
    ensures Normal(Merge(rs)) && Flatten(Merge(rs)) == Flatten(rs)
  {
    hide Flatten, MergeOnto, Valued, Normal;
    var n := |Flatten(rs)|;
    MergeFlatUpTo(rs, n);
    NormalNone();
    MergeOntoNormal([], rs);
    assert Flatten(Merge(rs))[..n] == Flatten(Merge(rs)) && Flatten(rs)[..n] == Flatten(rs);
  }

  lemma NormalNone()
    ensures Normal([])
  {
  }

  /** The first run of a normal list ends where the marks change. */
  lemma HeadEnds(a: seq<Run>)
    requires a != [] && Normal(a)
    ensures var f, n := Flatten(a), |a[0].text|;
      0 < n <= |f| && (forall i :: 0 <= i < n ==> f[i] == Marked(a[0].text[i], a[0].marks)) &&
      (n < |f| ==> f[n].marks != a[0].marks) && Flatten(a[1..]) == f[n..]
  {
    assert a[0] in a;
    if |a| > 1 {
      assert a[1] in a;
      assert Flatten(a[1..]) == Flat(a[1].text, a[1].marks) + Flatten(a[1..][1..]);
    }
  }

  /** A normal list is determined by what it says. */
  lemma {:induction false} NormalUnique(a: seq<Run>, b: seq<Run>)
    requires Normal(a) && Normal(b) && Flatten(a) == Flatten(b)
    ensures a == b
    decreases |a|
  {
    if a == [] {
      assert |Flatten(a)| == 0;
      if b != [] { HeadEnds(b); }
    } else if b == [] {
      assert |Flatten(b)| == 0;
      HeadEnds(a);
    } else {
      HeadEnds(a);
      HeadEnds(b);
      var f, x, y := Flatten(a), a[0], b[0];
      assert f[0].marks == x.marks == y.marks;
      assert |x.text| == |y.text|;
      forall i | 0 <= i < |x.text| ensures x.text[i] == y.text[i] { assert f[i].c == x.text[i]; }
      assert x == y;
      NormalUnique(a[1..], b[1..]);
      assert a == [x] + a[1..];
      assert b == [y] + b[1..];
    }
  }

  // ---------------------------------------------------------------------------------------------
  // Main results
  // ---------------------------------------------------------------------------------------------

  lemma {:induction false} EffectiveValued(rs: seq<Run>)
    ensures AllValued(Flatten(EffectiveRuns(rs)))
  {
    if rs != [] {
      EffectiveValued(rs[1..]);
      FlattenEffective(rs);
      assert Valued(Effective(rs[0].marks));
    }
  }

  /** Parsing what the printer wrote gives the runs back, merged, under the marks the printer writes. */
  lemma RoundTrip(rs: seq<Run>)
    requires Linkable(rs)
    ensures Parsed(Format(rs)) == Merge(EffectiveRuns(rs))
  {
    hide Parse, Flatten, Merge;
    ParseFormat(rs, "");
    ParseEmpty("", map[]);
    FlattenNone();
    assert Format(rs) + "" == Format(rs);
    EffectiveValued(rs);
    var p := Parse(Format(rs), "", map[]);
    assert Flatten(p) == Flatten(EffectiveRuns(rs));
    MergeFlat(p);
    MergeFlat(EffectiveRuns(rs));
    NormalUnique(Merge(p), Merge(EffectiveRuns(rs)));
  }

  /** Marks as ParseInline itself writes them: the four keys, with no empty target. */
  predicate Canonical(m: Marks) {
    m.Keys <= {BOLD, ITALIC, STRIKE, HREF} &&
    (forall k :: k in m && k != HREF ==> m[k] == "true") && (HREF in m ==> m[HREF] != "")
  }

  lemma CanonicalMarks(m: Marks)
    requires Canonical(m)
    ensures Effective(m) == m
  {
  }

  lemma CanonicalEffective(rs: seq<Run>)
    requires forall r :: r in rs ==> Canonical(r.marks)
    ensures EffectiveRuns(rs) == rs
  {
    hide Canonical, Effective;
    forall i | 0 <= i < |rs| ensures EffectiveRuns(rs)[i] == rs[i] {
      assert rs[i] in rs;
      CanonicalMarks(rs[i].marks);
    }
  }

  /** The documented round trip: on marks of the four kinds it is merging alone. */
  lemma RoundTripCanonical(rs: seq<Run>)
    requires Linkable(rs) && forall r :: r in rs ==> Canonical(r.marks)
    ensures Parsed(Format(rs)) == Merge(rs)
  {
    RoundTrip(rs);
    CanonicalEffective(rs);
  }

  function Chars(f: seq<Marked>): string {
    seq(|f|, i requires 0 <= i < |f| => f[i].c)
  }

  lemma {:induction false} PlainTextChars(rs: seq<Run>)
    ensures PlainText(rs) == Chars(Flatten(rs))
  {
    if rs != [] {
      PlainTextChars(rs[1..]);
      var head, tail := Flat(rs[0].text, rs[0].marks), Flatten(rs[1..]);
      assert Chars(head + tail) == Chars(head) + Chars(tail);
      assert Chars(head) == rs[0].text;
    }
  }

  lemma EffectivePlain(rs: seq<Run>)
    ensures PlainText(EffectiveRuns(rs)) == PlainText(rs)
  {
    if rs != [] {
      EffectivePlain(rs[1..]);
      assert EffectiveRuns(rs)[1..] == EffectiveRuns(rs[1..]);
    }
  }

  /** PlainInline of a printed list is the concatenation of its texts. */
  lemma PlainRoundTrip(rs: seq<Run>)
    requires Linkable(rs)
    ensures PlainText(Parsed(Format(rs))) == PlainText(rs)
  {
    RoundTrip(rs);
    EffectiveValued(rs);
    MergeFlat(EffectiveRuns(rs));
    PlainTextChars(Merge(EffectiveRuns(rs)));
    PlainTextChars(EffectiveRuns(rs));
    EffectivePlain(rs);
  }

  // ---------------------------------------------------------------------------------------------
  // The round trip fails as soon as a link target holds ')'
  // ---------------------------------------------------------------------------------------------

  lemma {:induction false} EscapeParensFirst(href: string) returns (head: string, rest: string)
    requires ')' in href
    ensures ')' !in head && head < href && href[|head|] == ')'
    ensures EscapeParens(href) == head + "\\)" + rest
  {
    if href[0] == ')' {
      head, rest := "", EscapeParens(href[1..]);
    } else {
      var h, r := EscapeParensFirst(href[1..]);
      head, rest := [href[0]] + h, r;
    }
  }

  /** A run whose target holds ')' comes back under a target that is cut before it. */
  lemma ParseBadRun(r: Run, t: string) returns (bad: Marks, rest: seq<Run>)
    requires ')' in Get(r.marks, HREF)
    ensures bad != Effective(r.marks) && Valued(bad)
    ensures Flatten(Parse(FormatRun(r) + t, "", map[])) == Flat(r.text, bad) + Flatten(rest)
  {
    hide Parse, Clean, Flatten, Emphasized, Emphases, Effective;
    LayersClean(r);
    var href := Get(r.marks, HREF);
    var head, tail := EscapeParensFirst(href);
    var cut := head + "\\";
    var base: Marks := map[HREF := cut];
    ParseEmphasized(r, base);
    var u := tail + ")" + t;
    BadShape(Emphasized(r), head, tail, t);
    assert ')' !in cut;
    ParseLinked(Emphasized(r), cut, u, "", map[]);
    rest := Parse(u, "", map[]);
    assert map[][HREF := cut] == base;
    bad := Emphases(base, r.marks);
    FlattenRun(r.text, bad, "", rest);
    BadMarks(r, head, bad);
  }

  lemma BadMarks(r: Run, head: string, bad: Marks)
    requires head < Get(r.marks, HREF) && Get(r.marks, HREF)[|head|] == ')'
    requires bad == Emphases(map[HREF := head + "\\"], r.marks)
    ensures bad != Effective(r.marks) && Valued(bad)
  {
    assert (head + "\\")[|head|] != Get(r.marks, HREF)[|head|];
    assert bad[HREF] == head + "\\" && Effective(r.marks)[HREF] == Get(r.marks, HREF);
  }

  lemma BadShape(e: string, head: string, tail: string, t: string)
    ensures "[" + e + "](" + (head + "\\)" + tail) + ")" + t == "[" + e + "](" + (head + "\\") + ")" + (tail + ")" + t)
  {
    assert "\\)" == "\\" + ")";
  }

  lemma {:induction false} FormatAppend(a: seq<Run>, b: seq<Run>)
    ensures Format(a + b) == Format(a) + Format(b)
  {
    hide FormatRun;
    if a == [] {
      Empty(b);
    } else {
      Uncons(a, b);
      FormatAppend(a[1..], b);
      Assoc(FormatRun(a[0]), Format(a[1..]), Format(b));
    }
  }

  lemma MergeFlatUpTo(rs: seq<Run>, n: nat)
    requires n <= |Flatten(rs)| && forall i :: 0 <= i < n ==> Valued(Flatten(rs)[i].marks)
    ensures |Flatten(Merge(rs))| == |Flatten(rs)| && Flatten(Merge(rs))[..n] == Flatten(rs)[..n]
  {
    FlattenNone();
    assert Flatten([]) + Flatten(rs) == Flatten(rs);
    MergeOntoFlat([], rs, n);
  }

  lemma FirstBad(rs: seq<Run>) returns (k: nat)
    requires !Linkable(rs)
    ensures k < |rs| && Linkable(rs[..k]) && ')' in Get(rs[k].marks, HREF)
  {
    if ')' in Get(rs[0].marks, HREF) {
      k := 0;
    } else {
      k := FirstBad(rs[1..]);
      k := k + 1;
      assert rs[..k] == [rs[0]] + rs[1..][..k - 1];
    }
  }

  /** The text of the first run with a ')' in its target comes back under another target. */
  lemma RoundTripBreaks(rs: seq<Run>)
    requires Written(rs) && !Linkable(rs)
    ensures Parsed(Format(rs)) != Merge(EffectiveRuns(rs))
  {
    hide *;
    var k, bad, rest := BreaksAt(rs);
    var r := rs[k];
    var p, es := Parse(Format(rs), "", map[]), EffectiveRuns(rs);
    var n := |Flatten(EffectiveRuns(rs[..k]))|;
    FirstMarks(p, Flatten(EffectiveRuns(rs[..k])), r, bad, rest);
    EffectiveValued(rs);
    MergeFlat(es);
    FirstEffective(rs, k);
    ParsedIsMerge(rs);
    assert Flatten(Merge(p))[n] == Marked(r.text[0], bad);
    assert Flatten(Merge(es))[n] == Marked(r.text[0], Effective(r.marks));
  }

  lemma ParsedIsMerge(rs: seq<Run>)
    ensures Parsed(Format(rs)) == Merge(Parse(Format(rs), "", map[]))
  {
    hide Parse, Merge, Format;
  }

  /** The first run whose target holds ')' parses with other marks. */
  lemma BreaksAt(rs: seq<Run>) returns (k: nat, bad: Marks, rest: seq<Run>)
    requires Written(rs) && !Linkable(rs)
    ensures k < |rs| && rs[k].text != "" && Valued(bad) && bad != Effective(rs[k].marks)
    ensures AllValued(Flatten(EffectiveRuns(rs[..k])))
    ensures Flatten(Parse(Format(rs), "", map[])) == Flatten(EffectiveRuns(rs[..k])) + (Flat(rs[k].text, bad) + Flatten(rest))
  {
    hide Parse, Flatten, Format, FormatRun, Effective, AllValued, Valued;
    k := FirstBad(rs);
    var pre, r, post := rs[..k], rs[k], rs[k + 1..];
    assert r in rs;
    assert rs == pre + ([r] + post);
    FormatAppend(pre, [r] + post);
    FormatCons(r, post);
    ParseFormat(pre, FormatRun(r) + Format(post));
    bad, rest := ParseBadRun(r, Format(post));
    EffectiveValued(pre);
  }

  lemma FirstMarks(p: seq<Run>, before: seq<Marked>, r: Run, bad: Marks, rest: seq<Run>)
    requires Flatten(p) == before + (Flat(r.text, bad) + Flatten(rest)) && AllValued(before) && Valued(bad) && r.text != ""
    ensures |Flatten(Merge(p))| > |before| && Flatten(Merge(p))[|before|] == Marked(r.text[0], bad)
  {
    hide Flatten, Merge, Valued;
    var n := |before|;
    assert Flatten(p)[n] == Marked(r.text[0], bad);
    MergeFlatUpTo(p, n + 1);
    assert Flatten(Merge(p))[..n + 1][n] == Flatten(p)[..n + 1][n];
  }

  lemma FirstEffective(rs: seq<Run>, k: nat)
    requires k < |rs| && rs[k].text != ""
    ensures var n, f := |Flatten(EffectiveRuns(rs[..k]))|, Flatten(EffectiveRuns(rs));
      n < |f| && f[n] == Marked(rs[k].text[0], Effective(rs[k].marks))
  {
    hide Flatten, Effective;
    var pre, tail := rs[..k], rs[k..];
    assert EffectiveRuns(rs) == EffectiveRuns(pre) + EffectiveRuns(tail);
    FlattenAppend(EffectiveRuns(pre), EffectiveRuns(tail));
    FlattenEffective(tail);
  }

  lemma FormatCons(r: Run, rs: seq<Run>)
    ensures Format([r] + rs) == FormatRun(r) + Format(rs)
  {
    hide FormatRun;
    assert ([r] + rs)[1..] == rs;
  }

  /** Exactly when the round trip holds, for lists of non-empty runs. */
  lemma RoundTripExact(rs: seq<Run>)
    requires Written(rs)
    ensures Parsed(Format(rs)) == Merge(EffectiveRuns(rs)) <==> Linkable(rs)
  {
    if Linkable(rs) { RoundTrip(rs); } else { RoundTripBreaks(rs); }
  }

  // ---------------------------------------------------------------------------------------------
  // Printing after parsing
  // ---------------------------------------------------------------------------------------------

  lemma LinkHref(s: string)
    ensures Opening(s).Some? && Opening(s).value.key == HREF ==> ')' !in Opening(s).value.value
  {
    hide CloseAt, LabelEnd;
    assert Link(s).Some? ==> ')' !in Link(s).value.value;
    hide Link, Emphasis;
    assert Emphasis(s, "**", BOLD).Some? ==> Emphasis(s, "**", BOLD).value.key == BOLD;
  }

  lemma LinkableAppend(a: seq<Run>, b: seq<Run>)
    requires Linkable(a) && Linkable(b)
    ensures Linkable(a + b)
  {
  }

  lemma {:induction false} ParseLinkable(s: string, lit: string, base: Marks)
    requires ')' !in Get(base, HREF)
    ensures Linkable(Parse(s, lit, base))
    decreases |s|
  {
    hide Opening;
    if s == "" {
    } else if s[0] == '\\' && |s| > 1 {
      ParseLinkable(s[2..], lit + [s[1]], base);
    } else if Opening(s).Some? {
      var o := Opening(s).value;
      LinkHref(s);
      ParseLinkable(o.inner, "", base[o.key := o.value]);
      ParseLinkable(s[o.length..], "", base);
      LinkableAppend(Flush(lit, base), Parse(o.inner, "", base[o.key := o.value]));
    } else {
      ParseLinkable(s[1..], lit + [s[0]], base);
    }
  }

  lemma {:induction false} MergeOntoLinkable(out: seq<Run>, rs: seq<Run>)
    requires Linkable(out) && Linkable(rs) && Written(out)
    ensures Linkable(MergeOnto(out, rs)) && Written(MergeOnto(out, rs))
    decreases |rs|
  {
    if rs != [] {
      assert rs[0] in rs;
      MergeOntoLinkable(Push(out, rs[0]), rs[1..]);
    }
  }

  /** Every list the parser returns has non-empty texts, and targets without ')'. */
  lemma ParsedLinkable(s: string)
    ensures Linkable(Parsed(s)) && Written(Parsed(s))
  {
    ParseLinkable(s, "", map[]);
    MergeOntoLinkable([], Parse(s, "", map[]));
  }

  lemma {:induction false} FormatEffective(rs: seq<Run>)
    ensures Format(EffectiveRuns(rs)) == Format(rs)
  {
    if rs != [] {
      FormatEffective(rs[1..]);
      assert EffectiveRuns(rs)[1..] == EffectiveRuns(rs[1..]);
      FormatRunEffective(rs[0]);
    }
  }

  lemma FormatRunEffective(r: Run)
    ensures FormatRun(Run(r.text, Effective(r.marks))) == FormatRun(r)
  {
    var m, e := r.marks, Effective(r.marks);
    assert Get(e, HREF) == Get(m, HREF);
    assert Get(e, STRIKE) == "true" <==> Get(m, STRIKE) == "true";
    assert Get(e, BOLD) == "true" <==> Get(m, BOLD) == "true";
    assert Get(e, ITALIC) == "true" <==> Get(m, ITALIC) == "true";
  }

  lemma {:induction false} EscapeAppend(a: string, b: string)
    ensures Escape(a + b) == Escape(a) + Escape(b)
  {
    if a == "" {
      Empty(b);
    } else {
      Uncons(a, b);
      EscapeAppend(a[1..], b);
      Assoc(if Special(a[0]) then ['\\', a[0]] else [a[0]], Escape(a[1..]), Escape(b));
    }
  }

  /** What the delimiters of a run's marks add to its length. */
  function Overhead(m: Marks): nat {
    (if Get(m, ITALIC) == "true" then 2 else 0) + (if Get(m, BOLD) == "true" then 4 else 0) +
    (if Get(m, STRIKE) == "true" then 4 else 0) +
    (if Get(m, HREF) != "" then 4 + |EscapeParens(Get(m, HREF))| else 0)
  }

  lemma FormatRunLength(r: Run)
    ensures |FormatRun(r)| == |Escape(r.text)| + Overhead(r.marks)
    ensures Overhead(r.marks) == 0 ==> FormatRun(r) == Escape(r.text)
  {
    hide Escape, EscapeParens;
  }

  /** Whether some run has the marks of its neighbour, before it in rs or in `last`, and they print. */
  predicate Joins(last: seq<Run>, rs: seq<Run>)
    decreases |rs|
  {
    rs != [] &&
    ((last != [] && last[|last| - 1].marks == rs[0].marks && Overhead(rs[0].marks) > 0) || Joins([rs[0]], rs[1..]))
  }

  lemma FormatLast(out: seq<Run>, r: Run)
    ensures Format(out + [r]) == Format(out) + FormatRun(r)
  {
    hide FormatRun;
    FormatAppend(out, [r]);
    assert Format([r]) == FormatRun(r) + Format([]);
  }

  lemma PushFormat(out: seq<Run>, r: Run)
    requires r.text != "" && Valued(r.marks) && forall x :: x in out ==> Valued(x.marks)
    ensures forall x :: x in Push(out, r) ==> Valued(x.marks)
    ensures var joined := out != [] && out[|out| - 1].marks == r.marks && Overhead(r.marks) > 0;
      if joined then |Format(Push(out, r))| < |Format(out)| + |FormatRun(r)|
      else Format(Push(out, r)) == Format(out) + FormatRun(r)
    ensures Push(out, r) != [] && Push(out, r)[|Push(out, r)| - 1].marks == r.marks
  {
    hide Format, FormatRun, Escape, Overhead;
    if out != [] && MarksEqual(out[|out| - 1].marks, r.marks) {
      var init, last := out[..|out| - 1], out[|out| - 1];
      assert last in out;
      MarksEqualValued(last.marks, r.marks);
      assert out == init + [last];
      FormatLast(init, last);
      FormatLast(init, Run(last.text + r.text, last.marks));
      EscapeAppend(last.text, r.text);
      FormatRunLength(last);
      FormatRunLength(r);
      FormatRunLength(Run(last.text + r.text, last.marks));
    } else {
      FormatLast(out, r);
    }
  }

  lemma {:induction false} MergeFormat(out: seq<Run>, rs: seq<Run>)
    requires Written(rs) && (forall x :: x in out ==> Valued(x.marks)) && (forall x :: x in rs ==> Valued(x.marks))
    ensures if Joins(out, rs) then |Format(MergeOnto(out, rs))| < |Format(out)| + |Format(rs)|
            else Format(MergeOnto(out, rs)) == Format(out) + Format(rs)
    decreases |rs|
  {
    hide Format, FormatRun, Overhead, Push;
    if rs == [] {
      MergeIsOnto([]);
    } else {
      var next := Push(out, rs[0]);
      assert rs == [rs[0]] + rs[1..];
      FormatCons(rs[0], rs[1..]);
      PushFormat(out, rs[0]);
      MergeFormat(next, rs[1..]);
      assert Joins(next, rs[1..]) == Joins([rs[0]], rs[1..]);
    }
  }

  /** Printing what was parsed is a fixed point of printing after parsing, unless two neighbouring
      runs differ only by an empty link target and carry another mark. */
  lemma IdempotentExact(s: string)
    ensures Format(Parsed(Format(Parsed(s)))) == Format(Parsed(s)) <==> !Joins([], EffectiveRuns(Parsed(s)))
  {
    hide Parsed, Format, Merge, Effective, Joins;
    var rs := Parsed(s);
    ParsedLinkable(s);
    RoundTrip(rs);
    FormatEffective(rs);
    var es := EffectiveRuns(rs);
    forall x | x in es ensures Valued(x.marks) && x.text != "" {
      var i :| 0 <= i < |es| && es[i] == x;
      assert rs[i] in rs;
      EffectiveIsValued(rs[i].marks);
    }
    MergeFormat([], es);
    MergeIsOnto(es);
  }

  lemma MergeIsOnto(rs: seq<Run>)
    ensures Merge(rs) == MergeOnto([], rs) && Format([]) + Format(rs) == Format(rs) && |Format([])| == 0
  {
  }

  lemma EffectiveIsValued(m: Marks)
    ensures Valued(Effective(m))
  {
  }

  /** The marks the parser can write: the four keys, emphasis only as "true". */
  predicate Shaped(m: Marks) {
    m.Keys <= {BOLD, ITALIC, STRIKE, HREF} && forall k :: k in m && k != HREF ==> m[k] == "true"
  }

  predicate AllShaped(rs: seq<Run>) {
    forall r :: r in rs ==> Shaped(r.marks)
  }

  lemma OpeningShaped(s: string)
    ensures Opening(s).Some? ==> Shaped(map[Opening(s).value.key := Opening(s).value.value])
  {
    hide CloseAt, LabelEnd;
    var bold, strike, link := Emphasis(s, "**", BOLD), Emphasis(s, "~~", STRIKE), Link(s);
    var under, star := Emphasis(s, "_", ITALIC), Emphasis(s, "*", ITALIC);
    assert bold.Some? ==> bold.value.key == BOLD && bold.value.value == "true";
    assert strike.Some? ==> strike.value.key == STRIKE && strike.value.value == "true";
    assert link.Some? ==> link.value.key == HREF;
    assert under.Some? ==> under.value.key == ITALIC && under.value.value == "true";
    assert star.Some? ==> star.value.key == ITALIC && star.value.value == "true";
    hide Emphasis, Link;
  }

  lemma {:induction false} ParseShaped(s: string, lit: string, base: Marks)
    requires Shaped(base)
    ensures AllShaped(Parse(s, lit, base))
    decreases |s|
  {
    hide Opening;
    if s == "" {
    } else if s[0] == '\\' && |s| > 1 {
      ParseShaped(s[2..], lit + [s[1]], base);
    } else if Opening(s).Some? {
      var o := Opening(s).value;
      OpeningShaped(s);
      assert o.key in map[o.key := o.value];
      ParseShaped(o.inner, "", base[o.key := o.value]);
      ParseShaped(s[o.length..], "", base);
    } else {
      ParseShaped(s[1..], lit + [s[0]], base);
    }
  }

  lemma {:induction false} MergeOntoShaped(out: seq<Run>, rs: seq<Run>)
    requires AllShaped(out) && AllShaped(rs)
    ensures AllShaped(MergeOnto(out, rs))
    decreases |rs|
  {
    if rs != [] {
      assert rs[0] in rs;
      MergeOntoShaped(Push(out, rs[0]), rs[1..]);
    }
  }

  lemma {:induction false} NormalNeverJoins(rs: seq<Run>)
    requires Normal(rs)
    ensures !Joins([], rs)
    decreases |rs|
  {
    if |rs| > 1 {
      assert rs[0].marks != rs[1].marks;
      NormalNeverJoins(rs[1..]);
    }
  }

  /** The documented law: printing after parsing is idempotent on every text whose parse has no
      empty link target. */
  lemma IdempotentWithTargets(s: string)
    requires forall r :: r in Parsed(s) && HREF in r.marks ==> r.marks[HREF] != ""
    ensures Format(Parsed(Format(Parsed(s)))) == Format(Parsed(s))
  {
    hide Format, Joins, Parse;
    var rs := Parsed(s);
    ParseShaped(s, "", map[]);
    MergeOntoShaped([], Parse(s, "", map[]));
    MergeOntoNormal([], Parse(s, "", map[]));
    CanonicalEffective(rs);
    NormalNeverJoins(rs);
    IdempotentExact(s);
  }

  lemma KeysDiffer()
    ensures BOLD != HREF && ITALIC != HREF && STRIKE != HREF && BOLD != ITALIC && BOLD != STRIKE && ITALIC != STRIKE
  {
    assert BOLD[0] == 'b' && HREF[0] == 'h' && ITALIC[0] == 'i' && STRIKE[0] == 's';
  }

  lemma ParseBoldLetter(c: string, t: string, base: Marks)
    requires c == "a" || c == "b"
    ensures Parse("**" + c + "**" + t, "", base) == [Run(c, base[BOLD := "true"])] + Parse(t, "", base)
  {
    hide Parse;
    CleanBold();
    assert Escape(c) == c;
    ParseWrapped(c, "**", BOLD, t, "", base);
    ParseLiteral(c, base[BOLD := "true"]);
  }

  lemma ParseExample()
    ensures Parse("**a**[**b**]()", "", map[])
         == [Run("a", map[BOLD := "true"]), Run("b", map[HREF := "", BOLD := "true"])]
  {
    hide Parse;
    CleanBold();
    var empty: Marks := map[];
    assert "**a**[**b**]()" == "**" + "a" + "**" + "[**b**]()";
    ParseBoldLetter("a", "[**b**]()", empty);
    assert "[**b**]()" == "[" + "**b**" + "](" + "" + ")" + "";
    ParseLinked("**b**", "", "", "", empty);
    assert "**b**" == "**" + "b" + "**" + "";
    ParseBoldLetter("b", "", empty[HREF := ""]);
    ParseEmpty("", empty);
    ParseEmpty("", empty[HREF := ""]);
    assert empty[HREF := ""][BOLD := "true"] == map[HREF := "", BOLD := "true"];
    assert empty[BOLD := "true"] == map[BOLD := "true"];
  }

  /** Without that condition it fails: bold beside bold inside an empty target. */
  lemma IdempotentFails()
    ensures var s := "**a**[**b**]()";
      Parsed(s) == [Run("a", map[BOLD := "true"]), Run("b", map[HREF := "", BOLD := "true"])] &&
      Format(Parsed(Format(Parsed(s)))) != Format(Parsed(s))
  {
    hide Parse, Format, Merge;
    var bold: Marks := map[BOLD := "true"];
    var a, b := Run("a", bold), Run("b", map[HREF := "", BOLD := "true"]);
    KeysDiffer();
    ParseExample();
    assert |a.marks| == 1 && |b.marks| == 2;
    MergePair(a, b);
    assert Effective(bold) == bold && Effective(b.marks) == bold;
    assert EffectiveRuns([a, b]) == [Run("a", bold), Run("b", bold)];
    JoinsPair(Run("a", bold), Run("b", bold));
    IdempotentExact("**a**[**b**]()");
  }

  lemma JoinsPair(a: Run, b: Run)
    requires a.marks == b.marks && Overhead(a.marks) > 0
    ensures Joins([], [a, b])
  {
    assert [a, b][1..] == [b];
    assert Joins([a], [b]);
  }

  lemma CleanBold()
    ensures Clean("**b**", '[') && Clean("**b**", ']') && Clean("a", '*') && Clean("b", '*')
  {
    assert Clean("", '[') && Clean("", ']');
    assert "**b**"[1..] == "*b**" && "*b**"[1..] == "b**" && "b**"[1..] == "**" && "**"[1..] == "*" && "*"[1..] == "";
    assert Clean("*", '[') && Clean("*", ']');
    assert Clean("**", '[') && Clean("**", ']');
    assert Clean("b**", '[') && Clean("b**", ']');
    assert Clean("*b**", '[') && Clean("*b**", ']');
  }

  lemma MergePair(a: Run, b: Run)
    requires a.text != "" && b.text != "" && !MarksEqual(a.marks, b.marks)
    ensures Merge([a, b]) == [a, b]
  {
    assert MergeOnto([], [a, b]) == MergeOnto(Push([], a), [a, b][1..]) && [a, b][1..] == [b];
    assert MergeOnto([a], [b]) == MergeOnto(Push([a], b), [b][1..]) && [b][1..] == [];
  }

  /** The source's test of marks makes an empty target swallow the next run's emphasis. */
  lemma EmptyTargetSwallows()
    ensures Merge([Run("x", map[HREF := ""]), Run("y", map[BOLD := "true"])]) == [Run("xy", map[HREF := ""])]
  {
    var a, b := Run("x", map[HREF := ""]), Run("y", map[BOLD := "true"]);
    assert MergeOnto([], [a, b]) == MergeOnto(Push([], a), [a, b][1..]) && [a, b][1..] == [b];
    assert MergeOnto([a], [b]) == MergeOnto(Push([a], b), [b][1..]) && [b][1..] == [];
    KeysDiffer();
    assert |a.marks| == 1 && |b.marks| == 1;
    assert MarksEqual(a.marks, b.marks) && "x" + "y" == "xy";
    assert Push([a], b) == [Run("xy", a.marks)];
  }

  /** Merging and parsing never change the text: PlainInline drops delimiters only. */
  lemma MergePlain(rs: seq<Run>)
    ensures PlainText(Merge(rs)) == PlainText(rs)
  {
    MergeOntoPlain([], rs);
  }

  lemma PlainNone(out: seq<Run>)
    ensures PlainText(MergeOnto(out, [])) == PlainText(out) + PlainText([])
  {
  }

  lemma PlainStep(rs: seq<Run>)
    requires rs != []
    ensures PlainText(rs) == rs[0].text + PlainText(rs[1..])
  {
  }

  lemma PushPlain(out: seq<Run>, r: Run)
    ensures PlainText(Push(out, r)) == PlainText(out) + r.text
  {
    hide PlainText, MarksEqual;
    if r.text == "" {
      Empty(PlainText(out));
    } else if out != [] && MarksEqual(out[|out| - 1].marks, r.marks) {
      var init, last := out[..|out| - 1], out[|out| - 1];
      assert out == init + [last];
      PlainLast(init, last);
      PlainLast(init, Run(last.text + r.text, last.marks));
      Assoc(PlainText(init), last.text, r.text);
    } else {
      PlainLast(out, r);
    }
  }

  lemma {:induction false} MergeOntoPlain(out: seq<Run>, rs: seq<Run>)
    ensures PlainText(MergeOnto(out, rs)) == PlainText(out) + PlainText(rs)
    decreases |rs|
  {
    hide *;
    if rs == [] {
      PlainNone(out);
    } else {
      PushPlain(out, rs[0]);
      MergeOntoStep(out, rs);
      PlainStep(rs);
      MergeOntoPlain(Push(out, rs[0]), rs[1..]);
      Assoc(PlainText(out), rs[0].text, PlainText(rs[1..]));
    }
  }

  lemma {:induction false} PlainLast(out: seq<Run>, r: Run)
    ensures PlainText(out + [r]) == PlainText(out) + r.text
  {
    if out != [] {
      PlainLast(out[1..], r);
      assert (out + [r])[1..] == out[1..] + [r];
    }
  }
}
