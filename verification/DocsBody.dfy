/** A Google Docs body as index-based requests change it. An index counts UTF-16 code units
    (section 2.1 of RFC 2781), so one code point may take two (vfs/rich.go, docsIndexLen). */
module DocsBody {
  import opened Inline
  import opened Sequences

  datatype Style = Style(bold: bool, italic: bool, strike: bool, link: string)

  /** One code unit of the body. Section and paragraph ends are units too. */
  datatype Unit = Unit(code: nat, style: Style)

  type Body = seq<Unit>

  // ---------------------------------------------------------------------------------------------
  // UTF-16
  // ---------------------------------------------------------------------------------------------

  function CharUnits(c: char): (u: seq<nat>)
    ensures 1 <= |u| <= 2
  {
    var p := c as int;
    if p < 0x10000 then [p] else [0xD800 + (p - 0x10000) / 0x400, 0xDC00 + (p - 0x10000) % 0x400]
  }

  function Utf16(s: string): seq<nat> {
    if s == "" then [] else CharUnits(s[0]) + Utf16(s[1..])
  }

  /** docsIndexLen: two for a code point above the basic plane, else one. */
  function CharLen(c: char): nat {
    if c as int >= 0x10000 then 2 else 1
  }

  method DocsIndexLen(s: string) returns (n: nat)
    ensures n == |Utf16(s)|
  {
    n := 0;
    for i := 0 to |s|
      invariant |Utf16(s)| == n + |Utf16(s[i..])|
    {
      assert s[i..][1..] == s[i + 1..];
      n := n + CharLen(s[i]);
    }
  }

  lemma {:induction false} Utf16Append(a: string, b: string)
    ensures Utf16(a + b) == Utf16(a) + Utf16(b)
  {
    if a == "" {
      Empty(b);
    } else {
      Uncons(a, b);
      Utf16Append(a[1..], b);
      Assoc(CharUnits(a[0]), Utf16(a[1..]), Utf16(b));
    }
  }

  /** The high and low surrogate ranges are disjoint from each other and from every other unit, so
      the units determine the text: no edit can be read as another. */
  lemma {:induction false} Utf16Injective(a: string, b: string)
    requires Utf16(a) == Utf16(b)
    ensures a == b
    decreases |a|
  {
    if a != "" && b != "" {
      var u := Utf16(a);
      assert u[0] == CharUnits(a[0])[0] == CharUnits(b[0])[0];
      assert |CharUnits(a[0])| == 2 ==> u[1] == CharUnits(a[0])[1];
      assert |CharUnits(b[0])| == 2 ==> u[1] == CharUnits(b[0])[1];
      CharUnitsInjective(a[0], b[0]);
      assert Utf16(a[1..]) == u[|CharUnits(a[0])|..] == Utf16(b[1..]);
      Utf16Injective(a[1..], b[1..]);
      assert a == [a[0]] + a[1..] && b == [b[0]] + b[1..];
    }
  }

  lemma CharUnitsInjective(x: char, y: char)
    requires CharUnits(x)[0] == CharUnits(y)[0]
    requires |CharUnits(x)| == 2 && |CharUnits(y)| == 2 ==> CharUnits(x)[1] == CharUnits(y)[1]
    ensures x == y
  {
    var p, q := x as int, y as int;
    if p >= 0x10000 && q >= 0x10000 {
      assert p - 0x10000 == ((p - 0x10000) / 0x400) * 0x400 + (p - 0x10000) % 0x400;
      assert q - 0x10000 == ((q - 0x10000) / 0x400) * 0x400 + (q - 0x10000) % 0x400;
      assert p == q;
    }
    assert p == q;
  }

  // ---------------------------------------------------------------------------------------------
  // Requests
  // ---------------------------------------------------------------------------------------------

  datatype Request =
    | Delete(tab: string, start: nat, end: nat)
    | Insert(tab: string, at: nat, text: string)
    | SetStyle(tab: string, start: nat, end: nat, style: Style)
    | SetParagraph(tab: string, start: nat, end: nat, named: string)
    | Bullets(tab: string, start: nat, end: nat, listType: string)

  /** The style the service gives a unit it inserts, which the requests do not control. */
  type Inherit = (Body, nat, nat) -> Style

  function Inserted(inherit: Inherit, body: Body, at: nat, text: string): (u: Body)
    ensures |u| == |Utf16(text)|
  {
    seq(|Utf16(text)|, i requires 0 <= i < |Utf16(text)| => Unit(Utf16(text)[i], inherit(body, at, i)))
  }

  function Restyled(u: Body, style: Style): (r: Body)
    ensures |r| == |u|
  {
    seq(|u|, i requires 0 <= i < |u| => Unit(u[i].code, style))
  }

  const NEWLINE: nat := 10
  const TAB: nat := 9

  /** Takes the leading tabs of each paragraph away; `atStart` says a paragraph starts here. */
  function StripTabs(u: Body, atStart: bool): Body {
    if u == [] then []
    else if atStart && u[0].code == TAB then StripTabs(u[1..], true)
    else [u[0]] + StripTabs(u[1..], u[0].code == NEWLINE)
  }

  /** One request on its tab's body; None is a request the service refuses. */
  function Apply(inherit: Inherit, body: Body, req: Request): Option<Body> {
    match req
    case Delete(_, start, end) =>
      if start < end <= |body| then Some(body[..start] + body[end..]) else None
    case Insert(_, at, text) =>
      if at <= |body| then Some(body[..at] + Inserted(inherit, body, at, text) + body[at..]) else None
    case SetStyle(_, start, end, style) =>
      if start < end <= |body| then Some(body[..start] + Restyled(body[start..end], style) + body[end..]) else None
    case SetParagraph(_, start, end, _) =>
      if start < end <= |body| then Some(body) else None
    case Bullets(_, start, end, _) =>
      if start < end <= |body| then Some(body[..start] + StripTabs(body[start..end], true) + body[end..]) else None
  }

  /** The requests of a batch on one tab, in order. */
  function Execute(inherit: Inherit, tab: string, body: Body, reqs: seq<Request>): Option<Body>
    decreases |reqs|
  {
    if reqs == [] then Some(body)
    else if reqs[0].tab != tab then Execute(inherit, tab, body, reqs[1..])
    else
      match Apply(inherit, body, reqs[0])
      case None => None
      case Some(next) => Execute(inherit, tab, next, reqs[1..])
  }

  lemma {:induction false} ExecuteAppend(inherit: Inherit, tab: string, body: Body, a: seq<Request>, b: seq<Request>)
    ensures Execute(inherit, tab, body, a + b) ==
            match Execute(inherit, tab, body, a) { case None => None case Some(mid) => Execute(inherit, tab, mid, b) }
    decreases |a|
  {
    hide Apply;
    if a == [] {
      Empty(b);
    } else {
      Uncons(a, b);
      if a[0].tab != tab {
        ExecuteAppend(inherit, tab, body, a[1..], b);
      } else if Apply(inherit, body, a[0]).Some? {
        ExecuteAppend(inherit, tab, Apply(inherit, body, a[0]).value, a[1..], b);
      }
    }
  }

  lemma ExecuteOne(inherit: Inherit, tab: string, body: Body, req: Request)
    ensures Execute(inherit, tab, body, [req]) == if req.tab == tab then Apply(inherit, body, req) else Some(body)
  {
    hide Apply;
    assert [req][1..] == [];
  }

  // ---------------------------------------------------------------------------------------------
  // Runs of a text: what the styled units must be
  // ---------------------------------------------------------------------------------------------

  predicate HasMarks(r: Inline.Run) {
    Get(r.marks, BOLD) == "true" || Get(r.marks, ITALIC) == "true" ||
    Get(r.marks, STRIKE) == "true" || Get(r.marks, HREF) != ""
  }

  function StyleOf(r: Inline.Run): Style {
    Style(Get(r.marks, BOLD) == "true", Get(r.marks, ITALIC) == "true", Get(r.marks, STRIKE) == "true", Get(r.marks, HREF))
  }

  /** u is the runs' text in units, and every marked run has exactly its marks. */
  ghost predicate Shows(u: Body, runs: seq<Inline.Run>)
    decreases |runs|
  {
    if runs == [] then u == []
    else
      var n := |Utf16(runs[0].text)|;
      n <= |u| && Codes(u[..n]) == Utf16(runs[0].text) &&
      (HasMarks(runs[0]) ==> forall i :: 0 <= i < n ==> u[i].style == StyleOf(runs[0])) &&
      Shows(u[n..], runs[1..])
  }

  function Codes(u: Body): (c: seq<nat>)
    ensures |c| == |u|
  {
    seq(|u|, i requires 0 <= i < |u| => u[i].code)
  }

  lemma CodesAppend(a: Body, b: Body)
    ensures Codes(a + b) == Codes(a) + Codes(b)
  {
  }

  /** Units that show the runs spell their plain text. */
  lemma {:induction false} ShowsSpells(u: Body, runs: seq<Inline.Run>)
    requires Shows(u, runs)
    ensures Codes(u) == Utf16(PlainText(runs))
    decreases |runs|
  {
    if runs != [] {
      var n := |Utf16(runs[0].text)|;
      ShowsSpells(u[n..], runs[1..]);
      Utf16Append(runs[0].text, PlainText(runs[1..]));
      assert u == u[..n] + u[n..];
      CodesAppend(u[..n], u[n..]);
    }
  }

  // ---------------------------------------------------------------------------------------------
  // What shown units are, unit by unit
  // ---------------------------------------------------------------------------------------------

  /** Unit i of run k is that unit of its text; when the run has marks, the unit has each of them that is
      on, and no other. */
  lemma {:induction false} ShowsUnits(u: Body, runs: seq<Inline.Run>, k: nat, i: nat)
    requires Shows(u, runs) && k < |runs| && i < |Utf16(runs[k].text)|
    ensures var at, m := |Utf16(PlainText(runs[..k]))| + i, runs[k].marks;
      at < |u| && u[at].code == Utf16(runs[k].text)[i] &&
      (IsOn(m, "bold") || IsOn(m, "italic") || IsOn(m, "strike") || LinkOf(m) != "" ==>
         (u[at].style.bold <==> IsOn(m, "bold")) && (u[at].style.italic <==> IsOn(m, "italic")) &&
         (u[at].style.strike <==> IsOn(m, "strike")) && u[at].style.link == LinkOf(m))
    decreases k
  {
    hide Utf16;
    var n := |Utf16(runs[0].text)|;
    if k == 0 {
      NoText();
      assert u[..n][i].code == Codes(u[..n])[i];
    } else {
      ShowsUnits(u[n..], runs[1..], k - 1, i);
      assert runs[..k][1..] == runs[1..][..k - 1];
      Utf16Append(runs[0].text, PlainText(runs[1..][..k - 1]));
      assert PlainText(runs[..k]) == runs[0].text + PlainText(runs[1..][..k - 1]);
    }
  }

  lemma NoText()
    ensures |Utf16(PlainText([]))| == 0
  {
  }

  /** The units of a code point, as section 2.2 of RFC 2781 reads them. */
  lemma CharDecodes(c: char)
    ensures var u := CharUnits(c);
      if |u| == 1 then u[0] == c as int < 0x10000
      else
        |u| == 2 && 0xD800 <= u[0] < 0xDC00 <= u[1] < 0xE000 &&
        c as int == 0x10000 + (u[0] - 0xD800) * 0x400 + (u[1] - 0xDC00)
  {
  }
}
