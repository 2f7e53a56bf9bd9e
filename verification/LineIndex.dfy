/** The line index of a text document, and the edits that go through it (vfs/document.go;
    vfs/rich.go, lineStartsOf). */
module LineIndex {
  import opened Messages
  import opened Sequences

  // ---------------------------------------------------------------------------------------------
  // Lines
  // ---------------------------------------------------------------------------------------------

  /** The pieces of a text between its newlines. */
  function Split(t: string): (s: seq<string>)
    ensures |s| > 0
  {
    if t == "" then [""]
    else
      var s, c := Split(t[..|t| - 1]), t[|t| - 1];
      if c == '\n' then s + [""] else s[..|s| - 1] + [s[|s| - 1] + [c]]
  }

  /** The lines of a document: an empty one has none. */
  function LinesOf(t: string): seq<string> {
    if t == "" then [] else Split(t)
  }

  function Join(lines: seq<string>): string {
    if lines == [] then "" else if |lines| == 1 then lines[0] else lines[0] + "\n" + Join(lines[1..])
  }

  /** Where line k starts when the lines are joined. */
  function StartAt(lines: seq<string>, k: nat): nat
    requires k <= |lines|
  {
    if k == 0 then 0 else StartAt(lines, k - 1) + |lines[k - 1]| + 1
  }

  predicate IsIndex(starts: seq<nat>, lines: seq<string>) {
    |starts| == |lines| && forall k :: 0 <= k < |lines| ==> starts[k] == StartAt(lines, k)
  }

  lemma {:induction false} JoinAppend(a: seq<string>, b: seq<string>)
    requires a != [] && b != []
    ensures Join(a + b) == Join(a) + "\n" + Join(b)
  {
    if |a| == 1 {
      assert (a + b)[1..] == b;
    } else {
      Uncons(a, b);
      JoinAppend(a[1..], b);
      assert a[0] + "\n" + (Join(a[1..]) + "\n" + Join(b)) == a[0] + "\n" + Join(a[1..]) + "\n" + Join(b);
    }
  }

  lemma JoinOne(x: string)
    ensures Join([x]) == x
  {
  }

  lemma {:induction false} JoinSplit(t: string)
    ensures Join(Split(t)) == t
  {
    if t != "" {
      var init, c := t[..|t| - 1], t[|t| - 1];
      var s := Split(init);
      assert t == init + [c];
      JoinSplit(init);
      if c == '\n' {
        JoinAppend(s, [""]);
      } else {
        JoinLastChar(s, c);
      }
    }
  }

  lemma JoinSnoc(a: seq<string>, x: string, c: char)
    ensures Join(a + [x + [c]]) == Join(a + [x]) + [c]
  {
    hide *;
    JoinOne(x);
    JoinOne(x + [c]);
    if a == [] {
      Empty([x]);
      Empty([x + [c]]);
    } else {
      JoinAppend(a, [x]);
      JoinAppend(a, [x + [c]]);
      Assoc(Join(a) + "\n", x, [c]);
    }
  }

  lemma JoinLastChar(s: seq<string>, c: char)
    requires s != []
    ensures Join(s[..|s| - 1] + [s[|s| - 1] + [c]]) == Join(s) + [c]
  {
    hide *;
    Snoc(s);
    JoinSnoc(s[..|s| - 1], s[|s| - 1], c);
  }

  /** The text of a document is its lines joined. */
  lemma JoinLines(t: string)
    ensures Join(LinesOf(t)) == t
  {
    JoinSplit(t);
  }

  predicate OneLine(x: string) {
    '\n' !in x
  }

  predicate OneLiners(lines: seq<string>) {
    forall x :: x in lines ==> OneLine(x)
  }

  lemma {:induction false} SplitOneLiners(t: string)
    ensures OneLiners(Split(t))
  {
    if t != "" {
      var s := Split(t[..|t| - 1]);
      SplitOneLiners(t[..|t| - 1]);
      assert s[|s| - 1] in s && forall x :: x in s[..|s| - 1] ==> x in s;
    }
  }

  lemma {:induction false} SplitJoin(lines: seq<string>)
    requires lines != [] && OneLiners(lines)
    ensures Split(Join(lines)) == lines
    decreases |lines|, |lines[|lines| - 1]|
  {
    var a, x := lines[..|lines| - 1], lines[|lines| - 1];
    assert lines == a + [x] && x in lines;
    if x != "" {
      var y, c := x[..|x| - 1], x[|x| - 1];
      assert x == y + [c];
      var less := a + [y];
      forall z | z in less ensures OneLine(z) { if z != y { assert z in lines; } }
      SplitJoin(less);
      assert less[..|less| - 1] == a && less[|less| - 1] == y;
      JoinLastChar(less, c);
      assert (Join(less) + [c])[..|Join(less)|] == Join(less);
      assert c in x;
    } else if a != [] {
      assert forall z :: z in a ==> z in lines;
      SplitJoin(a);
      JoinAppend(a, [""]);
      var t := Join(a) + "\n";
      assert Join(lines) == t && t[..|t| - 1] == Join(a);
    } else {
      assert lines == [""];
    }
  }

  /** Reading joined lines gives them back, but for a single empty line, which reads as none. */
  lemma LinesRoundTrip(lines: seq<string>)
    requires OneLiners(lines)
    ensures LinesOf(Join(lines)) == lines <==> lines != [""]
  {
    if lines != [] && lines != [""] {
      SplitJoin(lines);
      assert Join(lines) != "";
    }
  }

  // ---------------------------------------------------------------------------------------------
  // The index
  // ---------------------------------------------------------------------------------------------

  lemma {:induction false} StartPrefix(a: seq<string>, b: seq<string>, k: nat)
    requires k <= |a| && k <= |b| && a[..k] == b[..k]
    ensures StartAt(a, k) == StartAt(b, k)
    decreases k
  {
    if k > 0 {
      assert a[k - 1] == a[..k][k - 1] && b[k - 1] == b[..k][k - 1];
      assert a[..k - 1] == a[..k][..k - 1] && b[..k - 1] == b[..k][..k - 1];
      StartPrefix(a, b, k - 1);
    }
  }

  lemma {:induction false} JoinLength(lines: seq<string>)
    requires lines != []
    ensures |Join(lines)| + 1 == StartAt(lines, |lines|)
    decreases |lines|
  {
    var a, x := lines[..|lines| - 1], lines[|lines| - 1];
    assert lines == a + [x];
    if a == [] {
      assert StartAt(lines, 1) == StartAt(lines, 0) + |lines[0]| + 1;
    } else {
      JoinLength(a);
      JoinAppend(a, [x]);
      StartPrefix(lines, a, |a|);
    }
  }

  /** The text before and from the start of line k. */
  lemma TextAt(lines: seq<string>, k: nat)
    requires 0 < k < |lines|
    ensures var t := Join(lines);
      0 < StartAt(lines, k) <= |t| && t[..StartAt(lines, k) - 1] == Join(lines[..k]) &&
      t[..StartAt(lines, k)] == Join(lines[..k]) + "\n" && t[StartAt(lines, k)..] == Join(lines[k..])
  {
    var a, b := lines[..k], lines[k..];
    assert lines == a + b;
    JoinAppend(a, b);
    JoinLength(a);
    StartPrefix(lines, a, k);
  }

  method LineStartsOf(text: string) returns (starts: seq<nat>)
    ensures IsIndex(starts, LinesOf(text))
  {
    if text == "" {
      return [];
    }
    hide Split, StartAt, IsIndex;
    starts := [0];
    assert text[..0] == "";
    FirstLine();
    for i := 0 to |text|
      invariant IsIndex(starts, Split(text[..i]))
    {
      var was := text[..i];
      assert text[..i + 1] == was + [text[i]];
      IndexGrows(starts, was, text[i]);
      if text[i] == '\n' {
        starts := starts + [i + 1];
      }
    }
    assert text[..|text|] == text;
  }

  lemma FirstLine()
    ensures IsIndex([0], Split(""))
  {
  }

  lemma IndexGrows(starts: seq<nat>, was: string, c: char)
    requires IsIndex(starts, Split(was))
    ensures IsIndex(if c == '\n' then starts + [|was| + 1] else starts, Split(was + [c]))
  {
    var s := Split(was);
    SplitMore(was, c);
    hide Split, StartAt, IsIndex, Join;
    JoinSplit(was);
    JoinLength(s);
    if c == '\n' {
      AddLine(starts, s, |was| + 1);
    } else {
      LongerLine(starts, s, c);
    }
  }

  lemma SplitMore(was: string, c: char)
    ensures var s := Split(was);
      Split(was + [c]) == if c == '\n' then s + [""] else s[..|s| - 1] + [s[|s| - 1] + [c]]
  {
    assert (was + [c])[..|was|] == was;
  }

  lemma AddLine(starts: seq<nat>, s: seq<string>, at: nat)
    requires IsIndex(starts, s) && StartAt(s, |s|) == at
    ensures IsIndex(starts + [at], s + [""])
  {
    hide StartAt;
    forall k | 0 <= k <= |s| ensures StartAt(s + [""], k) == StartAt(s, k) {
      assert (s + [""])[..k] == s[..k];
      StartPrefix(s + [""], s, k);
    }
  }

  lemma LongerLine(starts: seq<nat>, s: seq<string>, c: char)
    requires IsIndex(starts, s) && s != []
    ensures IsIndex(starts, s[..|s| - 1] + [s[|s| - 1] + [c]])
  {
    hide StartAt;
    var now := s[..|s| - 1] + [s[|s| - 1] + [c]];
    forall k | 0 <= k < |s| ensures StartAt(now, k) == StartAt(s, k) {
      assert now[..k] == s[..k];
      StartPrefix(now, s, k);
    }
  }

  method LineAt(text: string, starts: seq<nat>, i: nat) returns (line: string)
    requires IsIndex(starts, LinesOf(text)) && i < |starts|
    ensures line == LinesOf(text)[i]
  {
    var lines := LinesOf(text);
    JoinLines(text);
    LineText(lines, i);
    var start := starts[i];
    if i + 1 < |starts| {
      return text[start..starts[i + 1] - 1];
    }
    line := text[start..];
  }

  lemma LineText(lines: seq<string>, i: nat)
    requires i < |lines|
    ensures var t := Join(lines);
      StartAt(lines, i) <= |t| &&
      if i + 1 < |lines| then
        StartAt(lines, i) <= StartAt(lines, i + 1) - 1 <= |t| && t[StartAt(lines, i)..StartAt(lines, i + 1) - 1] == lines[i]
      else t[StartAt(lines, i)..] == lines[i]
  {
    var t := Join(lines);
    assert t[0..] == t;
    if i > 0 { TextAt(lines, i); } else { assert lines[0..] == lines; }
    var rest := lines[i..];
    assert Join(rest) == t[StartAt(lines, i)..];
    if i + 1 < |lines| {
      assert rest[0] == lines[i] && Join(rest) == lines[i] + "\n" + Join(rest[1..]);
      assert t[StartAt(lines, i)..][..|lines[i]|] == lines[i];
    }
  }

  // ---------------------------------------------------------------------------------------------
  // Edits
  // ---------------------------------------------------------------------------------------------

  datatype LineError = OutOfRange | InvalidLine

  datatype Spliced = Spliced(text: string) | Failed(error: LineError)

  function EditedLines(lines: seq<string>, start: nat, end: nat, replacement: seq<string>): seq<string>
    requires 1 <= start <= end <= |lines| + 1
  {
    lines[..start - 1] + replacement + lines[end - 1..]
  }

  function SplicedText(lines: seq<string>, start: int, end: int, replacement: seq<string>): Spliced {
    if start < 1 || end < start || end > |lines| + 1 then Failed(OutOfRange)
    else if !OneLiners(replacement) then Failed(InvalidLine)
    else Spliced(Join(EditedLines(lines, start, end, replacement)))
  }

  lemma JoinParts(a: seq<string>, b: seq<string>)
    ensures Join(a + b) == Join(a) + (if a != [] && b != [] then "\n" else "") + Join(b)
  {
    if a == [] {
      assert a + b == b && "" + "" + Join(b) == Join(b);
    } else if b == [] {
      assert a + b == a && Join(a) + "" + "" == Join(a);
    } else {
      JoinAppend(a, b);
    }
  }

  method JoinLoop(lines: seq<string>) returns (text: string)
    ensures text == Join(lines)
  {
    text := "";
    for i := 0 to |lines|
      invariant text == Join(lines[..i])
    {
      assert lines[..i + 1] == lines[..i] + [lines[i]];
      JoinParts(lines[..i], [lines[i]]);
      if i > 0 {
        text := text + "\n";
      }
      text := text + lines[i];
    }
    assert lines[..|lines|] == lines;
  }

  method HasNewline(replacement: seq<string>) returns (bad: bool)
    ensures bad <==> !OneLiners(replacement)
  {
    for i := 0 to |replacement|
      invariant forall k :: 0 <= k < i ==> OneLine(replacement[k])
    {
      if '\n' in replacement[i] {
        assert replacement[i] in replacement;
        return true;
      }
    }
    bad := false;
  }

  method SpliceLines(text: string, starts: seq<nat>, start: int, end: int, replacement: seq<string>) returns (r: Spliced)
    requires IsIndex(starts, LinesOf(text))
    ensures r == SplicedText(LinesOf(text), start, end, replacement)
  {
    ghost var lines := LinesOf(text);
    JoinLines(text);
    var n := |starts|;
    if start < 1 || end < start || end > n + 1 {
      return Failed(OutOfRange);
    }
    var bad := HasNewline(replacement);
    if bad {
      return Failed(InvalidLine);
    }
    var buf := Splice(text, starts, lines, start, end, replacement);
    r := Spliced(buf);
  }

  method Splice(text: string, starts: seq<nat>, ghost lines: seq<string>, start: nat, end: nat, replacement: seq<string>)
    returns (buf: string)
    requires IsIndex(starts, lines) && text == Join(lines) && 1 <= start <= end <= |lines| + 1
    ensures buf == Join(EditedLines(lines, start, end, replacement))
  {
    hide Join, StartAt;
    if |starts| == 0 {
      buf := JoinLoop(replacement);
      assert EditedLines(lines, start, end, replacement) == replacement;
      return;
    }
    var prefixLines := start - 1;
    var suffixLines := |starts| - (end - 1);
    ghost var before, after := lines[..prefixLines], lines[end - 1..];
    var moreAfterPrefix := |replacement| > 0 || suffixLines > 0;
    buf := Prefix(text, starts, lines, prefixLines, moreAfterPrefix);
    var joined := JoinLoop(replacement);
    buf := buf + joined;
    ghost var head := buf;
    if suffixLines > 0 {
      if |replacement| > 0 {
        buf := buf + "\n";
      }
      SuffixText(text, lines, end - 1);
      buf := buf + text[starts[end - 1]..];
      if |replacement| > 0 { Assoc(head, "\n", Join(after)); } else { Empty(Join(after)); }
    } else {
      Empty(head);
    }
    Assemble(before, replacement, after, buf);
  }

  /** The lines before an edit, with the newline after them when something follows. */
  method Prefix(text: string, starts: seq<nat>, ghost lines: seq<string>, k: nat, more: bool) returns (buf: string)
    requires IsIndex(starts, lines) && text == Join(lines) && k <= |lines|
    ensures buf == Join(lines[..k]) + if k > 0 && more then "\n" else ""
  {
    buf := "";
    if k > 0 {
      if k == |starts| {
        assert lines[..k] == lines;
        buf := buf + text;
        if more {
          buf := buf + "\n";
        }
      } else {
        TextAt(lines, k);
        if more {
          buf := buf + text[..starts[k]];
        } else {
          buf := buf + text[..starts[k] - 1];
        }
      }
    }
  }

  lemma SuffixText(text: string, lines: seq<string>, k: nat)
    requires text == Join(lines) && k < |lines|
    ensures StartAt(lines, k) <= |text| && text[StartAt(lines, k)..] == Join(lines[k..])
  {
    if k > 0 { TextAt(lines, k); } else { assert lines[0..] == lines && text[0..] == text; }
  }

  lemma Assemble(before: seq<string>, middle: seq<string>, after: seq<string>, buf: string)
    requires buf == (Join(before) + (if before != [] && (middle != [] || after != []) then "\n" else "")) + Join(middle)
                    + (if after != [] then (if middle != [] then "\n" else "") + Join(after) else "")
    ensures buf == Join(before + middle + after)
  {
    JoinParts(before, middle + after);
    JoinParts(middle, after);
    Assoc(before, middle, after);
    JoinNothing();
    hide Join;
    var sep, rest := if before != [] && (middle != [] || after != []) then "\n" else "", if middle != [] && after != [] then "\n" else "";
    if after == [] {
      Empty(Join(middle));
      Empty(Join(middle) + rest);
      Empty(Join(before) + sep + Join(middle));
    } else {
      Assoc(Join(middle), rest, Join(after));
      Assoc(Join(before) + sep, Join(middle), rest + Join(after));
      if middle == [] { Empty(Join(after)); }
    }
  }

  lemma JoinNothing()
    ensures Join([]) == ""
  {
  }

  class TextBody {
    var payload: string
    var starts: seq<nat>

    ghost predicate Valid()
      reads this
    {
      IsIndex(starts, LinesOf(payload))
    }

    constructor (text: string)
      ensures Valid() && payload == text
    {
      var index := LineStartsOf(text);
      payload := text;
      starts := index;
    }

    method SetText(text: string)
      modifies this
      ensures Valid() && payload == text
    {
      payload := text;
      starts := LineStartsOf(text);
    }

    /** Lines start to end - 1, counted from 1. */
    method Lines(start: int, end: int) returns (r: Option<seq<string>>)
      requires Valid()
      ensures r == if start < 1 || end < start || end > |LinesOf(payload)| + 1 then None
                   else Some(LinesOf(payload)[start - 1..end - 1])
    {
      var n := |starts|;
      if start < 1 || end < start || end > n + 1 {
        return None;
      }
      var out: seq<string> := [];
      for i := 0 to end - start
        invariant out == LinesOf(payload)[start - 1..start - 1 + i]
      {
        var line := LineAt(payload, starts, start - 1 + i);
        out := out + [line];
      }
      r := Some(out);
    }

    /** An error leaves the text as it was. */
    method ReplaceLines(start: int, end: int, replacement: seq<string>) returns (err: Option<LineError>)
      requires Valid()
      modifies this
      ensures Valid()
      ensures match SplicedText(LinesOf(old(payload)), start, end, replacement) {
        case Failed(e) => err == Some(e) && payload == old(payload)
        case Spliced(t) => err == None && payload == t
      }
    {
      var s := SpliceLines(payload, starts, start, end, replacement);
      if s.Failed? {
        return Some(s.error);
      }
      SetText(s.text);
      err := None;
    }
  }

  // ---------------------------------------------------------------------------------------------
  // Edits as the list view sees them
  // ---------------------------------------------------------------------------------------------

  lemma OneEmptyLine()
    ensures LinesOf(Join([""])) == []
  {
  }

  lemma LinesOneLiners(text: string)
    ensures OneLiners(LinesOf(text))
  {
    hide Split, OneLine;
    SplitOneLiners(text);
  }

  lemma PartOneLiners(lines: seq<string>, start: nat, end: nat)
    requires OneLiners(lines) && 1 <= start <= end <= |lines| + 1
    ensures OneLiners(lines[start - 1..end - 1])
  {
    hide OneLine;
    assert forall x :: x in lines[start - 1..end - 1] ==> x in lines;
  }

  lemma EditedSame(lines: seq<string>, start: nat, end: nat)
    requires 1 <= start <= end <= |lines| + 1
    ensures EditedLines(lines, start, end, lines[start - 1..end - 1]) == lines
  {
  }

  lemma EditedOneLiners(lines: seq<string>, start: nat, end: nat, replacement: seq<string>)
    requires OneLiners(lines) && OneLiners(replacement) && 1 <= start <= end <= |lines| + 1
    ensures OneLiners(EditedLines(lines, start, end, replacement))
  {
    hide OneLine;
    forall x | x in EditedLines(lines, start, end, replacement) ensures OneLine(x) {
      assert x in lines || x in replacement;
    }
  }

  /** An edit of a document is the edit of its list of lines, unless one empty line is left. */
  lemma EditIsListEdit(text: string, start: nat, end: nat, replacement: seq<string>)
    requires 1 <= start <= end <= |LinesOf(text)| + 1 && OneLiners(replacement)
    ensures var edited := EditedLines(LinesOf(text), start, end, replacement);
      LinesOf(SplicedText(LinesOf(text), start, end, replacement).text) == (if edited == [""] then [] else edited)
  {
    hide LinesOf, Join, OneLiners;
    var lines := LinesOf(text);
    LinesOneLiners(text);
    EditedOneLiners(lines, start, end, replacement);
    LinesRoundTrip(EditedLines(lines, start, end, replacement));
    OneEmptyLine();
  }

  /** Replacing lines by themselves changes nothing. */
  lemma ReplaceByItself(text: string, start: nat, end: nat)
    requires 1 <= start <= end <= |LinesOf(text)| + 1
    ensures SplicedText(LinesOf(text), start, end, LinesOf(text)[start - 1..end - 1]) == Spliced(text)
  {
    hide LinesOf, Join, OneLiners;
    var lines := LinesOf(text);
    LinesOneLiners(text);
    PartOneLiners(lines, start, end);
    EditedSame(lines, start, end);
    JoinLines(text);
  }
}
