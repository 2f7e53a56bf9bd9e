/** Cutting the largest results of a round until it fits (window.go, trim). */
module WindowTrim {
  import opened Messages
  import opened ContextWindow
  import opened Numerals
  import opened Sequences

  // ---------------------------------------------------------------------------------------------
  // UTF-8 (section 3 of RFC 3629): a cut never splits a character
  // ---------------------------------------------------------------------------------------------

  /** Whether a character can start at this byte: it is not a continuation byte. */
  predicate RuneStart(b: char) {
    !('\U{80}' <= b <= '\U{BF}')
  }

  predicate Continues(s: Bytes, from: nat, to: nat) {
    to <= |s| && forall i :: from <= i < to ==> !RuneStart(s[i])
  }

  /** The length of the character that starts s, or 0 when none does. */
  function RuneLength(s: Bytes): (n: nat)
    ensures n <= |s|
    ensures n > 0 ==> RuneStart(s[0]) && Continues(s, 1, n)
  {
    if s == "" then 0
    else if s[0] < '\U{80}' then 1
    else if '\U{C2}' <= s[0] <= '\U{DF}' && Continues(s, 1, 2) then 2
    else if '\U{E0}' <= s[0] <= '\U{EF}' && Continues(s, 1, 3) &&
            (s[0] == '\U{E0}' ==> s[1] >= '\U{A0}') && (s[0] == '\U{ED}' ==> s[1] <= '\U{9F}') then 3
    else if '\U{F0}' <= s[0] <= '\U{F4}' && Continues(s, 1, 4) &&
            (s[0] == '\U{F0}' ==> s[1] >= '\U{90}') && (s[0] == '\U{F4}' ==> s[1] <= '\U{8F}') then 4
    else 0
  }

  predicate WellFormed(s: Bytes)
    decreases |s|
  {
    s == "" || (RuneLength(s) > 0 && WellFormed(s[RuneLength(s)..]))
  }

  predicate Aligned(s: Bytes, k: nat) {
    k <= |s| && (k == 0 || k == |s| || RuneStart(s[k]))
  }

  /** An aligned prefix of well-formed UTF-8 is well-formed. */
  lemma {:induction false} AlignedPrefix(s: Bytes, k: nat)
    requires WellFormed(s) && Aligned(s, k)
    ensures WellFormed(s[..k])
    decreases k
  {
    if k > 0 {
      var n := RuneLength(s);
      assert n <= k;
      RuneLengthPrefix(s, k);
      assert s[n..][..k - n] == s[..k][n..];
      assert k - n < |s[n..]| ==> s[n..][k - n] == s[k];
      AlignedPrefix(s[n..], k - n);
    }
  }

  lemma RuneLengthPrefix(s: Bytes, k: nat)
    requires 0 < RuneLength(s) <= k <= |s|
    ensures RuneLength(s[..k]) == RuneLength(s)
  {
    var n := RuneLength(s);
    assert Continues(s[..k], 1, n);
  }

  /** The bytes of a code point (section 3 of RFC 3629). */
  function Encoded(c: char): Bytes {
    var p := c as int;
    if p < 0x80 then [p as char]
    else if p < 0x800 then [(0xC0 + p / 64) as char, (0x80 + p % 64) as char]
    else if p < 0x10000 then [(0xE0 + p / 64 / 64) as char, (0x80 + p / 64 % 64) as char, (0x80 + p % 64) as char]
    else
      [(0xF0 + p / 64 / 64 / 64) as char, (0x80 + p / 64 / 64 % 64) as char, (0x80 + p / 64 % 64) as char, (0x80 + p % 64) as char]
  }

  /** A code point's bytes are read as one character, wherever it stands. */
  lemma ReadsEncoded(c: char, rest: Bytes)
    ensures RuneLength(Encoded(c) + rest) == |Encoded(c)|
    ensures RuneStart(Encoded(c)[0]) && forall i :: 0 < i < |Encoded(c)| ==> !RuneStart(Encoded(c)[i])
  {
    var e := Encoded(c);
    assert forall i :: 0 <= i < |e| ==> (e + rest)[i] == e[i];
  }

  lemma Digits(q: nat, r: nat)
    requires r < 64
    ensures (q * 64 + r) / 64 == q && (q * 64 + r) % 64 == r
  {
  }

  /** The number that continuation bytes make with what the first byte gives. */
  function Joined(high: nat, s: Bytes): nat {
    if s == "" then high else Joined(high, s[..|s| - 1]) * 64 + s[|s| - 1] as int % 64
  }

  lemma JoinedTwo(high: nat, s: Bytes)
    requires |s| == 1 && 0x80 <= s[0] as int < 0xC0
    ensures var p := Joined(high, s); p == high * 64 + (s[0] as int - 0x80) && p / 64 == high && p % 64 == s[0] as int - 0x80
  {
    assert s[..0] == "";
    Digits(high, s[0] as int - 0x80);
  }

  lemma JoinedMore(high: nat, s: Bytes, b: char)
    requires 0x80 <= b as int < 0xC0
    ensures var p, q := Joined(high, s + [b]), Joined(high, s);
      p == q * 64 + (b as int - 0x80) && p / 64 == q && p % 64 == b as int - 0x80
  {
    assert (s + [b])[..|s|] == s;
    Digits(Joined(high, s), b as int - 0x80);
  }

  /** And whatever is read as one character is the bytes of a code point. */
  lemma ReadIsEncoded(s: Bytes) returns (c: char)
    requires RuneLength(s) > 0
    ensures s[..RuneLength(s)] == Encoded(c)
  {
    var n := RuneLength(s);
    if n == 1 {
      c := s[0];
    } else if n == 2 {
      c := ReadTwo(s);
    } else if n == 3 {
      c := ReadThree(s);
    } else {
      c := ReadFour(s);
    }
  }

  lemma ReadTwo(s: Bytes) returns (c: char)
    requires RuneLength(s) == 2
    ensures s[..2] == Encoded(c)
  {
    var high := s[0] as int - 0xC0;
    assert !RuneStart(s[1]);
    hide RuneLength, Joined;
    JoinedTwo(high, [s[1]]);
    c := Joined(high, [s[1]]) as char;
  }

  lemma ReadThree(s: Bytes) returns (c: char)
    requires RuneLength(s) == 3
    ensures s[..3] == Encoded(c)
  {
    var high := s[0] as int - 0xE0;
    assert !RuneStart(s[1]) && !RuneStart(s[2]);
    assert 0 <= high < 16 && (high == 0 ==> s[1] as int >= 0xA0) && (high == 13 ==> s[1] as int <= 0x9F);
    hide RuneLength, Joined;
    JoinedTwo(high, [s[1]]);
    JoinedMore(high, [s[1]], s[2]);
    c := Joined(high, [s[1]] + [s[2]]) as char;
  }

  lemma ReadFour(s: Bytes) returns (c: char)
    requires RuneLength(s) == 4
    ensures s[..4] == Encoded(c)
  {
    var high := s[0] as int - 0xF0;
    assert !RuneStart(s[1]) && !RuneStart(s[2]) && !RuneStart(s[3]);
    assert 0 <= high <= 4 && (high == 0 ==> s[1] as int >= 0x90) && (high == 4 ==> s[1] as int <= 0x8F);
    hide RuneLength, Joined;
    JoinedTwo(high, [s[1]]);
    JoinedMore(high, [s[1]], s[2]);
    JoinedMore(high, [s[1]] + [s[2]], s[3]);
    c := Joined(high, [s[1]] + [s[2]] + [s[3]]) as char;
  }

  /** The greatest aligned position at or before keep. */
  method AlignDown(s: Bytes, keep: nat) returns (k: nat)
    requires keep < |s|
    ensures k <= keep && Aligned(s, k) && forall j :: k < j <= keep ==> !Aligned(s, j)
  {
    k := keep;
    while k > 0 && !RuneStart(s[k])
      invariant k <= keep
      invariant forall j :: k < j <= keep ==> !Aligned(s, j)
    {
      k := k - 1;
    }
  }

  // ---------------------------------------------------------------------------------------------
  // A cut result
  // ---------------------------------------------------------------------------------------------

  /** The note that ends a cut result: how much of it is left, and where the full output is. */
  function TruncationNote(kept: nat, total: nat, path: Bytes): Bytes {
    "\n\n[Output truncated to fit the context window: kept the first " + Decimal(kept) + " of " + Decimal(total) +
    if path == "" then " bytes. The full output was not kept.]"
    else " bytes. The full output is at " + path + "; read it with start and end.]"
  }

  /** How much of a result is kept, and where its full text went ("" when nothing keeps it). */
  datatype Cut = Cut(keep: nat, path: Bytes)

  function CutTo(m: Message, c: Cut): Message
    requires c.keep <= |m.content|
  {
    m.(content := m.content[..c.keep] + TruncationNote(c.keep, |m.content|, c.path))
  }

  /** A cut result starts with what is left of it; the note after that says how much it was, how much
      is left, and where the full text is when something keeps it. */
  lemma CutSays(m: Message, c: Cut)
    requires c.keep <= |m.content|
    ensures var r := CutTo(m, c).content;
      r[..c.keep] == m.content[..c.keep] &&
      (exists a: Bytes, b: Bytes :: r[c.keep..] == a + Decimal(c.keep) + " of " + Decimal(|m.content|) + b) &&
      (c.path != "" ==> exists a: Bytes, b: Bytes :: r[c.keep..] == a + c.path + b)
  {
    hide Decimal;
    var r, note := CutTo(m, c).content, TruncationNote(c.keep, |m.content|, c.path);
    var head := "\n\n[Output truncated to fit the context window: kept the first ";
    var tail := if c.path == "" then " bytes. The full output was not kept.]"
      else " bytes. The full output is at " + c.path + "; read it with start and end.]";
    assert r[..c.keep] == m.content[..c.keep] && r[c.keep..] == note;
    HasCounts(note, head, Decimal(c.keep), Decimal(|m.content|), tail);
    if c.path != "" {
      var front := head + Decimal(c.keep) + " of " + Decimal(|m.content|);
      Assoc(front, " bytes. The full output is at " + c.path, "; read it with start and end.]");
      Assoc(front, " bytes. The full output is at ", c.path);
      HasPath(note, front + " bytes. The full output is at ", c.path, "; read it with start and end.]");
    }
  }

  lemma HasCounts(note: Bytes, head: Bytes, x: Bytes, y: Bytes, tail: Bytes)
    requires note == head + x + " of " + y + tail
    ensures exists a: Bytes, b: Bytes :: note == a + x + " of " + y + b
  {
  }

  lemma HasPath(note: Bytes, head: Bytes, path: Bytes, tail: Bytes)
    requires note == head + path + tail
    ensures exists a: Bytes, b: Bytes :: note == a + path + b
  {
  }

  /** Only results are cut, each to an aligned proper prefix. */
  predicate ValidCuts(round: seq<Message>, cuts: map<nat, Cut>) {
    forall i :: i in cuts ==>
      i < |round| && round[i].role == Tool && cuts[i].keep < |round[i].content| && Aligned(round[i].content, cuts[i].keep)
  }

  function CutAll(round: seq<Message>, cuts: map<nat, Cut>): seq<Message>
    requires ValidCuts(round, cuts)
  {
    seq(|round|, i requires 0 <= i < |round| => if i in cuts then CutTo(round[i], cuts[i]) else round[i])
  }

  /** A full result that was stored, whose it is, and where it went. */
  datatype Kept = Kept(callId: string, text: Bytes, path: Bytes)

  function KeptOf(round: seq<Message>, cuts: map<nat, Cut>, order: seq<nat>): seq<Kept>
    requires forall j :: 0 <= j < |order| ==> order[j] in cuts && order[j] < |round|
  {
    seq(|order|, j requires 0 <= j < |order| =>
      Kept(round[order[j]].toolCallId, round[order[j]].content, cuts[order[j]].path))
  }

  /** after is round under cuts, and log the full text of each cut result, exactly once, in the
      order of the first cuts. */
  ghost predicate Trimmed(round: seq<Message>, after: seq<Message>, cuts: map<nat, Cut>, log: seq<Kept>) {
    ValidCuts(round, cuts) && after == CutAll(round, cuts) &&
    exists order: seq<nat> :: Orders(order, cuts) && log == KeptOf(round, cuts, order)
  }

  ghost predicate Orders(order: seq<nat>, cuts: map<nat, Cut>) {
    (forall i, j :: 0 <= i < j < |order| ==> order[i] != order[j]) &&
    (forall j :: 0 <= j < |order| ==> order[j] in cuts) && (forall i :: i in cuts ==> i in order)
  }

  lemma TrimmedFrame(round: seq<Message>, after: seq<Message>, cuts: map<nat, Cut>, log: seq<Kept>)
    requires Trimmed(round, after, cuts, log)
    ensures |after| == |round| && forall i :: 0 <= i < |round| ==> SameFrame(round[i], after[i])
    ensures forall i :: 0 <= i < |round| ==> Left(round, cuts, i) <= |round[i].content|
    ensures ValidCuts(round, cuts) && after == CutAll(round, cuts)
  {
  }

  lemma TrimmedNone(round: seq<Message>)
    ensures Trimmed(round, round, map[], [])
  {
    assert Orders([], map[]);
    assert KeptOf(round, map[], []) == [];
    assert CutAll(round, map[]) == round;
  }

  lemma CutAllPass(round: seq<Message>, cuts: map<nat, Cut>, i: nat, c: Cut)
    requires ValidCuts(round, cuts) && ValidCuts(round, cuts[i := c]) && i < |round|
    ensures CutAll(round, cuts[i := c]) == CutAll(round, cuts)[i := CutTo(round[i], c)]
  {
    hide CutTo;
  }

  lemma OrdersSame(order: seq<nat>, cuts: map<nat, Cut>, i: nat, c: Cut)
    requires Orders(order, cuts) && i in cuts
    ensures Orders(order, cuts[i := c])
  {
  }

  lemma OrdersMore(order: seq<nat>, cuts: map<nat, Cut>, i: nat, c: Cut)
    requires Orders(order, cuts) && i !in cuts
    ensures Orders(order + [i], cuts[i := c])
  {
    forall k | k in cuts[i := c] ensures k in order + [i] {
      if k != i { assert k in order; }
    }
  }

  lemma KeptSame(round: seq<Message>, cuts: map<nat, Cut>, order: seq<nat>, i: nat, c: Cut)
    requires ValidCuts(round, cuts) && Orders(order, cuts) && i in cuts && c.path == cuts[i].path
    ensures KeptOf(round, cuts[i := c], order) == KeptOf(round, cuts, order)
  {
  }

  lemma KeptMore(round: seq<Message>, cuts: map<nat, Cut>, order: seq<nat>, i: nat, c: Cut)
    requires ValidCuts(round, cuts) && Orders(order, cuts) && i !in cuts && i < |round|
    ensures KeptOf(round, cuts[i := c], order + [i]) == KeptOf(round, cuts, order) + [Kept(round[i].toolCallId, round[i].content, c.path)]
  {
  }

  lemma OrderPass(round: seq<Message>, cuts: map<nat, Cut>, order: seq<nat>, i: nat, c: Cut) returns (next: seq<nat>)
    requires ValidCuts(round, cuts) && ValidCuts(round, cuts[i := c]) && i < |round|
    requires Orders(order, cuts) && (i in cuts ==> c.path == cuts[i].path)
    ensures Orders(next, cuts[i := c])
    ensures KeptOf(round, cuts[i := c], next) == KeptOf(round, cuts, order) +
              if i in cuts then [] else [Kept(round[i].toolCallId, round[i].content, c.path)]
  {
    hide KeptOf;
    if i in cuts {
      next := order;
      OrdersSame(order, cuts, i, c);
      KeptSame(round, cuts, order, i, c);
      Empty(KeptOf(round, cuts, order));
    } else {
      next := order + [i];
      OrdersMore(order, cuts, i, c);
      KeptMore(round, cuts, order, i, c);
    }
  }

  /** One pass: result i is cut to c; its full text was stored now when this is its first cut. */
  lemma TrimmedPass(round: seq<Message>, after: seq<Message>, cuts: map<nat, Cut>, log: seq<Kept>, i: nat, c: Cut)
    requires Trimmed(round, after, cuts, log)
    requires i < |round| && round[i].role == Tool && c.keep < |round[i].content| && Aligned(round[i].content, c.keep)
    requires i in cuts ==> c.path == cuts[i].path
    ensures Trimmed(round, after[i := CutTo(round[i], c)], cuts[i := c],
                    log + if i in cuts then [] else [Kept(round[i].toolCallId, round[i].content, c.path)])
  {
    hide CutTo, CutAll, KeptOf;
    var order :| Orders(order, cuts) && log == KeptOf(round, cuts, order);
    CutAllPass(round, cuts, i, c);
    var next := OrderPass(round, cuts, order, i, c);
  }

  // ---------------------------------------------------------------------------------------------
  // The passes
  // ---------------------------------------------------------------------------------------------

  /** keep is the last position up to goal where a character starts. */
  predicate Nearest(s: Bytes, goal: nat, keep: nat) {
    keep <= goal && Aligned(s, keep) && forall j :: keep < j <= goal ==> !Aligned(s, j)
  }

  /** Result i has the most left of all, the first of several. */
  predicate IsLargest(round: seq<Message>, cuts: map<nat, Cut>, i: nat) {
    i < |round| && round[i].role == Tool && Left(round, cuts, i) > 0 &&
    (forall j :: 0 <= j < |round| && round[j].role == Tool ==> Left(round, cuts, j) <= Left(round, cuts, i)) &&
    forall j :: 0 <= j < i && round[j].role == Tool ==> Left(round, cuts, j) < Left(round, cuts, i)
  }

  predicate NothingLeft(round: seq<Message>, cuts: map<nat, Cut>) {
    forall i :: 0 <= i < |round| && round[i].role == Tool ==> Left(round, cuts, i) == 0
  }

  /** One pass when the request takes n and the window holds size: what is left of the largest result is
      scaled by size / n, and cut where a character starts. */
  predicate Pass(round: seq<Message>, cuts: map<nat, Cut>, i: nat, n: nat, size: nat, next: map<nat, Cut>) {
    n > size && IsLargest(round, cuts, i) && i in next && next == cuts[i := next[i]] &&
    Nearest(round[i].content, Left(round, cuts, i) * size / n, next[i].keep)
  }

  /** The cuts before and after every pass, what the request took with them, and the results cut. */
  datatype Trace = Trace(cuts: seq<map<nat, Cut>>, sizes: seq<nat>, at: seq<nat>)

  /** From no cuts to these, pass by pass. */
  predicate Passes(round: seq<Message>, size: nat, t: Trace, cuts: map<nat, Cut>) {
    |t.cuts| == |t.sizes| == |t.at| + 1 && t.cuts[0] == map[] && t.cuts[|t.at|] == cuts &&
    forall k :: 0 <= k < |t.at| ==> Pass(round, t.cuts[k], t.at[k], t.sizes[k], size, t.cuts[k + 1])
  }

  lemma PassesNone(round: seq<Message>, size: nat, n: nat)
    ensures Passes(round, size, Trace([map[]], [n], []), map[])
  {
  }

  lemma PassesMore(round: seq<Message>, size: nat, t: Trace, cuts: map<nat, Cut>, i: nat, next: map<nat, Cut>, n: nat)
    requires Passes(round, size, t, cuts) && Pass(round, cuts, i, t.sizes[|t.at|], size, next)
    ensures Passes(round, size, Trace(t.cuts + [next], t.sizes + [n], t.at + [i]), next)
  {
    hide Pass;
    var u := Trace(t.cuts + [next], t.sizes + [n], t.at + [i]);
    forall k | 0 <= k < |u.at| ensures Pass(round, u.cuts[k], u.at[k], u.sizes[k], size, u.cuts[k + 1]) {
      if k < |t.at| { assert Pass(round, t.cuts[k], t.at[k], t.sizes[k], size, t.cuts[k + 1]); }
    }
  }

  lemma PassesSizes(round: seq<Message>, size: nat, t: Trace, cuts: map<nat, Cut>)
    requires Passes(round, size, t, cuts)
    ensures |t.cuts| == |t.sizes| == |t.at| + 1
  {
  }

  /** There are no cuts exactly when there was no pass. */
  lemma PassesCut(round: seq<Message>, size: nat, t: Trace, cuts: map<nat, Cut>)
    requires Passes(round, size, t, cuts)
    ensures cuts == map[] <==> t.at == []
  {
    if t.at != [] {
      var k := |t.at| - 1;
      assert Pass(round, t.cuts[k], t.at[k], t.sizes[k], size, t.cuts[k + 1]);
    }
  }

  // ---------------------------------------------------------------------------------------------
  // The measure: the bytes of the results that are left
  // ---------------------------------------------------------------------------------------------

  function Left(round: seq<Message>, cuts: map<nat, Cut>, i: nat): nat
    requires i < |round|
  {
    if i in cuts then cuts[i].keep else |round[i].content|
  }

  function TotalLeft(round: seq<Message>, cuts: map<nat, Cut>, from: nat): nat
    requires from <= |round|
    decreases |round| - from
  {
    if from == |round| then 0 else Left(round, cuts, from) + TotalLeft(round, cuts, from + 1)
  }

  lemma LargestLeft(round: seq<Message>, after: seq<Message>, cuts: map<nat, Cut>, log: seq<Kept>, i: nat)
    requires Trimmed(round, after, cuts, log) && IsLargest(round, cuts, i)
    ensures i < |round| == |after| && 0 < Left(round, cuts, i) <= |round[i].content|
  {
    hide Trimmed;
    TrimmedFrame(round, after, cuts, log);
  }

  /** A pass cuts the largest result to the nearest boundary: less is left, and the rest is trimmed. */
  lemma PassDone(round: seq<Message>, after: seq<Message>, cuts: map<nat, Cut>, log: seq<Kept>, i: nat, c: Cut,
                 stored: seq<Kept>, n: nat, size: nat)
    requires Trimmed(round, after, cuts, log) && IsLargest(round, cuts, i) && n > size
    requires c.keep < Left(round, cuts, i) && Nearest(round[i].content, Left(round, cuts, i) * size / n, c.keep)
    requires if i in cuts then c.path == cuts[i].path && stored == []
             else stored == [Kept(round[i].toolCallId, round[i].content, c.path)]
    ensures Trimmed(round, CutAll(round, cuts), cuts, log) && after == CutAll(round, cuts)
    ensures c.keep <= |round[i].content| && |after| == |round|
    ensures var next, out := cuts[i := c], after[i := CutTo(round[i], c)];
      Trimmed(round, out, next, log + stored) && ValidCuts(round, next) && out == CutAll(round, next) &&
      TotalLeft(round, next, 0) < TotalLeft(round, cuts, 0) && Pass(round, cuts, i, n, size, next)
  {
    hide Trimmed, CutAll, CutTo, ValidCuts, Aligned, TotalLeft;
    TrimmedFrame(round, after, cuts, log);
    TrimmedPass(round, after, cuts, log, i, c);
    TotalFalls(round, cuts, i, c, 0);
    TrimmedFrame(round, after[i := CutTo(round[i], c)], cuts[i := c], log + stored);
  }

  lemma {:induction false} TotalFalls(round: seq<Message>, cuts: map<nat, Cut>, i: nat, c: Cut, from: nat)
    requires from <= |round| && i < |round|
    ensures TotalLeft(round, cuts[i := c], from) + (if from <= i then Left(round, cuts, i) else 0)
         == TotalLeft(round, cuts, from) + (if from <= i then c.keep else 0)
    decreases |round| - from
  {
    if from < |round| {
      TotalFalls(round, cuts, i, c, from + 1);
    }
  }
}
