/** The parts of a tree write: their content-derived ids (brain/tree.go) and the batches they are
    embedded in (brain/embed.go). */
module TreeParts {
  import opened Messages
  import opened Sequences

  type Id = string

  /** What a part's row and index depend on, except its place in the tree. */
  datatype Fields = Fields(kind: string, contentType: string, title: string, summary: string, content: string)

  /** A named isolation attribute, and the ordered attributes of a row or a scope; the first is the
      tenant. */
  datatype Attr = Attr(name: string, value: string)

  type Namespace = seq<Attr>

  datatype Object = Object(id: Id, parentId: Option<Id>, namespace: Namespace, readers: seq<string>, fields: Fields,
                           position: Option<int>, properties: map<string, string>, model: string, deleted: bool)

  /** An object and its index text. */
  datatype Indexed = Indexed(row: Object, text: string)

  // ---------------------------------------------------------------------------------------------
  // Ids from content
  // ---------------------------------------------------------------------------------------------

  const WORD: nat := 8

  function Span(w: nat): (p: nat)
    ensures p > 0
  {
    if w == 0 then 1 else 256 * Span(w - 1)
  }

  /** n in w bytes, the highest first; what does not fit is cut off. */
  function BigEndian(n: nat, w: nat): (b: Bytes)
    ensures |b| == w
  {
    if w == 0 then "" else BigEndian(n / 256, w - 1) + [(n % 256) as char]
  }

  lemma {:induction false} BigEndianInjective(a: nat, b: nat, w: nat)
    requires a < Span(w) && b < Span(w) && BigEndian(a, w) == BigEndian(b, w)
    ensures a == b
  {
    if w > 0 {
      var x, y := BigEndian(a, w), BigEndian(b, w);
      assert x[..w - 1] == BigEndian(a / 256, w - 1) && y[..w - 1] == BigEndian(b / 256, w - 1);
      assert x[w - 1] == (a % 256) as char && y[w - 1] == (b % 256) as char;
      BigEndianInjective(a / 256, b / 256, w - 1);
    }
  }

  /** Each string after its length. */
  function Frame(ss: seq<string>): Bytes {
    if ss == [] then "" else BigEndian(|ss[0]|, WORD) + ss[0] + Frame(ss[1..])
  }

  predicate Short(ss: seq<string>) {
    forall s :: s in ss ==> |s| < Span(WORD)
  }

  lemma SplitSame(x: Bytes, u: Bytes, y: Bytes, v: Bytes)
    requires x + u == y + v && |x| == |y|
    ensures x == y && u == v
  {
    assert x == (x + u)[..|x|] == (y + v)[..|y|] == y;
    assert u == (x + u)[|x|..] == (y + v)[|y|..] == v;
  }

  /** No text can pass for another by moving a byte across a border. */
  lemma {:induction false} FrameInjective(a: seq<string>, b: seq<string>)
    requires |a| == |b| && Short(a) && Short(b) && Frame(a) == Frame(b)
    ensures a == b
  {
    hide BigEndian, Span;
    if a != [] {
      assert a[0] in a && b[0] in b;
      var x, y := BigEndian(|a[0]|, WORD), BigEndian(|b[0]|, WORD);
      var u, v := Frame(a[1..]), Frame(b[1..]);
      assert x + a[0] + u == x + (a[0] + u) && y + b[0] + v == y + (b[0] + v);
      SplitSame(x, a[0] + u, y, b[0] + v);
      BigEndianInjective(|a[0]|, |b[0]|, WORD);
      SplitSame(a[0], u, b[0], v);
      assert Short(a[1..]) && Short(b[1..]);
      FrameInjective(a[1..], b[1..]);
      assert a == [a[0]] + a[1..] && b == [b[0]] + b[1..];
    }
  }

  /** SHA-256, and the id of the n-th part with a digest under a parent. */
  datatype Hash<!D(==)> = Hash(sha: Bytes -> D, part: (Id, D, nat) -> Id)

  /** No two inputs hash alike, and no part has its parent's id or none. */
  ghost predicate CollisionFree<D(!new)>(h: Hash<D>) {
    (forall a: Bytes, b: Bytes :: h.sha(a) == h.sha(b) ==> a == b) &&
    (forall p: Id, d: D, n: nat, q: Id, e: D, m: nat :: h.part(p, d, n) == h.part(q, e, m) ==> p == q && d == e && n == m) &&
    (forall p: Id, d: D, n: nat :: h.part(p, d, n) != p && h.part(p, d, n) != "")
  }

  function Strings(f: Fields, text: string): seq<string> {
    [f.kind, f.contentType, f.title, f.summary, f.content, text]
  }

  function Digest<D>(h: Hash<D>, f: Fields, text: string): D {
    h.sha(Frame(Strings(f, text)))
  }

  lemma DigestInjective<D(!new)>(h: Hash<D>, f: Fields, s: string, g: Fields, t: string)
    requires CollisionFree(h) && Short(Strings(f, s)) && Short(Strings(g, t)) && Digest(h, f, s) == Digest(h, g, t)
    ensures f == g && s == t
  {
    FrameInjective(Strings(f, s), Strings(g, t));
    assert Strings(f, s)[0] == Strings(g, t)[0] && Strings(f, s)[1] == Strings(g, t)[1] && Strings(f, s)[2] == Strings(g, t)[2];
    assert Strings(f, s)[3] == Strings(g, t)[3] && Strings(f, s)[4] == Strings(g, t)[4] && Strings(f, s)[5] == Strings(g, t)[5];
  }

  // ---------------------------------------------------------------------------------------------
  // Preparing parts
  // ---------------------------------------------------------------------------------------------

  /** A part as the caller gives it; an empty namespace is the parent's. */
  datatype NewPart = NewPart(id: Option<Id>, deleted: bool, namespace: Namespace, fields: Fields, position: Option<int>,
                             properties: map<string, string>)

  /** What the engine is configured with: strings.TrimSpace, the catalog's validation, the model that
      its store embeds with ("" without one), and the text
      a part is indexed by. */
  datatype Engine<!D(==)> = Engine(hash: Hash<D>, trim: string -> string, valid: Object -> bool, model: string,
                                  text: (Object, Object) -> string)

  function Prepared<D>(e: Engine<D>, parent: Object, p: NewPart, i: nat): Option<Indexed> {
    if p.id.Some? || p.deleted || (p.namespace != [] && p.namespace != parent.namespace) then None
    else
      var o := Object("", Some(parent.id), parent.namespace, parent.readers, p.fields.(kind := e.trim(p.fields.kind)),
                      if p.position.Some? then p.position else Some(i), p.properties, "", false);
      if e.valid(o) then Some(Indexed(o, e.text(o, parent))) else None
  }

  function DigestOf<D>(e: Engine<D>, x: Indexed): D {
    Digest(e.hash, x.row.fields, x.text)
  }

  /** How many of xs have a digest. */
  function Earlier<D>(e: Engine<D>, xs: seq<Indexed>, d: D): nat {
    if xs == [] then 0 else Earlier(e, xs[..|xs| - 1], d) + if DigestOf(e, xs[|xs| - 1]) == d then 1 else 0
  }

  /** Each part has the id of its content, counted. */
  predicate Identified<D>(e: Engine<D>, parent: Object, xs: seq<Indexed>) {
    forall i :: 0 <= i < |xs| ==>
      xs[i].row.id == e.hash.part(parent.id, DigestOf(e, xs[i]), Earlier(e, xs[..i], DigestOf(e, xs[i]))) &&
      xs[i].row.parentId == Some(parent.id) && xs[i].row.namespace == parent.namespace &&
      xs[i].row.readers == parent.readers && !xs[i].row.deleted
  }

  /** x is the i-th part as prepared, under some id. */
  predicate IsPrepared<D>(e: Engine<D>, parent: Object, p: NewPart, i: nat, x: Indexed) {
    Prepared(e, parent, p, i).Some? && x == WithId(Prepared(e, parent, p, i).value, x.row.id)
  }

  function WithId(x: Indexed, id: Id): Indexed {
    x.(row := x.row.(id := id))
  }

  lemma DigestIgnoresId<D>(e: Engine<D>, x: Indexed, id: Id)
    ensures DigestOf(e, WithId(x, id)) == DigestOf(e, x)
  {
    hide Frame;
  }

  lemma EarlierMore<D>(e: Engine<D>, xs: seq<Indexed>, x: Indexed, d: D)
    ensures Earlier(e, xs + [x], d) == Earlier(e, xs, d) + if DigestOf(e, x) == d then 1 else 0
  {
    hide DigestOf;
    assert (xs + [x])[..|xs|] == xs;
  }

  lemma IdentifiedMore<D>(e: Engine<D>, parent: Object, xs: seq<Indexed>, p: NewPart, i: nat, x: Indexed)
    requires Identified(e, parent, xs) && Prepared(e, parent, p, i).Some?
    requires var y := Prepared(e, parent, p, i).value;
      x == WithId(y, e.hash.part(parent.id, DigestOf(e, y), Earlier(e, xs, DigestOf(e, y))))
    ensures Identified(e, parent, xs + [x]) && IsPrepared(e, parent, p, i, x)
    ensures forall d: D :: Earlier(e, xs + [x], d) == Earlier(e, xs, d) + if DigestOf(e, Prepared(e, parent, p, i).value) == d then 1 else 0
  {
    hide DigestOf, Earlier;
    var y := Prepared(e, parent, p, i).value;
    DigestIgnoresId(e, y, x.row.id);
    forall d: D ensures Earlier(e, xs + [x], d) == Earlier(e, xs, d) + if DigestOf(e, y) == d then 1 else 0 {
      EarlierMore(e, xs, x, d);
    }
    forall k | 0 <= k <= |xs| ensures (xs + [x])[..k] == xs[..k] { }
  }

  method PrepareParts<D>(e: Engine<D>, parent: Object, parts: seq<NewPart>) returns (r: Option<seq<Indexed>>)
    ensures r.None? <==> exists i :: 0 <= i < |parts| && Prepared(e, parent, parts[i], i).None?
    ensures r.Some? ==> |r.value| == |parts| && Identified(e, parent, r.value)
    ensures r.Some? ==> forall i :: 0 <= i < |parts| ==> IsPrepared(e, parent, parts[i], i, r.value[i])
  {
    hide Prepared, DigestOf, Identified, Earlier, WithId;
    var out: seq<Indexed>, seen: map<D, nat> := [], map[];
    NoneIdentified(e, parent);
    for i := 0 to |parts|
      invariant |out| == i && Identified(e, parent, out)
      invariant forall k :: 0 <= k < i ==> IsPrepared(e, parent, parts[k], k, out[k])
      invariant forall d :: (if d in seen then seen[d] else 0) == Earlier(e, out, d)
    {
      var part := Prepared(e, parent, parts[i], i);
      if part.None? {
        return None;
      }
      var d := DigestOf(e, part.value);
      var n := if d in seen then seen[d] else 0;
      var x := WithId(part.value, e.hash.part(parent.id, d, n));
      IdentifiedMore(e, parent, out, parts[i], i, x);
      out := out + [x];
      seen := seen[d := n + 1];
    }
    r := Some(out);
  }

  lemma NoneIdentified<D>(e: Engine<D>, parent: Object)
    ensures Identified(e, parent, []) && forall d: D :: Earlier(e, [], d) == 0
  {
  }

  lemma EarlierLast<D>(e: Engine<D>, xs: seq<Indexed>, j: nat, d: D)
    requires 0 < j <= |xs|
    ensures Earlier(e, xs[..j], d) == Earlier(e, xs[..j - 1], d) + if DigestOf(e, xs[j - 1]) == d then 1 else 0
  {
    hide DigestOf;
    assert xs[..j][..j - 1] == xs[..j - 1];
  }

  lemma {:induction false} EarlierGrows<D>(e: Engine<D>, xs: seq<Indexed>, i: nat, j: nat)
    requires i < j <= |xs|
    ensures Earlier(e, xs[..i], DigestOf(e, xs[i])) < Earlier(e, xs[..j], DigestOf(e, xs[i]))
    decreases j
  {
    hide *;
    EarlierLast(e, xs, j, DigestOf(e, xs[i]));
    if j > i + 1 { EarlierGrows(e, xs, i, j - 1); }
  }

  predicate DistinctIds(xs: seq<Indexed>) {
    forall i, j :: 0 <= i < j < |xs| ==> xs[i].row.id != xs[j].row.id
  }

  /** Part ids never repeat, whatever texts do. */
  lemma IdsNeverRepeat<D(!new)>(e: Engine<D>, parent: Object, xs: seq<Indexed>)
    requires CollisionFree(e.hash) && Identified(e, parent, xs)
    ensures DistinctIds(xs)
  {
    forall i, j | 0 <= i < j < |xs| ensures xs[i].row.id != xs[j].row.id {
      var d, f := DigestOf(e, xs[i]), DigestOf(e, xs[j]);
      if xs[i].row.id == xs[j].row.id {
        assert e.hash.part(parent.id, d, Earlier(e, xs[..i], d)) == e.hash.part(parent.id, f, Earlier(e, xs[..j], f));
        EarlierGrows(e, xs, i, j);
        assert false;
      }
    }
  }

  // ---------------------------------------------------------------------------------------------
  // Batches
  // ---------------------------------------------------------------------------------------------

  /** A part as the store gets it: a reused one is a reference to a live row. */
  datatype TreePart = TreePart(row: Object, reused: bool)

  function Staged(x: Indexed, reusable: set<Id>, model: string): TreePart {
    if x.row.id in reusable then TreePart(x.row.(fields := Fields("", "", "", "", ""), readers := []), true)
    else TreePart(x.row.(model := if x.text != "" then model else ""), false)
  }

  function StagedAll(xs: seq<Indexed>, reusable: set<Id>, model: string): (r: seq<TreePart>)
    ensures |r| == |xs|
  {
    seq(|xs|, i requires 0 <= i < |xs| => Staged(xs[i], reusable, model))
  }

  function Flatten(batches: seq<seq<TreePart>>): seq<TreePart> {
    if batches == [] then [] else Flatten(batches[..|batches| - 1]) + batches[|batches| - 1]
  }

  /** The batches the parts are embedded in: each full but the last. */
  method EmbedBatches(xs: seq<Indexed>, reusable: set<Id>, model: string, batchSize: nat) returns (batches: seq<seq<TreePart>>)
    ensures Flatten(batches) == StagedAll(xs, reusable, model)
    ensures var size := if batchSize == 0 then 128 else batchSize;
      forall b :: 0 <= b < |batches| ==> 0 < |batches[b]| <= size && (b < |batches| - 1 ==> |batches[b]| == size)
  {
    hide *;
    var size := if batchSize == 0 then 128 else batchSize;
    batches := [];
    StagedNone(xs, reusable, model);
    var batch: seq<TreePart> := [];
    for i := 0 to |xs|
      invariant |batch| < size
      invariant Flatten(batches) + batch == StagedAll(xs[..i], reusable, model)
      invariant forall b :: 0 <= b < |batches| ==> |batches[b]| == size
    {
      StagedNext(xs, reusable, model, i);
      Assoc(Flatten(batches), batch, [Staged(xs[i], reusable, model)]);
      batch := batch + [Staged(xs[i], reusable, model)];
      if |batch| == size {
        FlattenLast(batches, batch);
        batches := batches + [batch];
        batch := [];
        Empty(Flatten(batches));
      }
    }
    assert xs[..|xs|] == xs;
    Empty(Flatten(batches));
    if |batch| > 0 {
      FlattenLast(batches, batch);
      batches := batches + [batch];
    }
  }

  lemma StagedNext(xs: seq<Indexed>, reusable: set<Id>, model: string, i: nat)
    requires i < |xs|
    ensures StagedAll(xs[..i + 1], reusable, model) == StagedAll(xs[..i], reusable, model) + [Staged(xs[i], reusable, model)]
  {
    hide Staged;
  }

  lemma StagedNone(xs: seq<Indexed>, reusable: set<Id>, model: string)
    ensures Flatten([]) + [] == StagedAll(xs[..0], reusable, model)
  {
  }

  lemma FlattenLast(batches: seq<seq<TreePart>>, batch: seq<TreePart>)
    ensures Flatten(batches + [batch]) == Flatten(batches) + batch
  {
    assert (batches + [batch])[..|batches|] == batches;
  }

  /** staged is the batches, in the order they happened to finish. */
  ghost predicate InSomeOrder(batches: seq<seq<TreePart>>, staged: seq<TreePart>) {
    exists order: seq<seq<TreePart>> :: multiset(order) == multiset(batches) && staged == Flatten(order)
  }

  lemma {:induction false} FlattenBag(batches: seq<seq<TreePart>>, other: seq<seq<TreePart>>)
    requires multiset(batches) == multiset(other)
    ensures multiset(Flatten(batches)) == multiset(Flatten(other))
    decreases |batches|
  {
    assert |batches| == |multiset(batches)| == |multiset(other)| == |other|;
    if batches != [] {
      var init, last := batches[..|batches| - 1], batches[|batches| - 1];
      assert batches == init + [last];
      assert last in multiset(other);
      var i :| 0 <= i < |other| && other[i] == last;
      var rest := other[..i] + other[i + 1..];
      assert other == other[..i] + [last] + other[i + 1..];
      assert multiset(rest) == multiset(other) - multiset{last} == multiset(init);
      FlattenBag(init, rest);
      FlattenMiddle(other[..i], last, other[i + 1..]);
    }
  }

  lemma NoBatches()
    ensures Flatten([]) == []
  {
  }

  lemma {:induction false} FlattenAppend(a: seq<seq<TreePart>>, b: seq<seq<TreePart>>)
    ensures Flatten(a + b) == Flatten(a) + Flatten(b)
    decreases |b|
  {
    hide *;
    if b == [] {
      Empty(a);
      NoBatches();
      Empty(Flatten(a));
    } else {
      var init, last := b[..|b| - 1], b[|b| - 1];
      assert b == init + [last];
      FlattenAppend(a, init);
      FlattenLast(init, last);
      FlattenLast(a + init, last);
      Assoc(a, init, [last]);
      Assoc(Flatten(a), Flatten(init), last);
    }
  }

  lemma FlattenMiddle(a: seq<seq<TreePart>>, x: seq<TreePart>, b: seq<seq<TreePart>>)
    ensures multiset(Flatten(a + [x] + b)) == multiset(Flatten(a + b)) + multiset(x)
  {
    FlattenAppend(a + [x], b);
    FlattenLast(a, x);
    FlattenAppend(a, b);
  }
}
