/** Paging through results (brain/results.go, page and read) and through the objects related to one
    (brain/related.go): stored references first, then a graph walk from its cursor. */
module Paging {
  import opened Messages
  import opened Sequences

  type Id = string

  /** A result before its rows are read: an object, or a link of two. `check` marks a graph hit,
      whose stored row must pass the filter. */
  datatype Ref = ObjectRef(id: Id, check: bool, relation: string) | LinkRef(source: Id, target: Id, relation: string)

  datatype Hit<!T> = ObjectHit(row: T, relation: string) | LinkHit(source: T, target: T, relation: string)

  /** The rows the scope can read, and the filter. */
  datatype Store<!T> = Store(rows: map<Id, T>, matches: T -> bool)

  /** One page of a walk; an empty `next` ends it. */
  datatype NeighborPage = NeighborPage(neighbors: seq<Ref>, next: string)

  /** A graph's pages of one walk after a cursor, and what the walk has after it. */
  datatype Graph = Graph(page: (string, nat) -> NeighborPage, left: string -> seq<Ref>)

  /** What a graph must keep: a page is a start of what is left, at most `limit` of it, and its
      cursor continues after it; an empty page, or one without a cursor, is the last. */
  ghost predicate Contract(g: Graph) {
    forall after: string, limit: nat :: limit > 0 ==>
      var p := g.page(after, limit);
      |p.neighbors| <= limit &&
      g.left(after) == p.neighbors + if p.next == "" || p.neighbors == [] then [] else g.left(p.next)
  }

  datatype Rest = Rest(refs: seq<Ref>, walk: Option<string>) {
    predicate Empty() {
      refs == [] && walk.None?
    }
  }

  // ---------------------------------------------------------------------------------------------
  // Reading rows
  // ---------------------------------------------------------------------------------------------

  function HitOf<T>(s: Store<T>, r: Ref): Option<Hit<T>> {
    match r
    case LinkRef(a, b, rel) => if a in s.rows && b in s.rows then Some(LinkHit(s.rows[a], s.rows[b], rel)) else None
    case ObjectRef(id, check, rel) =>
      if id in s.rows && (check ==> s.matches(s.rows[id])) then Some(ObjectHit(s.rows[id], rel)) else None
  }

  /** The hits of refs, in order. */
  function Hits<T>(s: Store<T>, refs: seq<Ref>): seq<Hit<T>> {
    if refs == [] then []
    else (if HitOf(s, refs[0]).Some? then [HitOf(s, refs[0]).value] else []) + Hits(s, refs[1..])
  }

  lemma {:induction false} HitsAppend<T>(s: Store<T>, a: seq<Ref>, b: seq<Ref>)
    ensures Hits(s, a + b) == Hits(s, a) + Hits(s, b)
  {
    if a == [] {
      Empty(b);
    } else {
      Uncons(a, b);
      HitsAppend(s, a[1..], b);
      Assoc(if HitOf(s, a[0]).Some? then [HitOf(s, a[0]).value] else [], Hits(s, a[1..]), Hits(s, b));
    }
  }

  lemma {:induction false} HitsFewer<T>(s: Store<T>, refs: seq<Ref>)
    ensures |Hits(s, refs)| <= |refs|
  {
    if refs != [] { HitsFewer(s, refs[1..]); }
  }

  method Read<T>(s: Store<T>, refs: seq<Ref>) returns (out: seq<Hit<T>>)
    ensures out == Hits(s, refs)
  {
    // One read of every row the references name.
    var ids: set<Id> := {};
    for i := 0 to |refs|
      invariant forall k :: 0 <= k < i ==> if refs[k].LinkRef? then refs[k].source in ids && refs[k].target in ids else refs[k].id in ids
    {
      ids := ids + if refs[i].LinkRef? then {refs[i].source, refs[i].target} else {refs[i].id};
    }
    forall r | r in refs
      ensures if r.LinkRef? then r.source in ids && r.target in ids else r.id in ids
    {
      var k :| 0 <= k < |refs| && refs[k] == r;
    }
    var byId := map id | id in ids && id in s.rows :: s.rows[id];
    out := Build(s, refs, byId);
  }

  lemma HitsFrom<T>(s: Store<T>, refs: seq<Ref>, i: nat)
    requires i < |refs|
    ensures Hits(s, refs[i..]) == (if HitOf(s, refs[i]).Some? then [HitOf(s, refs[i]).value] else []) + Hits(s, refs[i + 1..])
  {
    Suffix(refs, i);
  }

  lemma HitsEnd<T>(s: Store<T>, refs: seq<Ref>)
    ensures Hits(s, refs[|refs|..]) == []
  {
  }

  /** The hits of refs, from the rows read for them. */
  method Build<T>(s: Store<T>, refs: seq<Ref>, byId: map<Id, T>) returns (out: seq<Hit<T>>)
    requires forall r :: r in refs ==>
      if r.LinkRef? then Agree(s, byId, r.source) && Agree(s, byId, r.target) else Agree(s, byId, r.id)
    ensures out == Hits(s, refs)
  {
    hide Hits;
    out := [];
    assert refs[0..] == refs;
    for i := 0 to |refs|
      invariant Hits(s, refs) == out + Hits(s, refs[i..])
    {
      HitsFrom(s, refs, i);
      Assoc(out, if HitOf(s, refs[i]).Some? then [HitOf(s, refs[i]).value] else [], Hits(s, refs[i + 1..]));
      Empty(out);
      assert refs[i] in refs;
      match refs[i] {
        case LinkRef(a, b, rel) =>
          if a in byId && b in byId {
            out := out + [LinkHit(byId[a], byId[b], rel)];
          }
        case ObjectRef(id, check, rel) =>
          if id !in byId || (check && !s.matches(byId[id])) {
            continue;
          }
          out := out + [ObjectHit(byId[id], rel)];
      }
    }
    HitsEnd(s, refs);
    Empty(out);
  }

  ghost predicate Agree<T>(s: Store<T>, byId: map<Id, T>, id: Id) {
    (id in byId <==> id in s.rows) && (id in byId ==> byId[id] == s.rows[id])
  }

  /** A reference gives a result when the scope reads all its rows and, for a graph hit, the row passes
      the filter. */
  predicate Resolves<T>(s: Store<T>, r: Ref) {
    match r
    case LinkRef(a, b, _) => a in s.rows && b in s.rows
    case ObjectRef(id, check, _) => id in s.rows && (!check || s.matches(s.rows[id]))
  }

  predicate IsHit<T(==)>(s: Store<T>, r: Ref, h: Hit<T>)
    requires Resolves(s, r)
  {
    h.relation == r.relation &&
    if r.LinkRef? then h.LinkHit? && h.source == s.rows[r.source] && h.target == s.rows[r.target]
    else h.ObjectHit? && h.row == s.rows[r.id]
  }

  /** hits are those of the references at the positions `at`, which are all that resolve. */
  ghost predicate HitsAt<T>(s: Store<T>, refs: seq<Ref>, hits: seq<Hit<T>>, at: seq<nat>) {
    Rising(at, |refs|) && |at| == |hits| && (forall i: nat :: i < |refs| ==> (i in at <==> Resolves(s, refs[i]))) &&
    forall j :: 0 <= j < |at| ==> Resolves(s, refs[at[j]]) && IsHit(s, refs[at[j]], hits[j])
  }

  lemma HitIs<T>(s: Store<T>, r: Ref)
    ensures HitOf(s, r).Some? <==> Resolves(s, r)
    ensures HitOf(s, r).Some? ==> IsHit(s, r, HitOf(s, r).value)
  {
  }

  lemma HitsAtLast<T>(s: Store<T>, refs: seq<Ref>, r: Ref, hits: seq<Hit<T>>, at: seq<nat>) returns (next: seq<nat>)
    requires HitsAt(s, refs, hits, at)
    ensures HitsAt(s, refs + [r], hits + (if HitOf(s, r).Some? then [HitOf(s, r).value] else []), next)
  {
    hide Resolves, IsHit, HitOf;
    HitIs(s, r);
    Empty(hits);
    var n: nat := |refs|;
    assert n !in at;
    next := at;
    if HitOf(s, r).Some? {
      next := at + [n];
      assert forall i :: i in next <==> i in at || i == n;
    }
  }

  /** Main result on reading: the results are those of the references that resolve, in order. */
  lemma {:induction false} HitsExactly<T>(s: Store<T>, refs: seq<Ref>) returns (at: seq<nat>)
    ensures HitsAt(s, refs, Hits(s, refs), at)
    decreases |refs|
  {
    hide HitOf, Resolves, IsHit;
    if refs == [] {
      at := [];
    } else {
      hide Hits, HitsAt;
      var init, r := refs[..|refs| - 1], refs[|refs| - 1];
      Snoc(refs);
      at := HitsExactly(s, init);
      HitsAppend(s, init, [r]);
      HitsOne(s, r);
      at := HitsAtLast(s, init, r, Hits(s, init), at);
    }
  }

  lemma HitsOne<T>(s: Store<T>, r: Ref)
    ensures Hits(s, [r]) == if HitOf(s, r).Some? then [HitOf(s, r).value] else []
  {
    hide HitOf;
    assert [r][1..] == [];
    Empty(if HitOf(s, r).Some? then [HitOf(s, r).value] else []);
  }

  // ---------------------------------------------------------------------------------------------
  // A page
  // ---------------------------------------------------------------------------------------------

  function Left(g: Option<Graph>, walk: Option<string>): seq<Ref> {
    if g.Some? && walk.Some? then g.value.left(walk.value) else []
  }

  /** Everything a rest holds: its references, then the rest of its walk. */
  function AllHits<T>(s: Store<T>, g: Option<Graph>, rest: Rest): seq<Hit<T>> {
    Hits(s, rest.refs + Left(g, rest.walk))
  }

  /** The walk after a page of it. */
  function After(p: NeighborPage): Option<string> {
    if p.next == "" || p.neighbors == [] then None else Some(p.next)
  }

  lemma PageContinues(g: Graph, after: string, limit: nat)
    requires Contract(g) && limit > 0
    ensures var p := g.page(after, limit);
      Left(Some(g), Some(after)) == p.neighbors + Left(Some(g), After(p)) && |p.neighbors| <= limit
  {
  }

  datatype Page<!T> = Page(results: seq<Hit<T>>, more: bool, rest: Rest)

  /** None is a walk to continue without a graph. */
  method ReadPage<T>(s: Store<T>, g: Option<Graph>, rest: Rest, limit: nat) returns (page: Option<Page<T>>)
    requires g.Some? ==> Contract(g.value)
    requires limit > 0
    ensures page.None? ==> g.None? && rest.walk.Some?
    ensures page.Some? ==> IsPage(s, g, rest, limit, page.value)
  {
    hide Contract, Hits;
    var results: seq<Hit<T>>, refs, walk := [], rest.refs, rest.walk;
    while |results| < limit && (|refs| > 0 || walk.Some?)
      invariant |results| <= limit
      invariant g.None? ==> walk == rest.walk
      invariant AllHits(s, g, rest) == results + Hits(s, refs + Left(g, walk))
      decreases |refs| + |Left(g, walk)|, if |refs| == 0 then 1 else 0, if walk.Some? then 1 else 0
    {
      if |refs| == 0 {
        if g.None? {
          return None;
        }
        var next := g.value.page(walk.value, limit - |results|);
        PageContinues(g.value, walk.value, limit - |results|);
        assert refs + Left(g, walk) == next.neighbors + Left(g, After(next));
        refs, walk := next.neighbors, After(next);
        continue;
      }
      var n := if limit - |results| < |refs| then limit - |results| else |refs|;
      var got := Read(s, refs[..n]);
      HitsFewer(s, refs[..n]);
      assert refs + Left(g, walk) == refs[..n] + (refs[n..] + Left(g, walk));
      HitsAppend(s, refs[..n], refs[n..] + Left(g, walk));
      assert results + (got + Hits(s, refs[n..] + Left(g, walk))) == (results + got) + Hits(s, refs[n..] + Left(g, walk));
      results, refs := results + got, refs[n..];
    }
    page := Some(Page(results, |refs| > 0 || walk.Some?, Rest(refs, walk)));
    if |results| < limit {
      NoHits(s);
      assert refs + Left(g, walk) == [];
    }
  }

  lemma NoHits<T>(s: Store<T>)
    ensures Hits(s, []) == []
  {
  }

  /** A page is the first results, the rest holds exactly the others, a page that is not full is the
      last, and there is more exactly when the rest is not empty. */
  predicate IsPage<T(==)>(s: Store<T>, g: Option<Graph>, rest: Rest, limit: nat, page: Page<T>) {
    |page.results| <= limit && AllHits(s, g, rest) == page.results + AllHits(s, g, page.rest) &&
    (page.more <==> !page.rest.Empty()) && (|page.results| < limit ==> !page.more)
  }

  // ---------------------------------------------------------------------------------------------
  // All the pages
  // ---------------------------------------------------------------------------------------------

  /** pages are what successive calls with these limits give, each from the rest of the one before. */
  ghost predicate Pages<T>(s: Store<T>, g: Option<Graph>, rest: Rest, limits: seq<nat>, pages: seq<Page<T>>)
    decreases |limits|
  {
    |pages| == |limits| &&
    (limits != [] ==>
       limits[0] > 0 && IsPage(s, g, rest, limits[0], pages[0]) && Pages(s, g, pages[0].rest, limits[1..], pages[1..]))
  }

  function Results<T>(pages: seq<Page<T>>): seq<Hit<T>> {
    if pages == [] then [] else pages[0].results + Results(pages[1..])
  }

  function LastRest<T>(rest: Rest, pages: seq<Page<T>>): Rest {
    if pages == [] then rest else pages[|pages| - 1].rest
  }

  lemma NothingInEmpty<T>(s: Store<T>, g: Option<Graph>, rest: Rest)
    requires rest.Empty()
    ensures AllHits(s, g, rest) == []
  {
  }

  /** Main result: whatever the limits, the pages joined are a prefix of all the results, and what is
      not on them is what the last rest holds; once a page says there is no more, they are all. */
  lemma {:induction false} PagingIsLossless<T>(s: Store<T>, g: Option<Graph>, rest: Rest, limits: seq<nat>, pages: seq<Page<T>>)
    requires Pages(s, g, rest, limits, pages)
    ensures AllHits(s, g, rest) == Results(pages) + AllHits(s, g, LastRest(rest, pages))
    ensures LastRest(rest, pages).Empty() ==> Results(pages) == AllHits(s, g, rest)
    decreases |limits|
  {
    hide Hits, AllHits;
    if limits == [] {
      assert Results(pages) + AllHits(s, g, rest) == AllHits(s, g, rest);
    } else {
      PagingIsLossless(s, g, pages[0].rest, limits[1..], pages[1..]);
      var tail := AllHits(s, g, LastRest(rest, pages));
      assert LastRest(pages[0].rest, pages[1..]) == LastRest(rest, pages);
      assert pages[0].results + (Results(pages[1..]) + tail) == Results(pages) + tail;
    }
    if LastRest(rest, pages).Empty() {
      NothingInEmpty(s, g, LastRest(rest, pages));
      assert Results(pages) + [] == Results(pages);
    }
  }

  /** Reading on ends: after more calls than there are results, no page has more. */
  lemma {:induction false} PagingEnds<T>(s: Store<T>, g: Option<Graph>, rest: Rest, limits: seq<nat>, pages: seq<Page<T>>)
    requires Pages(s, g, rest, limits, pages) && |limits| > |AllHits(s, g, rest)|
    ensures !pages[|pages| - 1].more
    decreases |limits|
  {
    hide Hits, AllHits;
    var first := pages[0];
    if |limits| == 1 {
      assert |first.results| < limits[0];
    } else if first.more {
      assert |first.results| == limits[0];
      PagingEnds(s, g, first.rest, limits[1..], pages[1..]);
      assert pages[1..][|pages[1..]| - 1] == pages[|pages| - 1];
    } else {
      EmptyStays(s, g, first.rest, limits[1..], pages[1..]);
    }
  }

  lemma {:induction false} EmptyStays<T>(s: Store<T>, g: Option<Graph>, rest: Rest, limits: seq<nat>, pages: seq<Page<T>>)
    requires Pages(s, g, rest, limits, pages) && limits != [] && rest.Empty()
    ensures !pages[|pages| - 1].more
    decreases |limits|
  {
    hide Hits, AllHits;
    NothingInEmpty(s, g, rest);
    assert |pages[0].results| == 0;
    if |limits| > 1 { EmptyStays(s, g, pages[0].rest, limits[1..], pages[1..]); }
  }

  // ---------------------------------------------------------------------------------------------
  // Related objects
  // ---------------------------------------------------------------------------------------------

  const CHILD := "child"
  const PARENT := "parent"
  const SIBLING := "sibling"

  datatype Part<!T> = Part(id: Id, row: T)

  /** A record and its parts, or a part, its record when the scope reads it, and the record's parts. */
  datatype Tree<!T> = Tree(id: Id, isPart: bool, parent: Option<Part<T>>, parts: seq<Part<T>>)

  /** The references of the parts that pass the filter, but for one. */
  function PartRefs<T>(s: Store<T>, parts: seq<Part<T>>, relation: string, but: Option<Id>): seq<Ref> {
    if parts == [] then []
    else
      PartRefs(s, parts[..|parts| - 1], relation, but) +
      if s.matches(parts[|parts| - 1].row) && but != Some(parts[|parts| - 1].id)
      then [ObjectRef(parts[|parts| - 1].id, false, relation)] else []
  }

  /** Where id is among parts, or -1. */
  function PlaceOf<T>(parts: seq<Part<T>>, id: Id): (i: int)
    ensures -1 <= i < |parts|
    ensures if i < 0 then forall p :: p in parts ==> p.id != id else parts[i].id == id
    ensures forall k :: 0 <= k < i ==> parts[k].id != id
  {
    if parts == [] then -1
    else if parts[0].id == id then 0
    else
      assert parts == [parts[0]] + parts[1..];
      var rest := PlaceOf(parts[1..], id);
      if rest < 0 then -1 else rest + 1
  }

  function Within(n: int, hi: nat): (m: nat)
    ensures m <= hi
  {
    if n < 0 then 0 else if n < hi then n else hi
  }

  function Nearby<T>(parts: seq<Part<T>>, i: int, radius: nat): seq<Part<T>>
    requires -1 <= i < |parts|
  {
    var lo, hi := Within(i - radius, |parts|), Within(i + radius + 1, |parts|);
    parts[lo..hi]
  }

  method Collect<T>(s: Store<T>, parts: seq<Part<T>>, relation: string, but: Option<Id>) returns (refs: seq<Ref>)
    ensures refs == PartRefs(s, parts, relation, but)
  {
    refs := [];
    for i := 0 to |parts|
      invariant refs == PartRefs(s, parts[..i], relation, but)
    {
      assert parts[..i + 1][..i] == parts[..i];
      if but != Some(parts[i].id) && s.matches(parts[i].row) {
        refs := refs + [ObjectRef(parts[i].id, false, relation)];
      }
    }
    assert parts[..|parts|] == parts;
  }

  /** A record's children; or a part's record and the parts around it. */
  method Containment<T>(s: Store<T>, t: Tree<T>, radius: nat) returns (refs: seq<Ref>)
    ensures !t.isPart ==> refs == PartRefs(s, t.parts, CHILD, None)
    ensures t.isPart ==> var own := if t.parent.Some? then PartRefs(s, [t.parent.value], PARENT, None) else [];
      refs == own + PartRefs(s, Nearby(t.parts, PlaceOf(t.parts, t.id), radius), SIBLING, Some(t.id))
  {
    hide PartRefs, Nearby, PlaceOf;
    if !t.isPart {
      refs := Collect(s, t.parts, CHILD, None);
      return;
    }
    refs := [];
    if t.parent.Some? {
      refs := Collect(s, [t.parent.value], PARENT, None);
    }
    var near := Collect(s, Nearby(t.parts, PlaceOf(t.parts, t.id), radius), SIBLING, Some(t.id));
    refs := refs + near;
  }

  lemma {:induction false} PartRefsMembers<T>(s: Store<T>, parts: seq<Part<T>>, relation: string, but: Option<Id>, r: Ref)
    ensures r in PartRefs(s, parts, relation, but) <==>
            exists j :: 0 <= j < |parts| && s.matches(parts[j].row) && but != Some(parts[j].id) && r == ObjectRef(parts[j].id, false, relation)
  {
    if parts != [] {
      var init := parts[..|parts| - 1];
      PartRefsMembers(s, init, relation, but, r);
      assert forall j :: 0 <= j < |init| ==> parts[j] == init[j];
    }
  }

  /** refs name the parts at the positions `at`, which are all that pass the filter but for one id. */
  ghost predicate PartsAt<T>(s: Store<T>, parts: seq<Part<T>>, relation: string, but: Option<Id>, refs: seq<Ref>, at: seq<nat>) {
    Rising(at, |parts|) && |at| == |refs| &&
    (forall i: nat :: i < |parts| ==> (i in at <==> s.matches(parts[i].row) && but != Some(parts[i].id))) &&
    forall j :: 0 <= j < |at| ==> refs[j] == ObjectRef(parts[at[j]].id, false, relation)
  }

  lemma PartsAtLast<T>(s: Store<T>, parts: seq<Part<T>>, relation: string, but: Option<Id>, refs: seq<Ref>, at: seq<nat>)
    returns (next: seq<nat>)
    requires parts != [] && PartsAt(s, parts[..|parts| - 1], relation, but, refs, at)
    ensures var p := parts[|parts| - 1];
      PartsAt(s, parts, relation, but,
              refs + (if s.matches(p.row) && but != Some(p.id) then [ObjectRef(p.id, false, relation)] else []), next)
  {
    var n: nat, init := |parts| - 1, parts[..|parts| - 1];
    var p := parts[n];
    assert forall i: nat :: i < n ==> init[i] == parts[i];
    assert n !in at;
    Empty(refs);
    next := at;
    if s.matches(p.row) && but != Some(p.id) {
      next := at + [n];
      assert forall i :: i in next <==> i in at || i == n;
    }
  }

  /** The references of parts keep their order. */
  lemma {:induction false} PartsExactly<T>(s: Store<T>, parts: seq<Part<T>>, relation: string, but: Option<Id>) returns (at: seq<nat>)
    ensures PartsAt(s, parts, relation, but, PartRefs(s, parts, relation, but), at)
    decreases |parts|
  {
    if parts == [] {
      at := [];
    } else {
      hide PartsAt;
      at := PartsExactly(s, parts[..|parts| - 1], relation, but);
      at := PartsAtLast(s, parts, relation, but, PartRefs(s, parts[..|parts| - 1], relation, but), at);
      Empty(PartRefs(s, parts[..|parts| - 1], relation, but));
    }
  }

  /** The parts from `radius` before place i to `radius` after it, as far as there are any; a part that is
      not found counts as right before the first. */
  lemma NearbyExactly<T>(parts: seq<Part<T>>, i: int, radius: nat)
    requires -1 <= i < |parts|
    ensures var lo, hi := if i >= radius then i - radius else 0, if i + radius < |parts| then i + radius + 1 else |parts|;
      Nearby(parts, i, radius) == parts[lo..hi]
  {
  }

  /** The parts at most `radius` places from place i. */
  predicate Close(i: int, radius: nat, j: int) {
    i - radius <= j <= i + radius
  }

  lemma NearbyPlaces<T>(parts: seq<Part<T>>, i: nat, radius: nat, p: Part<T>)
    requires i < |parts|
    ensures p in Nearby(parts, i, radius) <==> exists j :: 0 <= j < |parts| && Close(i, radius, j) && parts[j] == p
  {
    var near, lo := Nearby(parts, i, radius), Within(i - radius, |parts|);
    if p in near {
      var j :| 0 <= j < |near| && near[j] == p;
      assert parts[lo + j] == p && Close(i, radius, lo + j);
    }
    if exists j :: 0 <= j < |parts| && Close(i, radius, j) && parts[j] == p {
      var j :| 0 <= j < |parts| && Close(i, radius, j) && parts[j] == p;
      assert near[j - lo] == p;
    }
  }

  /** The siblings of a part that is found are the other parts at most `radius` places away that pass
      the filter. */
  lemma SiblingsNearby<T>(s: Store<T>, parts: seq<Part<T>>, id: Id, radius: nat, r: Ref)
    requires PlaceOf(parts, id) >= 0
    ensures r in PartRefs(s, Nearby(parts, PlaceOf(parts, id), radius), SIBLING, Some(id)) <==>
            exists j :: 0 <= j < |parts| && Close(PlaceOf(parts, id), radius, j) &&
              parts[j].id != id && s.matches(parts[j].row) && r == ObjectRef(parts[j].id, false, SIBLING)
  {
    hide PartRefs, PlaceOf, Nearby, Close;
    var i := PlaceOf(parts, id);
    var near := Nearby(parts, i, radius);
    PartRefsMembers(s, near, SIBLING, Some(id), r);
    if r in PartRefs(s, near, SIBLING, Some(id)) {
      var k :| 0 <= k < |near| && s.matches(near[k].row) && Some(id) != Some(near[k].id) && r == ObjectRef(near[k].id, false, SIBLING);
      NearbyPlaces(parts, i, radius, near[k]);
    }
    if exists j :: 0 <= j < |parts| && Close(i, radius, j) && parts[j].id != id && s.matches(parts[j].row) && r == ObjectRef(parts[j].id, false, SIBLING) {
      var j :| 0 <= j < |parts| && Close(i, radius, j) && parts[j].id != id && s.matches(parts[j].row) && r == ObjectRef(parts[j].id, false, SIBLING);
      NearbyPlaces(parts, i, radius, parts[j]);
      var k :| 0 <= k < |near| && near[k] == parts[j];
    }
  }

  /** What the rest of a first page holds: the references, and then the whole walk when one is asked. */
  ghost predicate FirstOf<T>(s: Store<T>, g: Option<Graph>, refs: seq<Ref>, walks: bool, limit: nat, page: Page<T>) {
    exists rest: Rest ::
      IsPage(s, g, rest, limit, page) &&
      AllHits(s, g, rest) == Hits(s, refs) + Hits(s, if g.Some? && walks then g.value.left("") else [])
  }

  /** The first page of what is related: what contains the object or is in it, when asked for, and
      then the walk. */
  method Related<T>(s: Store<T>, g: Option<Graph>, t: Tree<T>, radius: nat, children: bool, walks: bool, limit: nat)
    returns (page: Option<Page<T>>, ghost refs: seq<Ref>)
    requires g.Some? ==> Contract(g.value)
    requires limit > 0
    ensures page.Some? && FirstOf(s, g, refs, walks, limit, page.value)
    ensures !children ==> refs == []
    ensures children && !t.isPart ==> refs == PartRefs(s, t.parts, CHILD, None)
    ensures children && t.isPart ==> var own := if t.parent.Some? then PartRefs(s, [t.parent.value], PARENT, None) else [];
      refs == own + PartRefs(s, Nearby(t.parts, PlaceOf(t.parts, t.id), radius), SIBLING, Some(t.id))
  {
    hide Hits, Contract, PartRefs, Nearby, PlaceOf;
    var found: seq<Ref> := [];
    if children {
      found := Containment(s, t, radius);
    }
    refs := found;
    var rest := Rest(found, None);
    NoHits(s);
    assert Hits(s, found) + [] == Hits(s, found) && found + [] == found;
    if g.Some? && walks {
      var first := g.value.page("", limit);
      PageContinues(g.value, "", limit);
      rest := Rest(found + first.neighbors, After(first));
      assert rest.refs + Left(g, rest.walk) == found + g.value.left("");
      HitsAppend(s, found, g.value.left(""));
    }
    page := ReadPage(s, g, rest, limit);
  }
}
