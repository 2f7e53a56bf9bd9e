/** When a tree write that commits is the simple rewrite of its tree, over whole runs of a store
    (brain/memory.go, brain/write.go). */
module TreeRewrites {
  import opened Messages
  import opened TreeParts
  import opened TreeStore
  import opened TreeRuns

  // ---------------------------------------------------------------------------------------------
  // Rows and the content of their ids
  // ---------------------------------------------------------------------------------------------

  /** A part's row is under an id of its own content. */
  ghost predicate Strong<D(!new)>(e: Engine<D>, id: Id, o: Object) {
    o.parentId.Some? &&
    exists text: string, n: nat :: Short(Strings(o.fields, text)) && id == e.hash.part(o.parentId.value, Digest(e.hash, o.fields, text), n)
  }

  /** The engine makes x of a part of p. */
  predicate Makes<D>(e: Engine<D>, p: Object, part: NewPart, x: Indexed) {
    IsParent(e, p) && Identity(p) && part.position.Some? && Prepared(e, Bare(p), part, 0) == Some(x) &&
    Short(Strings(x.row.fields, x.text))
  }

  /** A part's row that a tree write could keep, one with the store's model, is not under an id that the
      engine gives to a part of other content, of the same parent and tenant. */
  ghost predicate Own<D(!new)>(e: Engine<D>, id: Id, o: Object) {
    o.parentId.Some? && o.model == e.model && o.namespace != [] ==>
      forall p: Object, part: NewPart, x: Indexed, n: nat ::
        (Makes(e, p, part, x) && id == e.hash.part(p.id, DigestOf(e, x), n) &&
         p.id == o.parentId.value && Tenant(p.namespace) == Tenant(o.namespace)) ==> x.row.fields == o.fields
  }

  lemma StrongFields<D(!new)>(e: Engine<D>, id: Id, o: Object, x: Indexed, n: nat)
    requires CollisionFree(e.hash) && Strong(e, id, o) && Short(Strings(x.row.fields, x.text))
    requires id == e.hash.part(o.parentId.value, DigestOf(e, x), n)
    ensures x.row.fields == o.fields
  {
    hide Short, Frame;
    var text: string, m: nat :|
      Short(Strings(o.fields, text)) && id == e.hash.part(o.parentId.value, Digest(e.hash, o.fields, text), m);
    DigestInjective(e.hash, o.fields, text, x.row.fields, x.text);
  }

  lemma StrongOwn<D(!new)>(e: Engine<D>, id: Id, o: Object)
    requires CollisionFree(e.hash) && Strong(e, id, o)
    ensures Own(e, id, o)
  {
    hide DigestOf, CollisionFree, Short, Prepared, IsParent, Identity;
    assert o.parentId.Some?;
    forall p: Object, part: NewPart, x: Indexed, n: nat
      | Makes(e, p, part, x) && id == e.hash.part(p.id, DigestOf(e, x), n) && p.id == o.parentId.value
      ensures x.row.fields == o.fields
    {
      StrongFields(e, id, o, x, n);
    }
  }

  /** A part of a write has the id of its content, counted. */
  lemma PartId<D>(e: Engine<D>, p: Object, xs: seq<Indexed>, x: Indexed) returns (n: nat)
    requires Identified(e, p, xs) && ShortParts(xs) && x in xs
    ensures x.row.id == e.hash.part(p.id, DigestOf(e, x), n) && Short(Strings(x.row.fields, x.text))
  {
    hide DigestOf, Short, Earlier;
    var i :| 0 <= i < |xs| && xs[i] == x;
    n := Earlier(e, xs[..i], DigestOf(e, x));
  }

  lemma PartStrong<D(!new)>(e: Engine<D>, p: Object, xs: seq<Indexed>, x: Indexed, o: Object)
    requires Identified(e, p, xs) && ShortParts(xs) && x in xs && o.parentId == Some(p.id) && o.fields == x.row.fields
    ensures Strong(e, x.row.id, o)
  {
    hide Short, Frame;
    var n := PartId(e, p, xs, x);
    assert Short(Strings(o.fields, x.text)) && x.row.id == e.hash.part(p.id, Digest(e.hash, o.fields, x.text), n);
  }

  /** A part at its place is what the engine makes of the same part at that position. */
  lemma PreparedAnywhere<D>(e: Engine<D>, p: Object, part: NewPart, i: nat)
    ensures Prepared(e, p, part.(position := Some(if part.position.Some? then part.position.value else i)), 0) == Prepared(e, p, part, i)
  {
  }

  lemma MadeParts<D>(e: Engine<D>, p: Object, xs: seq<Indexed>, x: Indexed) returns (part: NewPart, y: Indexed)
    requires FromEngine(e, p, xs) && Identity(p) && x in xs
    ensures Makes(e, p, part, y) && y.row.fields == x.row.fields && y.text == x.text && DigestOf(e, x) == DigestOf(e, y)
  {
    hide Identity, Short, Digest, Prepared;
    var parts: seq<NewPart> :| PreparedAll(e, p, parts, xs);
    var i :| 0 <= i < |xs| && xs[i] == x;
    assert IsPrepared(e, Bare(p), parts[i], i, xs[i]);
    PreparedAnywhere(e, Bare(p), parts[i], i);
    part := parts[i].(position := Some(if parts[i].position.Some? then parts[i].position.value else i));
    y := Prepared(e, Bare(p), part, 0).value;
    assert Short(Strings(x.row.fields, x.text));
  }

  /** A row that a write may keep as x has x's content, when it is not under the id of other content. */
  lemma KeptContent<D(!new)>(e: Engine<D>, p: Object, xs: seq<Indexed>, x: Indexed, o: Object)
    requires FromEngine(e, p, xs) && Identity(p) && x in xs && Own(e, x.row.id, o)
    requires o.parentId == Some(p.id) && o.model == e.model && o.namespace != [] && Tenant(o.namespace) == Tenant(p.namespace)
    ensures o.fields == x.row.fields
  {
    hide Short, DigestOf, Makes, ValidNamespace, Blank, Prepared, Earlier;
    var part, y := MadeParts(e, p, xs, x);
    var n := PartId(e, p, xs, x);
    assert x.row.id == e.hash.part(p.id, DigestOf(e, y), n);
  }

  lemma SameTenant(scope: Scope, o: Object, p: Object)
    requires CanRead(scope, o) && Covers(scope.namespace, p.namespace)
    ensures o.namespace != [] && p.namespace != [] && Tenant(o.namespace) == Tenant(p.namespace)
  {
  }

  /** Every part's row is not under the id of other content. */
  ghost predicate AllOwn<D(!new)>(e: Engine<D>, objects: map<Id, Object>) {
    forall id :: id in objects ==> Own(e, id, objects[id])
  }

  // ---------------------------------------------------------------------------------------------
  // Puts, and the writes they cross
  // ---------------------------------------------------------------------------------------------

  /** Step k is a put of id that the store takes. */
  predicate Writes(states: seq<Store>, steps: seq<Step>, k: nat, id: Id)
    requires Aligned(states, steps) && k < |steps|
  {
    steps[k].Put? && CheckPut(states[k].objects, steps[k].scope, steps[k].o).None? && steps[k].o.id == id
  }

  ghost predicate PutsSince(states: seq<Store>, steps: seq<Step>, id: Id, lo: nat, hi: nat)
    requires Aligned(states, steps) && hi <= |steps|
  {
    exists k :: lo <= k < hi && Writes(states, steps, k, id)
  }

  /** The rows that the tree write of step i may keep. */
  function Keeps<D>(e: Engine<D>, states: seq<Store>, steps: seq<Step>, i: nat): set<Id>
    requires Aligned(states, steps) && i < |steps| && steps[i].Commit?
  {
    Reusable(states[ReadAt(steps[i], i)].objects, steps[i].scope, steps[i].p.id, e.model)
  }

  /** x is a part whose row the write of step i keeps, and that was put since the write read. */
  ghost predicate Overwritten<D>(e: Engine<D>, states: seq<Store>, steps: seq<Step>, i: nat, x: Indexed)
    requires Aligned(states, steps) && i < |steps| && steps[i].Commit?
  {
    x in steps[i].xs && x.row.id in Keeps(e, states, steps, i) && PutsSince(states, steps, x.row.id, ReadAt(steps[i], i), i)
  }

  /** No tree write that commits before step hi keeps a row that was put since the write read. */
  ghost predicate Uncrossed<D>(e: Engine<D>, states: seq<Store>, steps: seq<Step>, hi: nat)
    requires Aligned(states, steps) && hi <= |steps|
  {
    forall i, x :: 0 <= i < hi && CommitsAt(states, steps, i) ==> !Overwritten(e, states, steps, i, x)
  }

  /** The put of step i, when the store takes it, is not of a part under the id of other content. */
  ghost predicate PutsOwn<D(!new)>(e: Engine<D>, states: seq<Store>, steps: seq<Step>, i: nat)
    requires Aligned(states, steps) && i < |steps|
  {
    steps[i].Put? && CheckPut(states[i].objects, steps[i].scope, steps[i].o).None? ==> Own(e, steps[i].o.id, steps[i].o)
  }

  /** The row under id, as a part of parent, is under an id of its own content. */
  ghost predicate StrongUnder<D(!new)>(e: Engine<D>, s: Store, id: Id, parent: Id) {
    id in s.objects && s.objects[id].parentId == Some(parent) ==> Strong(e, id, s.objects[id])
  }

  lemma SameStrong<D(!new)>(e: Engine<D>, id: Id, o: Object, n: Object)
    requires Strong(e, id, o) && n.fields == o.fields && n.parentId == o.parentId
    ensures Strong(e, id, n)
  {
  }

  /** The row of a staged part after a commit. */
  lemma StagedRow<D(!new)>(e: Engine<D>, objects: map<Id, Object>, scope: Scope, p: Object, xs: seq<Indexed>, reusable: set<Id>,
                           staged: seq<TreePart>, x: Indexed)
    requires Identified(e, p, xs) && StagedFrom(xs, reusable, e.model, staged) && CheckParts(objects, scope, p.id, staged, {}).None?
    requires x in xs && CollisionFree(e.hash)
    ensures var id, a := x.row.id, Committed(objects, p, staged);
      id in a && a[id].parentId == Some(p.id) && a[id].namespace == p.namespace && a[id].readers == p.readers &&
      if id in reusable then ChildOf(objects, id, p.id) && a[id].fields == objects[id].fields && a[id].model == objects[id].model
      else a[id].fields == x.row.fields
  {
    hide CheckParts, PlaceAll, Inserted, Identified, CollisionFree, StagedFrom;
    StagedBag(xs, reusable, e.model, staged);
    IdentifiedParts(e, p, xs);
    CheckedParts(objects, scope, p.id, staged, {});
    var i :| 0 <= i < |xs| && xs[i] == x;
    var j := StagedMember(xs, reusable, e.model, staged, i);
    assert staged[j] in staged;
    PlacedPart(Cleared(objects, p, Ids(staged)), p, staged, j);
    assert x.row.id in Ids(staged) && x.row.id != p.id by { assert x.row.id in PartIds(xs); }
  }

  /** Any other row. */
  lemma UnstagedRow<D(!new)>(e: Engine<D>, objects: map<Id, Object>, p: Object, xs: seq<Indexed>, reusable: set<Id>,
                             staged: seq<TreePart>, id: Id)
    requires StagedFrom(xs, reusable, e.model, staged) && id !in PartIds(xs)
    ensures var a := Committed(objects, p, staged);
      id in a ==> if id == p.id then a[id] == p else id in objects && a[id] == objects[id]
  {
    hide PlaceAll, StagedFrom;
    StagedBag(xs, reusable, e.model, staged);
    StagedIds(xs, reusable, e.model, staged);
    PlacedOther(Cleared(objects, p, Ids(staged)), p, staged, id);
  }

  lemma CommitStrong<D(!new)>(e: Engine<D>, states: seq<Store>, steps: seq<Step>, i: nat, id: Id, parent: Id)
    requires CollisionFree(e.hash) && Runs(e, states, steps) && i < |steps| && CommitsAt(states, steps, i)
    requires StrongUnder(e, states[i], id, parent)
    ensures StrongUnder(e, states[i + 1], id, parent)
  {
    hide CollisionFree, Strong, Identified, StagedFrom, CheckPut, CheckParts, Committed, ShortParts, PreparedAll, IsParent;
    assert Moves(e, states, steps, i);
    var c, s, t := steps[i], states[i], states[i + 1];
    var reusable := Keeps(e, states, steps, i);
    if id in t.objects && t.objects[id].parentId == Some(parent) {
      if id in PartIds(c.xs) {
        var x :| x in c.xs && x.row.id == id;
        StagedRow(e, s.objects, c.scope, c.p, c.xs, reusable, c.staged, x);
        if id in reusable { SameStrong(e, id, s.objects[id], t.objects[id]); } else { PartStrong(e, c.p, c.xs, x, t.objects[id]); }
      } else {
        UnstagedRow(e, s.objects, c.p, c.xs, reusable, c.staged, id);
        assert c.p.parentId.None? by { CommitParent(e, c.p, c.xs); }
      }
    }
  }

  lemma CommitParent<D>(e: Engine<D>, p: Object, xs: seq<Indexed>)
    requires FromEngine(e, p, xs)
    ensures p.parentId.None?
  {
  }

  lemma StepStrong<D(!new)>(e: Engine<D>, states: seq<Store>, steps: seq<Step>, i: nat, id: Id, parent: Id)
    requires CollisionFree(e.hash) && Runs(e, states, steps) && i < |steps| && !Writes(states, steps, i, id)
    requires StrongUnder(e, states[i], id, parent)
    ensures StrongUnder(e, states[i + 1], id, parent)
  {
    hide CollisionFree, Strong, Can, CheckPut, DeleteError, Removed, Committed, Succeeds;
    assert Moves(e, states, steps, i);
    var s, t := states[i], states[i + 1];
    if CommitsAt(states, steps, i) {
      CommitStrong(e, states, steps, i, id, parent);
    } else if id in t.objects && t.objects[id].parentId == Some(parent) {
      SameStrong(e, id, s.objects[id], t.objects[id]);
    }
  }

  lemma {:induction false} StrongStays<D(!new)>(e: Engine<D>, states: seq<Store>, steps: seq<Step>, lo: nat, hi: nat, id: Id, parent: Id)
    requires CollisionFree(e.hash) && Runs(e, states, steps) && lo <= hi <= |steps| && !PutsSince(states, steps, id, lo, hi)
    requires StrongUnder(e, states[lo], id, parent)
    ensures StrongUnder(e, states[hi], id, parent)
    decreases hi
  {
    hide CollisionFree, StrongUnder, Moves, Writes;
    if lo < hi {
      StrongStays(e, states, steps, lo, hi - 1, id, parent);
      StepStrong(e, states, steps, hi - 1, id, parent);
    }
  }

  /** The row under a kept id that no put wrote since the write read still has its part's content. */
  lemma KeptSince<D(!new)>(e: Engine<D>, states: seq<Store>, steps: seq<Step>, i: nat, x: Indexed)
    requires CollisionFree(e.hash) && Runs(e, states, steps) && i < |steps| && CommitsAt(states, steps, i)
    requires AllOwn(e, states[ReadAt(steps[i], i)].objects)
    requires x in steps[i].xs && x.row.id in Keeps(e, states, steps, i) && !Overwritten(e, states, steps, i, x)
    ensures ChildOf(states[i].objects, x.row.id, steps[i].p.id) && Strong(e, x.row.id, states[i].objects[x.row.id])
    ensures states[i].objects[x.row.id].fields == x.row.fields
  {
    hide CollisionFree, Strong, Own, CheckParts, ShortParts, PutsSince, CanRead, Covers, Identity, ValidNamespace, PreparedAll, Digest, Earlier;
    assert Moves(e, states, steps, i);
    var c, at, id := steps[i], steps[i].at, x.row.id;
    var o := states[at].objects[id];
    SameTenant(c.scope, o, c.p);
    KeptContent(e, c.p, c.xs, x, o);
    PartStrong(e, c.p, c.xs, x, o);
    StrongStays(e, states, steps, at, i, id, c.p.id);
    StagedRow(e, states[i].objects, c.scope, c.p, c.xs, Keeps(e, states, steps, i), c.staged, x);
    var n := PartId(e, c.p, c.xs, x);
    StrongFields(e, id, states[i].objects[id], x, n);
  }

  // ---------------------------------------------------------------------------------------------
  // Which commits are rewrites
  // ---------------------------------------------------------------------------------------------

  /** The tree write of step i leaves the rows that deleting every part of the tree and inserting all
      of them leaves. */
  ghost predicate IsRewrite(states: seq<Store>, steps: seq<Step>, i: nat)
    requires Aligned(states, steps) && i < |steps| && steps[i].Commit?
  {
    SameRows(states[i + 1].objects, Rewritten(states[i].objects, steps[i].p, steps[i].xs))
  }

  /** Where rows are under ids of no other content when it reads, a tree write that commits is the
      simple rewrite if and only if each row it keeps that a put wrote since has its part's content. */
  lemma CrossedExactly<D(!new)>(e: Engine<D>, states: seq<Store>, steps: seq<Step>, i: nat)
    requires CollisionFree(e.hash) && Runs(e, states, steps) && i < |steps| && CommitsAt(states, steps, i)
    requires AllOwn(e, states[ReadAt(steps[i], i)].objects)
    ensures IsRewrite(states, steps, i) <==>
      forall x :: Overwritten(e, states, steps, i, x) ==>
        x.row.id in states[i].objects && states[i].objects[x.row.id].fields == x.row.fields
  {
    hide CollisionFree, Strong, AllOwn, CheckPut, CheckParts, Committed, Rewritten, SameRows, ShortParts, PutsSince, PreparedAll,
         Identified, StagedFrom, PartsOf, Reusable;
    assert Moves(e, states, steps, i);
    var c, s, reusable := steps[i], states[i], Keeps(e, states, steps, i);
    IdsNeverRepeat(e, c.p, c.xs);
    IdentifiedParts(e, c.p, c.xs);
    RunStored(e, states, steps, i);
    StoredKeyed(s.objects);
    WriteIsRewrite(s.objects, c.scope, c.p, c.xs, reusable, e.model, c.staged);
    forall x | x in c.xs && x.row.id in reusable && !Overwritten(e, states, steps, i, x)
      ensures x.row.id in s.objects && s.objects[x.row.id].fields == x.row.fields
    {
      KeptSince(e, states, steps, i, x);
    }
  }

  lemma CommitOwn<D(!new)>(e: Engine<D>, states: seq<Store>, steps: seq<Step>, i: nat)
    requires CollisionFree(e.hash) && Runs(e, states, steps) && i < |steps| && CommitsAt(states, steps, i)
    requires AllOwn(e, states[ReadAt(steps[i], i)].objects) && AllOwn(e, states[i].objects)
    requires forall x :: !Overwritten(e, states, steps, i, x)
    ensures AllOwn(e, states[i + 1].objects)
  {
    hide CollisionFree, Strong, Own, CheckPut, CheckParts, Committed, ShortParts, PutsSince, PreparedAll, Identified, StagedFrom,
         Reusable, Overwritten;
    assert Moves(e, states, steps, i);
    var c, s, t := steps[i], states[i], states[i + 1];
    var reusable := Keeps(e, states, steps, i);
    forall id | id in t.objects ensures Own(e, id, t.objects[id]) {
      if id in PartIds(c.xs) {
        var x :| x in c.xs && x.row.id == id;
        StagedRow(e, s.objects, c.scope, c.p, c.xs, reusable, c.staged, x);
        if id in reusable {
          KeptSince(e, states, steps, i, x);
          SameStrong(e, id, s.objects[id], t.objects[id]);
        } else {
          PartStrong(e, c.p, c.xs, x, t.objects[id]);
        }
        StrongOwn(e, id, t.objects[id]);
      } else {
        UnstagedRow(e, s.objects, c.p, c.xs, reusable, c.staged, id);
        if id == c.p.id { FirstClassOwn(e, id, c.p); }
      }
    }
  }

  lemma FirstClassOwn<D(!new)>(e: Engine<D>, id: Id, o: Object)
    requires o.parentId.None?
    ensures Own(e, id, o)
  {
  }

  lemma SameOwn<D(!new)>(e: Engine<D>, id: Id, o: Object)
    requires Own(e, id, o)
    ensures Own(e, id, o.(deleted := true))
  {
    hide Makes, DigestOf;
  }

  lemma StepOwn<D(!new)>(e: Engine<D>, states: seq<Store>, steps: seq<Step>, i: nat)
    requires CollisionFree(e.hash) && Runs(e, states, steps) && i < |steps| && !CommitsAt(states, steps, i)
    requires AllOwn(e, states[i].objects) && PutsOwn(e, states, steps, i)
    ensures AllOwn(e, states[i + 1].objects)
  {
    hide CollisionFree, Own, Can, CheckPut, DeleteError, Removed, Committed, Succeeds;
    assert Moves(e, states, steps, i);
    var s, t := states[i], states[i + 1];
    forall id | id in t.objects ensures Own(e, id, t.objects[id]) {
      if id in s.objects { SameOwn(e, id, s.objects[id]); }
    }
  }

  lemma {:induction false} RunOwn<D(!new)>(e: Engine<D>, states: seq<Store>, steps: seq<Step>, i: nat)
    requires CollisionFree(e.hash) && Runs(e, states, steps) && i <= |steps| && Uncrossed(e, states, steps, i)
    requires forall k :: 0 <= k < i ==> PutsOwn(e, states, steps, k)
    ensures AllOwn(e, states[i].objects)
    decreases i
  {
    hide AllOwn, CollisionFree, PutsOwn, Moves, Overwritten, Succeeds;
    if i == 0 {
      NoneOwn(e);
    } else {
      RunOwn(e, states, steps, i - 1);
      if CommitsAt(states, steps, i - 1) {
        RunOwn(e, states, steps, ReadAt(steps[i - 1], i - 1));
        CommitOwn(e, states, steps, i - 1);
      } else {
        StepOwn(e, states, steps, i - 1);
      }
    }
  }

  lemma NoneOwn<D(!new)>(e: Engine<D>)
    ensures AllOwn(e, EMPTY.objects)
  {
  }

  /** Main result: in a run whose puts of parts so far are not under ids of other content, every tree
      write that commits is the simple rewrite of its tree, whatever was written since it read but over
      the rows it keeps. */
  lemma CommitsRewrite<D(!new)>(e: Engine<D>, states: seq<Store>, steps: seq<Step>, i: nat)
    requires CollisionFree(e.hash) && Runs(e, states, steps) && i < |steps| && CommitsAt(states, steps, i)
    requires Uncrossed(e, states, steps, i + 1) && forall k :: 0 <= k < i ==> PutsOwn(e, states, steps, k)
    ensures IsRewrite(states, steps, i)
  {
    hide AllOwn, CollisionFree, PutsOwn, Moves, Overwritten, Succeeds;
    RunOwn(e, states, steps, ReadAt(steps[i], i));
    CrossedExactly(e, states, steps, i);
  }

  /** A put over a row that a write keeps, whatever model it is embedded with, lets the write commit as
      before, and then it is not the rewrite unless the put has its part's content. */
  lemma PutOverKept<D(!new)>(e: Engine<D>, read: Store, s: Store, c: Step, x: Indexed, o: Object)
    requires CollisionFree(e.hash) && c.Commit? && Can(e, read, c) && Succeeds(read, s, c) && Stored(s.objects)
    requires x in c.xs && x.row.id in Reusable(read.objects, c.scope, c.p.id, e.model)
    requires o.id == x.row.id && o.parentId == Some(c.p.id) && ValidNamespace(o.namespace) && o.fields != x.row.fields
    ensures var t := s.(objects := s.objects[o.id := o]);
      Succeeds(read, t, c) && !SameRows(After(read, t, c).objects, Rewritten(t.objects, c.p, c.xs))
  {
    hide CollisionFree, Committed, Rewritten, SameRows, ShortParts, PreparedAll, Identified, StagedFrom, PartsOf, Reusable,
         ValidNamespace, Covers, CanRead;
    var t := s.(objects := s.objects[o.id := o]);
    IdsNeverRepeat(e, c.p, c.xs);
    IdentifiedParts(e, c.p, c.xs);
    assert x.row.id in PartIds(c.xs);
    PartsStillPass(s.objects, o, c.scope, c.p.id, c.staged, {});
    StoredKeyed(t.objects);
    WriteIsRewrite(t.objects, c.scope, c.p, c.xs, Reusable(read.objects, c.scope, c.p.id, e.model), e.model, c.staged);
  }

  lemma {:induction false} PartsStillPass(objects: map<Id, Object>, o: Object, scope: Scope, parent: Id, staged: seq<TreePart>, seen: set<Id>)
    requires CheckParts(objects, scope, parent, staged, seen).None? && o.parentId == Some(parent)
    ensures CheckParts(objects[o.id := o], scope, parent, staged, seen).None?
    decreases |staged|
  {
    hide Covers;
    if staged != [] { PartsStillPass(objects, o, scope, parent, staged[1..], seen + {staged[0].row.id}); }
  }

  // ---------------------------------------------------------------------------------------------
  // Which puts keep tree writes rewrites
  // ---------------------------------------------------------------------------------------------

  /** n parts that the engine makes as it makes x. */
  function Copies<D>(e: Engine<D>, p: Object, x: Indexed, n: nat): (xs: seq<Indexed>)
    ensures |xs| == n
  {
    seq(n, i requires 0 <= i < n => WithId(x, e.hash.part(p.id, DigestOf(e, x), i)))
  }

  lemma {:induction false} EarlierCopies<D>(e: Engine<D>, p: Object, x: Indexed, n: nat, i: nat)
    requires i <= n
    ensures Earlier(e, Copies(e, p, x, n)[..i], DigestOf(e, x)) == i
  {
    hide DigestOf;
    var xs := Copies(e, p, x, n);
    if i > 0 {
      EarlierCopies(e, p, x, n, i - 1);
      assert xs[..i][..i - 1] == xs[..i - 1] && xs[..i][i - 1] == xs[i - 1];
      DigestIgnoresId(e, x, e.hash.part(p.id, DigestOf(e, x), i - 1));
    }
  }

  lemma CopiesFromEngine<D>(e: Engine<D>, p: Object, part: NewPart, x: Indexed, n: nat)
    requires Makes(e, p, part, x)
    ensures FromEngine(e, p, Copies(e, p, x, n))
  {
    hide DigestOf, Short, Earlier, Identity, IsParent;
    var xs, parts := Copies(e, p, x, n), seq(n, i => part);
    forall i | 0 <= i < n
      ensures xs[i].row.id == e.hash.part(p.id, DigestOf(e, xs[i]), Earlier(e, xs[..i], DigestOf(e, xs[i])))
      ensures IsPrepared(e, Bare(p), parts[i], i, xs[i])
    {
      EarlierCopies(e, p, x, n, i);
      DigestIgnoresId(e, x, e.hash.part(p.id, DigestOf(e, x), i));
      PreparedAnywhere(e, Bare(p), part, i);
      assert part.(position := Some(part.position.value)) == part;
    }
    assert PreparedAll(e, p, parts, xs);
  }

  /** A live row that a tree write could keep, under the id of other content, is kept by one that has as
      many copies of that content as its id counts. */
  lemma ForeignRowKept<D(!new)>(e: Engine<D>, at: nat, s: Store, id: Id, p: Object, part: NewPart, x: Indexed, n: nat)
      returns (step: Step)
    requires CollisionFree(e.hash) && Stored(s.objects) && id in s.objects && Makes(e, p, part, x)
    requires !s.objects[id].deleted && s.objects[id].parentId == Some(p.id) && s.objects[id].model == e.model
    requires id == e.hash.part(p.id, DigestOf(e, x), n) && x.row.fields != s.objects[id].fields
    requires Tenant(s.objects[id].namespace) == Tenant(p.namespace) && (p.id in s.objects ==> Tenant(s.objects[p.id].namespace) == Tenant(p.namespace))
    ensures step.Commit? && step.at == at && Can(e, s, step) && Succeeds(s, s, step)
    ensures !SameRows(Committed(s.objects, step.p, step.staged), Rewritten(s.objects, step.p, step.xs))
  {
    hide CollisionFree, Short, Committed, Rewritten, SameRows, Identified, StagedFrom, ShortParts, DigestOf, Covers, CanRead,
         PreparedAll, PartsOf, CheckParts;
    var o := s.objects[id];
    var scope := TenantScope(o, if p.id in s.objects then s.objects[p.id].readers else []);
    var xs := Copies(e, p, x, n + 1);
    step := WriteIn(e, at, s, scope, p, xs);
    TenantSees(scope, o);
    TenantSees(scope, p.(readers := []));
    if p.id in s.objects { TenantSees(scope, s.objects[p.id]); }
    TenantValid(p.namespace);
    CopiesFromEngine(e, p, part, x, n + 1);
    CoversSame(scope.namespace, p);
    WriteCan(e, at, s, scope, p, xs);
    IdsNeverRepeat(e, p, xs);
    IdentifiedParts(e, p, xs);
    StoredKeyed(s.objects);
    var reusable := Reusable(s.objects, scope, p.id, e.model);
    assert xs[n] in xs && xs[n].row.id == id && id in reusable && xs[n].row.fields == x.row.fields;
    WriteIsRewrite(s.objects, scope, p, xs, reusable, e.model, step.staged);
  }

  lemma CoversSame(n: Namespace, p: Object)
    requires Covers(n, p.(readers := []).namespace)
    ensures Covers(n, p.namespace)
  {
  }

  /** A run that follows this one up to step i, and then puts nothing and crosses no put. */
  ghost predicate Continues<D(!new)>(e: Engine<D>, states: seq<Store>, steps: seq<Step>, i: nat, later: seq<Store>, more: seq<Step>)
    requires Aligned(states, steps)
  {
    i <= |steps| && i <= |more| && Runs(e, later, more) && states[..i + 1] == later[..i + 1] && steps[..i] == more[..i] &&
    (forall k :: i <= k < |more| ==> !more[k].Put?) && Uncrossed(e, later, more, |more|)
  }

  lemma SameStep(states: seq<Store>, steps: seq<Step>, i: nat, later: seq<Store>, more: seq<Step>, k: nat)
    requires Aligned(states, steps) && Aligned(later, more) && k < i <= |steps| && i <= |more|
    requires states[..i + 1] == later[..i + 1] && steps[..i] == more[..i]
    ensures steps[k] == more[k] && states[k] == later[k] && states[k + 1] == later[k + 1] && states[ReadAt(steps[k], k)] == later[ReadAt(more[k], k)]
  {
    assert steps[..i][k] == more[..i][k] && states[..i + 1][k] == later[..i + 1][k] && states[..i + 1][k + 1] == later[..i + 1][k + 1];
    assert states[..i + 1][ReadAt(steps[k], k)] == later[..i + 1][ReadAt(more[k], k)];
  }

  lemma SameOverwritten<D>(e: Engine<D>, states: seq<Store>, steps: seq<Step>, i: nat, later: seq<Store>, more: seq<Step>, k: nat, x: Indexed)
    requires Aligned(states, steps) && Aligned(later, more) && k < i <= |steps| && i <= |more|
    requires states[..i + 1] == later[..i + 1] && steps[..i] == more[..i] && steps[k].Commit? && more[k].Commit?
    ensures Overwritten(e, states, steps, k, x) <==> Overwritten(e, later, more, k, x)
  {
    hide Reusable;
    SameStep(states, steps, i, later, more, k);
    forall m | 0 <= m < k ensures Writes(states, steps, m, x.row.id) <==> Writes(later, more, m, x.row.id) {
      SameStep(states, steps, i, later, more, m);
    }
  }

  lemma UncrossedPrefix<D>(e: Engine<D>, states: seq<Store>, steps: seq<Step>, i: nat, later: seq<Store>, more: seq<Step>)
    requires Aligned(states, steps) && Aligned(later, more) && i <= |steps| && i <= |more|
    requires states[..i + 1] == later[..i + 1] && steps[..i] == more[..i] && Uncrossed(e, states, steps, |steps|)
    ensures Uncrossed(e, later, more, i)
  {
    hide Overwritten, CommitError;
    forall k, x | 0 <= k < i && CommitsAt(later, more, k) ensures !Overwritten(e, later, more, k, x) {
      SameStep(states, steps, i, later, more, k);
      SameOverwritten(e, states, steps, i, later, more, k, x);
    }
  }

  /** An erase of a parent's row leaves the part of another tenant. */
  lemma ErasesTenant(s: Store, scope: Scope, parent: Id, id: Id)
    requires Stored(s.objects) && parent in s.objects && id in s.objects && scope == TenantScope(s.objects[parent], [])
    requires Tenant(s.objects[id].namespace) != Tenant(s.objects[parent].namespace)
    ensures var t := After(s, s, Erase(scope));
      parent !in t.objects && id in t.objects && t.objects[id] == s.objects[id]
  {
    TenantSees(scope, s.objects[parent]);
    TenantValid(s.objects[parent].namespace);
  }

  lemma AloneUncrossed<D>(e: Engine<D>, states: seq<Store>, steps: seq<Step>, i: nat)
    requires Aligned(states, steps) && i < |steps| && Uncrossed(e, states, steps, i)
    requires forall k :: i <= k < |steps| - 1 ==> !steps[k].Commit?
    requires steps[|steps| - 1].Commit? ==> steps[|steps| - 1].at == |steps| - 1
    ensures Uncrossed(e, states, steps, |steps|)
  {
    hide Reusable, CommitError;
  }

  /** After the put of step k, at most an erase of the parent's row and one tree write show a commit
      that is not the rewrite. */
  lemma ForeignPutBreaks<D(!new)>(e: Engine<D>, states: seq<Store>, steps: seq<Step>, k: nat) returns (later: seq<Store>, more: seq<Step>)
    requires CollisionFree(e.hash) && Runs(e, states, steps) && k < |steps| && Uncrossed(e, states, steps, |steps|)
    requires !PutsOwn(e, states, steps, k)
    ensures Continues(e, states, steps, k + 1, later, more) && |more| > k + 1 && BreaksLast(later, more)
  {
    hide *;
    PutRow(e, states, steps, k);
    var o := steps[k].o;
    var p, part, x, n := ForeignContent(e, o);
    RunsPrefix(e, states, steps, k + 1);
    var at, before := ClearParent(e, states[..k + 2], steps[..k + 1], o, p);
    later, more := WriteBreaks(e, at, before, o, p, part, x, n);
    BreakContinues(e, states, steps, k + 1, at, before, later, more);
  }

  /** The last step is a tree write that commits and is not the rewrite. */
  ghost predicate BreaksLast(states: seq<Store>, steps: seq<Step>) {
    Aligned(states, steps) && steps != [] && CommitsAt(states, steps, |steps| - 1) && !IsRewrite(states, steps, |steps| - 1)
  }

  /** The row of a put of a part under the id of other content. */
  lemma PutRow<D(!new)>(e: Engine<D>, states: seq<Store>, steps: seq<Step>, k: nat)
    requires Runs(e, states, steps) && k < |steps| && !PutsOwn(e, states, steps, k)
    ensures |states| == |steps| + 1 && steps[k].Put? && !Own(e, steps[k].o.id, steps[k].o) && !steps[k].o.deleted
    ensures Holds(states[k + 1], steps[k].o)
  {
    hide Own, CheckPut;
    assert Moves(e, states, steps, k);
  }

  predicate Holds(s: Store, o: Object) {
    o.id in s.objects && s.objects[o.id] == o
  }

  /** The content that makes the row foreign. */
  lemma ForeignContent<D(!new)>(e: Engine<D>, o: Object) returns (p: Object, part: NewPart, x: Indexed, n: nat)
    requires !Own(e, o.id, o)
    ensures o.parentId == Some(p.id) && o.model == e.model && Tenant(p.namespace) == Tenant(o.namespace)
    ensures Makes(e, p, part, x) && o.id == e.hash.part(p.id, DigestOf(e, x), n) && x.row.fields != o.fields
  {
    hide Makes, DigestOf;
    p, part, x, n :|
      Makes(e, p, part, x) && o.id == e.hash.part(p.id, DigestOf(e, x), n) &&
      p.id == o.parentId.value && Tenant(p.namespace) == Tenant(o.namespace) && x.row.fields != o.fields;
  }

  predicate SameTenantAs(s: Store, p: Object) {
    p.id in s.objects ==> Tenant(s.objects[p.id].namespace) == Tenant(p.namespace)
  }

  /** At most one erase makes room for p beside a part of its tenant. */
  lemma ClearParent<D(!new)>(e: Engine<D>, states: seq<Store>, steps: seq<Step>, o: Object, p: Object)
      returns (later: seq<Store>, more: seq<Step>)
    requires Runs(e, states, steps) && Holds(states[|steps|], o) && Tenant(p.namespace) == Tenant(o.namespace)
    ensures Runs(e, later, more) && states <= later && steps <= more && forall i :: |steps| <= i < |more| ==> more[i].Erase?
    ensures |later| == |more| + 1
    ensures Holds(later[|more|], o) && SameTenantAs(later[|more|], p) && Stored(later[|more|].objects)
  {
    hide Stored, Moves;
    RunStored(e, states, steps, |steps|);
    later, more := states, steps;
    var s := states[|steps|];
    if !SameTenantAs(s, p) {
      var erase := Erase(TenantScope(s.objects[p.id], []));
      ErasesTenant(s, erase.scope, p.id, o.id);
      EraseCan(e, s, erase);
      RunsExtend(e, states, steps, erase);
      later, more := states + [After(s, s, erase)], steps + [erase];
      RunStored(e, later, more, |more|);
    }
  }

  lemma EraseCan<D(!new)>(e: Engine<D>, s: Store, erase: Step)
    requires erase.Erase?
    ensures Can(e, s, erase)
  {
  }

  /** One tree write then keeps the foreign row. */
  lemma WriteBreaks<D(!new)>(e: Engine<D>, states: seq<Store>, steps: seq<Step>, o: Object, p: Object, part: NewPart, x: Indexed, n: nat)
      returns (later: seq<Store>, more: seq<Step>)
    requires CollisionFree(e.hash) && Runs(e, states, steps) && Makes(e, p, part, x)
    requires Holds(states[|steps|], o) && SameTenantAs(states[|steps|], p) && Stored(states[|steps|].objects)
    requires !o.deleted && o.parentId == Some(p.id) && o.model == e.model && Tenant(p.namespace) == Tenant(o.namespace)
    requires o.id == e.hash.part(p.id, DigestOf(e, x), n) && x.row.fields != o.fields
    ensures Runs(e, later, more) && |more| == |steps| + 1 && states <= later && steps <= more
    ensures more[|steps|].Commit? && more[|steps|].at == |steps| && BreaksLast(later, more)
  {
    hide CollisionFree, Committed, Rewritten, SameRows, Makes, DigestOf, Can, CommitError, Stored, Moves;
    var last := states[|steps|];
    var write := ForeignRowKept(e, |steps|, last, o.id, p, part, x, n);
    RunsExtend(e, states, steps, write);
    later, more := states + [After(last, last, write)], steps + [write];
  }

  lemma BreakContinues<D(!new)>(e: Engine<D>, states: seq<Store>, steps: seq<Step>, i: nat, at: seq<Store>, before: seq<Step>,
                                later: seq<Store>, more: seq<Step>)
    requires |states| == |steps| + 1 && i <= |steps| && Uncrossed(e, states, steps, |steps|) && Runs(e, later, more)
    requires |at| == |before| + 1 && states[..i + 1] <= at <= later && steps[..i] <= before <= more && |more| == |before| + 1
    requires forall k :: i <= k < |before| ==> before[k].Erase?
    requires more[|before|].Commit? && more[|before|].at == |before|
    ensures Continues(e, states, steps, i, later, more) && |more| > i
  {
    hide Overwritten, CommitError, Moves;
    assert states[..i + 1] == at[..i + 1] == later[..i + 1] && steps[..i] == before[..i] == more[..i];
    UncrossedPrefix(e, states, steps, i, later, more);
    AloneUncrossed(e, later, more, i);
  }

  /** Main result: in a run that crosses no put, every tree write, now or however the run goes on
      without puts, is the simple rewrite if and only if no put of the run is of a part under the id of
      other content that a tree write could keep. */
  lemma PutsExactly<D(!new)>(e: Engine<D>, states: seq<Store>, steps: seq<Step>)
    requires CollisionFree(e.hash) && Runs(e, states, steps) && Uncrossed(e, states, steps, |steps|)
    ensures (forall k :: 0 <= k < |steps| ==> PutsOwn(e, states, steps, k)) <==>
            (forall i: nat, later, more, j: nat :: Continues(e, states, steps, i, later, more) && i <= j < |more| && CommitsAt(later, more, j) ==>
               IsRewrite(later, more, j))
  {
    hide CollisionFree, PutsOwn, CommitError, Moves, IsRewrite, Uncrossed;
    if forall k :: 0 <= k < |steps| ==> PutsOwn(e, states, steps, k) {
      forall i: nat, later, more, j: nat | Continues(e, states, steps, i, later, more) && i <= j < |more| && CommitsAt(later, more, j)
        ensures IsRewrite(later, more, j)
      {
        ContinuedOwn(e, states, steps, i, later, more, j);
        CommitsRewrite(e, later, more, j);
      }
    } else {
      var k :| 0 <= k < |steps| && !PutsOwn(e, states, steps, k);
      var later, more := ForeignPutBreaks(e, states, steps, k);
      assert Continues(e, states, steps, k + 1, later, more) && CommitsAt(later, more, |more| - 1) && !IsRewrite(later, more, |more| - 1);
    }
  }

  lemma ContinuedOwn<D(!new)>(e: Engine<D>, states: seq<Store>, steps: seq<Step>, i: nat, later: seq<Store>, more: seq<Step>, j: nat)
    requires Aligned(states, steps) && Continues(e, states, steps, i, later, more) && j < |more|
    requires forall k :: 0 <= k < |steps| ==> PutsOwn(e, states, steps, k)
    ensures Uncrossed(e, later, more, j + 1) && forall k :: 0 <= k < j ==> PutsOwn(e, later, more, k)
  {
    hide Own, CheckPut, Overwritten, CommitError, Moves;
    forall k | 0 <= k < j ensures PutsOwn(e, later, more, k) {
      if k < i {
        SameStep(states, steps, i, later, more, k);
        assert PutsOwn(e, states, steps, k);
      }
    }
  }

  /** The first write of a tree. */
  lemma FirstWrite<D(!new)>(e: Engine<D>, p: Object, part: NewPart, x: Indexed, scope: Scope) returns (step: Step)
    requires CollisionFree(e.hash) && Makes(e, p, part, x) && p.namespace != [] && scope == TenantScope(p, [])
    ensures step == WriteIn(e, 0, EMPTY, scope, p, Copies(e, p, x, 1)) && Can(e, EMPTY, step) && Succeeds(EMPTY, EMPTY, step)
  {
    hide CollisionFree, FromEngine, Covers, CanRead, Blank, DigestOf;
    TenantSees(scope, p);
    TenantValid(p.namespace);
    CopiesFromEngine(e, p, part, x, 1);
    step := WriteIn(e, 0, EMPTY, scope, p, Copies(e, p, x, 1));
    WriteCan(e, 0, EMPTY, scope, p, Copies(e, p, x, 1));
  }

  /** Other content can be put under the part's id. */
  lemma PutCan<D(!new)>(e: Engine<D>, p: Object, part: NewPart, x: Indexed, other: Fields, put: Step)
    requires CollisionFree(e.hash) && Makes(e, p, part, x) && p.namespace != [] && put.Put? && put.scope == TenantScope(p, [])
    requires put.o == Copies(e, p, x, 1)[0].row.(fields := other, model := e.model) && ModelOf(e, put.text) == e.model
    requires !Blank(other.kind) && forall id :: e.valid(x.row.(id := id, fields := other))
    ensures var s := After(EMPTY, EMPTY, WriteIn(e, 0, EMPTY, put.scope, p, Copies(e, p, x, 1)));
      Can(e, s, put) && CheckPut(s.objects, put.scope, put.o).None? && (p.id in s.objects ==> s.objects[p.id] == p)
    ensures put.o.id != p.id && put.o.parentId == Some(p.id) && put.o.namespace == p.namespace
  {
    hide CollisionFree, FromEngine, StagedFrom, Committed, CheckParts, Covers, CanRead, Blank, DigestOf, Identified;
    var first := FirstWrite(e, p, part, x, put.scope);
    var xs := Copies(e, p, x, 1);
    var reusable := Reusable(EMPTY.objects, put.scope, p.id, e.model);
    assert xs[0] == WithId(x, e.hash.part(p.id, DigestOf(e, x), 0)) && x.row.model == "";
    assert xs[0] in xs && Bare(put.o) == x.row.(id := put.o.id, fields := other);
    ParentIdentified(e, p, xs);
    IdentifiedParts(e, p, xs);
    assert put.o.id in PartIds(xs);
    PartIdNotEmpty(e, p, x);
    StagedRow(e, map[], put.scope, p, xs, reusable, first.staged, xs[0]);
    UnstagedRow(e, map[], p, xs, reusable, first.staged, p.id);
    TenantSees(put.scope, p);
    SeesSame(put.scope, p, put.o);
    var s := After(EMPTY, EMPTY, first);
    SeesSame(put.scope, p, s.objects[put.o.id]);
    TenantValid(p.namespace);
  }

  lemma ParentIdentified<D>(e: Engine<D>, p: Object, xs: seq<Indexed>)
    requires FromEngine(e, p, xs)
    ensures Identified(e, p, xs)
  {
  }

  lemma PartIdNotEmpty<D(!new)>(e: Engine<D>, p: Object, x: Indexed)
    requires CollisionFree(e.hash)
    ensures Copies(e, p, x, 1)[0].row.id != ""
  {
    hide DigestOf;
    assert Copies(e, p, x, 1)[0] == WithId(x, e.hash.part(p.id, DigestOf(e, x), 0));
    assert e.hash.part(p.id, DigestOf(e, x), 0) != "";
  }

  lemma SeesSame(scope: Scope, o: Object, n: Object)
    requires CanRead(scope, o) && n.namespace == o.namespace && n.readers == o.readers
    ensures CanRead(scope, n) && Covers(scope.namespace, n.namespace)
  {
  }

  lemma TwoSteps<D(!new)>(e: Engine<D>, states: seq<Store>, steps: seq<Step>)
    requires |states| == 3 && |steps| == 2 && states[0] == EMPTY && steps[0].Commit? && steps[0].at == 0 && !steps[1].Commit?
    requires Can(e, EMPTY, steps[0]) && states[1] == After(EMPTY, EMPTY, steps[0])
    requires Can(e, states[1], steps[1]) && states[2] == After(states[1], states[1], steps[1])
    ensures Runs(e, states, steps)
  {
    hide Can, After;
    assert Moves(e, states, steps, 0) && Moves(e, states, steps, 1);
    forall i | 0 <= i < 2 ensures Moves(e, states, steps, i) { assert i == 0 || i == 1; }
  }

  /** A part is written, other content is put under its id, and the tree is written again: the second
      write keeps the put's content. */
  lemma PutUnderPartId<D(!new)>(e: Engine<D>, p: Object, part: NewPart, x: Indexed, other: Fields, text: string)
      returns (states: seq<Store>, steps: seq<Step>)
    requires CollisionFree(e.hash) && Makes(e, p, part, x) && other != x.row.fields && ModelOf(e, text) == e.model
    requires !Blank(other.kind) && forall id :: e.valid(x.row.(id := id, fields := other))
    ensures Runs(e, states, steps) && |steps| == 3 && steps[0].Commit? && steps[1].Put? && steps[2].Commit?
    ensures CommitsAt(states, steps, 0) && IsRewrite(states, steps, 0)
    ensures steps[0].xs == Copies(e, p, x, 1) && steps[1].o.fields == other && steps[1].o.id == steps[0].xs[0].row.id
    ensures steps[1].o.model == e.model && CommitsAt(states, steps, 2) && !IsRewrite(states, steps, 2)
  {
    hide CollisionFree, Short, Committed, Rewritten, SameRows, DigestOf, Covers, CanRead, FromEngine, StagedFrom, CheckParts;
    assert p.namespace != [] && x.row.parentId == Some(p.id) && !x.row.deleted;
    hide Makes, Identity, Prepared;
    var scope := TenantScope(p, []);
    var first := FirstWrite(e, p, part, x, scope);
    var s1 := After(EMPTY, EMPTY, first);
    var o := Copies(e, p, x, 1)[0].row.(fields := other, model := e.model);
    var put := Put(scope, o, text);
    PutCan(e, p, part, x, other, put);
    var s2 := s1.(objects := s1.objects[o.id := o]);
    TwoSteps(e, [EMPTY, s1, s2], [first, put]);
    RunStored(e, [EMPTY, s1, s2], [first, put], 2);
    var second := ForeignRowKept(e, 2, s2, o.id, p, part, x, 0);
    RunsExtend(e, [EMPTY, s1, s2], [first, put], second);
    states, steps := [EMPTY, s1, s2] + [After(s2, s2, second)], [first, put] + [second];
    NoneOwn(e);
    CrossedExactly(e, states, steps, 0);
  }
}
