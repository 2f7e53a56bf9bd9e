/** Writing a tree to the store (brain/memory.go, PutTree): live parts of the same content keep
    their rows, and the outcome is the one of deleting every part and inserting all of them. */
module TreeStore {
  import opened Messages
  import opened TreeParts

  datatype Error = Invalid | NotFound | Conflict

  // ---------------------------------------------------------------------------------------------
  // What a caller may see and write
  // ---------------------------------------------------------------------------------------------

  datatype Scope = Scope(namespace: Namespace, principals: set<string>)

  /** unicode.IsSpace. */
  predicate IsSpace(c: char) {
    '\t' <= c <= '\r' || c == ' ' || c == '\U{85}' || c == '\U{A0}' || c == '\U{1680}' || '\U{2000}' <= c <= '\U{200A}' ||
    c == '\U{2028}' || c == '\U{2029}' || c == '\U{202F}' || c == '\U{205F}' || c == '\U{3000}'
  }

  /** strings.TrimSpace leaves nothing of s. */
  predicate Blank(s: string) {
    forall c :: c in s ==> IsSpace(c)
  }

  /** A name or value of an attribute: some text, without a dot and without space around it. */
  predicate ValidWord(s: string) {
    s != "" && !IsSpace(s[0]) && !IsSpace(s[|s| - 1]) && '.' !in s
  }

  predicate ValidNamespace(n: Namespace) {
    n != [] && (forall a :: a in n ==> ValidWord(a.name) && ValidWord(a.value)) &&
    forall i, j :: 0 <= i < j < |n| ==> n[i].name != n[j].name
  }

  /** The same tenant, and every other attribute of the scope. */
  predicate Covers(scope: Namespace, n: Namespace) {
    scope != [] && n != [] && scope[0] == n[0] && forall a :: a in scope[1..] ==> a in n
  }

  predicate CanRead(scope: Scope, o: Object) {
    Covers(scope.namespace, o.namespace) && (o.readers == [] || exists r :: r in o.readers && r in scope.principals)
  }

  /** What a row must have to be put: an id, a kind and a namespace. */
  predicate Identity(o: Object) {
    o.id != "" && !Blank(o.fields.kind) && ValidNamespace(o.namespace)
  }

  // ---------------------------------------------------------------------------------------------
  // What a commit does
  // ---------------------------------------------------------------------------------------------

  function RevisionOf(revs: map<Id, nat>, id: Id): nat {
    if id in revs then revs[id] else 0
  }

  predicate ChildOf(objects: map<Id, Object>, id: Id, parent: Id) {
    id in objects && objects[id].parentId == Some(parent)
  }

  /** The live parts that a tree write may keep. */
  function Reusable(objects: map<Id, Object>, scope: Scope, parent: Id, model: string): set<Id> {
    set id | id in objects && objects[id].parentId == Some(parent) && !objects[id].deleted && CanRead(scope, objects[id]) &&
             objects[id].model == model
  }

  function CheckPut(objects: map<Id, Object>, scope: Scope, o: Object): Option<Error> {
    if !ValidNamespace(scope.namespace) || !Identity(o) || !Covers(scope.namespace, o.namespace) then Some(Invalid)
    else if o.id in objects && !CanRead(scope, objects[o.id]) then Some(NotFound)
    else None
  }

  function CheckParts(objects: map<Id, Object>, scope: Scope, parent: Id, staged: seq<TreePart>, seen: set<Id>): Option<Error>
    decreases |staged|
  {
    if staged == [] then None
    else
      var part := staged[0];
      if !Covers(scope.namespace, part.row.namespace) || part.row.id in seen then Some(Invalid)
      else if part.reused && !ChildOf(objects, part.row.id, parent) then Some(Conflict)
      else CheckParts(objects, scope, parent, staged[1..], seen + {part.row.id})
  }

  function Ids(staged: seq<TreePart>): set<Id> {
    set part | part in staged :: part.row.id
  }

  /** A part's row: a reused one keeps what it holds, in its new place. */
  function Placed(rows: map<Id, Object>, p: Object, part: TreePart): Object {
    var o := if part.reused && part.row.id in rows
             then rows[part.row.id].(position := part.row.position, properties := part.row.properties, deleted := false)
             else part.row;
    o.(namespace := p.namespace, readers := p.readers)
  }

  function PlaceAll(rows: map<Id, Object>, p: Object, staged: seq<TreePart>): map<Id, Object> {
    if staged == [] then rows
    else
      var before, part := PlaceAll(rows, p, staged[..|staged| - 1]), staged[|staged| - 1];
      before[part.row.id := Placed(before, p, part)]
  }

  /** The rows without the parts of p that do not stay, and with p. */
  function Cleared(objects: map<Id, Object>, p: Object, stay: set<Id>): map<Id, Object> {
    (map id | id in objects && !(objects[id].parentId == Some(p.id) && id !in stay) :: objects[id])[p.id := p]
  }

  function Committed(objects: map<Id, Object>, p: Object, staged: seq<TreePart>): map<Id, Object> {
    PlaceAll(Cleared(objects, p, Ids(staged)), p, staged)
  }

  /** Why the second half of a tree write that read revision rev is refused, in the source's order. */
  function CommitError(objects: map<Id, Object>, revs: map<Id, nat>, scope: Scope, p: Object, rev: nat,
                       staged: seq<TreePart>): Option<Error>
  {
    if CheckPut(objects, scope, p).Some? then CheckPut(objects, scope, p)
    else if RevisionOf(revs, p.id) != rev then Some(Conflict)
    else CheckParts(objects, scope, p.id, staged, {})
  }

  predicate Gone(objects: map<Id, Object>, scope: Scope, id: Id) {
    id !in objects || objects[id].deleted || !CanRead(scope, objects[id])
  }

  function DeleteError(objects: map<Id, Object>, scope: Scope, id: Id): Option<Error> {
    if !ValidNamespace(scope.namespace) then Some(Invalid) else if Gone(objects, scope, id) then Some(NotFound) else None
  }

  /** What a purge removes: rows deleted before its cutoff; `aged` are the ids deleted by then. */
  function Purged(objects: map<Id, Object>, scope: Scope, aged: set<Id>): set<Id> {
    set id | id in objects && objects[id].deleted && id in aged && Covers(scope.namespace, objects[id].namespace)
  }

  function Erased(objects: map<Id, Object>, scope: Scope): set<Id> {
    set id | id in objects && CanRead(scope, objects[id])
  }

  /** The first-class objects among rows. */
  function Parents(objects: map<Id, Object>, rows: set<Id>): set<Id> {
    set id | id in rows && id in objects && objects[id].parentId.None?
  }

  function Marked(objects: map<Id, Object>, id: Id): map<Id, Object> {
    map x | x in objects :: if x == id || objects[x].parentId == Some(id) then objects[x].(deleted := true) else objects[x]
  }

  class MemoryStore {
    var objects: map<Id, Object>
    var revs: map<Id, nat>

    constructor ()
      ensures objects == map[] && revs == map[]
    {
      objects, revs := map[], map[];
    }

    /** The first half of a tree write: the tree's revision, and its parts that may stay. */
    method ReadTree(scope: Scope, parent: Id, model: string) returns (rev: nat, reusable: set<Id>)
      ensures rev == RevisionOf(revs, parent) && reusable == Reusable(objects, scope, parent, model)
    {
      rev := if parent in revs then revs[parent] else 0;
      reusable := {};
      var left := objects.Keys;
      while left != {}
        invariant left <= objects.Keys && reusable == Reusable(objects, scope, parent, model) - left
        decreases |left|
      {
        var id: Id :| id in left;
        left := left - {id};
        var o := objects[id];
        if o.parentId == Some(parent) && !o.deleted && CanRead(scope, o) && o.model == model {
          reusable := reusable + {id};
        }
      }
    }

    /** The second half: all of the tree, or an error that changes nothing. */
    method CommitTree(scope: Scope, p: Object, rev: nat, staged: seq<TreePart>) returns (err: Option<Error>)
      modifies this
      ensures err == CommitError(old(objects), old(revs), scope, p, rev, staged)
      ensures err.Some? ==> objects == old(objects) && revs == old(revs)
      ensures err.None? ==> objects == Committed(old(objects), p, staged) && revs == old(revs)[p.id := rev + 1]
    {
      err := CheckPut(objects, scope, p);
      if err.Some? {
        return;
      }
      if RevisionOf(revs, p.id) != rev {
        return Some(Conflict);
      }
      var stay: set<Id> := {};
      for i := 0 to |staged|
        invariant objects == old(objects) && revs == old(revs) && stay == Ids(staged[..i])
        invariant CheckParts(objects, scope, p.id, staged, {}) == CheckParts(objects, scope, p.id, staged[i..], stay)
      {
        assert staged[i..][1..] == staged[i + 1..];
        var part := staged[i];
        if !Covers(scope.namespace, part.row.namespace) || part.row.id in stay {
          return Some(Invalid);
        }
        if part.reused && !(part.row.id in objects && objects[part.row.id].parentId == Some(p.id)) {
          return Some(Conflict);
        }
        assert staged[..i + 1] == staged[..i] + [part];
        stay := stay + {part.row.id};
      }
      assert staged[..|staged|] == staged;
      Clear(p, stay);
      for i := 0 to |staged|
        invariant objects == PlaceAll(Cleared(old(objects), p, stay), p, staged[..i]) && revs == old(revs)
      {
        assert staged[..i + 1][..i] == staged[..i];
        var part := staged[i];
        var o := part.row;
        if part.reused && o.id in objects {
          o := objects[o.id].(position := o.position, properties := o.properties, deleted := false);
        }
        objects := objects[part.row.id := o.(namespace := p.namespace, readers := p.readers)];
      }
      revs := revs[p.id := rev + 1];
    }

    method Clear(p: Object, stay: set<Id>)
      modifies this`objects
      ensures objects == Cleared(old(objects), p, stay)
    {
      hide Cleared, Leaving, Among;
      ghost var was, gone, done: set<Id> := objects, Leaving(objects, p, stay), {};
      var left := objects.Keys;
      AmongNone(gone);
      while left != {}
        invariant done <= was.Keys && left == was.Keys - done && objects == was - Among(gone, done)
        decreases |left|
      {
        var id: Id :| id in left;
        LeavingOne(was, p, stay, id);
        AmongStep(was, was, gone, done, id);
        left, done := left - {id}, done + {id};
        if objects[id].parentId == Some(p.id) && id !in stay {
          objects := objects - {id};
        }
      }
      LeavingOf(was, p, stay);
      AmongAll(gone, done);
      objects := objects[p.id := p];
    }

    method Put(scope: Scope, o: Object) returns (err: Option<Error>)
      modifies this`objects
      ensures err == CheckPut(old(objects), scope, o)
      ensures objects == if err.Some? then old(objects) else old(objects)[o.id := o]
    {
      err := CheckPut(objects, scope, o);
      if err.None? {
        objects := objects[o.id := o];
      }
    }

    /** Marks an object and its live parts deleted. */
    method SoftDelete(scope: Scope, id: Id) returns (err: Option<Error>)
      modifies this`objects
      ensures err == DeleteError(old(objects), scope, id)
      ensures err.Some? ==> objects == old(objects)
      ensures err.None? ==> objects == Marked(old(objects), id)
    {
      hide CanRead, ValidNamespace, MarkedAmong, Marked;
      if !ValidNamespace(scope.namespace) {
        return Some(Invalid);
      }
      if id !in objects || objects[id].deleted || !CanRead(scope, objects[id]) {
        return Some(NotFound);
      }
      ghost var was, done: set<Id> := objects, {};
      var left := objects.Keys;
      MarkedNone(was, id);
      while left != {}
        invariant done <= was.Keys && left == was.Keys - done && objects == MarkedAmong(was, id, done)
        decreases |left|
      {
        var x: Id :| x in left;
        MarkedStep(was, id, done, x);
        left, done := left - {x}, done + {x};
        if x == id || (objects[x].parentId == Some(id) && !objects[x].deleted) {
          objects := objects[x := objects[x].(deleted := true)];
        }
      }
      MarkedWhole(was, id, done);
      err := None;
    }

    /** Removes a row, and its tree's revision. */
    method Drop(id: Id)
      modifies this
      ensures objects == old(objects) - {id} && revs == old(revs) - {id}
    {
      objects, revs := objects - {id}, revs - {id};
    }

    /** Removes what was deleted before a cutoff, and the revisions of the trees among it. */
    method PurgeDeleted(scope: Scope, aged: set<Id>) returns (err: Option<Error>, n: nat)
      modifies this
      ensures err == if ValidNamespace(scope.namespace) then None else Some(Invalid)
      ensures err.Some? ==> objects == old(objects) && revs == old(revs) && n == 0
      ensures err.None? ==> var gone := Purged(old(objects), scope, aged);
        objects == old(objects) - gone && revs == old(revs) - gone && n == |gone|
    {
      hide Purged, Among;
      if !ValidNamespace(scope.namespace) {
        return Some(Invalid), 0;
      }
      ghost var was, wasRevs, gone, done: set<Id> := objects, revs, Purged(objects, scope, aged), {};
      var left := objects.Keys;
      n := 0;
      AmongNone(gone);
      while left != {}
        invariant done <= was.Keys && left == was.Keys - done && n == |Among(gone, done)|
        invariant objects == was - Among(gone, done) && revs == wasRevs - Among(gone, done)
        decreases |left|
      {
        var id: Id :| id in left;
        PurgedOne(was, scope, aged, id);
        AmongStep(was, wasRevs, gone, done, id);
        left, done := left - {id}, done + {id};
        if objects[id].deleted && id in aged && Covers(scope.namespace, objects[id].namespace) {
          Drop(id);
          n := n + 1;
        }
      }
      PurgedOf(was, scope, aged);
      AmongAll(gone, done);
      err := None;
    }

    /** Removes every row the scope reads, and the revisions of the trees among them. */
    method Erase(scope: Scope) returns (err: Option<Error>, parents: set<Id>)
      modifies this
      ensures err == if ValidNamespace(scope.namespace) then None else Some(Invalid)
      ensures err.Some? ==> objects == old(objects) && revs == old(revs) && parents == {}
      ensures err.None? ==> var gone := Erased(old(objects), scope);
        objects == old(objects) - gone && revs == old(revs) - gone &&
        parents == Parents(old(objects), gone)
    {
      hide Erased, Parents, Among, CanRead, ValidNamespace;
      if !ValidNamespace(scope.namespace) {
        return Some(Invalid), {};
      }
      ghost var was, wasRevs, gone, done: set<Id> := objects, revs, Erased(objects, scope), {};
      var left := objects.Keys;
      parents := {};
      AmongNone(gone);
      ParentsNone(was);
      while left != {}
        invariant done <= was.Keys && left == was.Keys - done && parents == Parents(was, Among(gone, done))
        invariant objects == was - Among(gone, done) && revs == wasRevs - Among(gone, done)
        decreases |left|
      {
        var id: Id :| id in left;
        ErasedOne(was, scope, id);
        AmongStep(was, wasRevs, gone, done, id);
        ParentsStep(was, gone, done, id);
        left, done := left - {id}, done + {id};
        if CanRead(scope, objects[id]) {
          parents := parents + if objects[id].parentId.None? then {id} else {};
          Drop(id);
        }
      }
      ErasedOf(was, scope);
      AmongAll(gone, done);
      err := None;
    }
  }

  // What a loop over the rows has done so far.

  function Among(gone: set<Id>, done: set<Id>): set<Id> {
    gone * done
  }

  lemma AmongNone(gone: set<Id>)
    ensures Among(gone, {}) == {}
  {
  }

  lemma AmongStep<V, W>(was: map<Id, V>, revs: map<Id, W>, gone: set<Id>, done: set<Id>, id: Id)
    requires id in was && id !in done
    ensures id in was - Among(gone, done) && (was - Among(gone, done))[id] == was[id]
    ensures if id in gone then Among(gone, done + {id}) == Among(gone, done) + {id} && id !in Among(gone, done)
            else Among(gone, done + {id}) == Among(gone, done)
    ensures id in gone ==> (was - Among(gone, done)) - {id} == was - Among(gone, done + {id})
    ensures id in gone ==> (revs - Among(gone, done)) - {id} == revs - Among(gone, done + {id})
  {
  }

  lemma AmongAll(gone: set<Id>, done: set<Id>)
    requires gone <= done
    ensures Among(gone, done) == gone
  {
  }

  function Leaving(objects: map<Id, Object>, p: Object, stay: set<Id>): set<Id> {
    set id | id in objects && objects[id].parentId == Some(p.id) && id !in stay
  }

  lemma LeavingOne(objects: map<Id, Object>, p: Object, stay: set<Id>, id: Id)
    requires id in objects
    ensures id in Leaving(objects, p, stay) <==> objects[id].parentId == Some(p.id) && id !in stay
  {
  }

  lemma LeavingOf(objects: map<Id, Object>, p: Object, stay: set<Id>)
    ensures Leaving(objects, p, stay) <= objects.Keys
    ensures (objects - Leaving(objects, p, stay))[p.id := p] == Cleared(objects, p, stay)
  {
  }

  lemma PurgedOne(objects: map<Id, Object>, scope: Scope, aged: set<Id>, id: Id)
    requires id in objects
    ensures id in Purged(objects, scope, aged) <==> objects[id].deleted && id in aged && Covers(scope.namespace, objects[id].namespace)
  {
  }

  lemma PurgedOf(objects: map<Id, Object>, scope: Scope, aged: set<Id>)
    ensures Purged(objects, scope, aged) <= objects.Keys
  {
  }

  lemma ErasedOne(objects: map<Id, Object>, scope: Scope, id: Id)
    requires id in objects
    ensures id in Erased(objects, scope) <==> CanRead(scope, objects[id])
  {
  }

  lemma ErasedOf(objects: map<Id, Object>, scope: Scope)
    ensures Erased(objects, scope) <= objects.Keys
  {
  }

  lemma ParentsNone(objects: map<Id, Object>)
    ensures Parents(objects, {}) == {}
  {
  }

  lemma ParentsStep(objects: map<Id, Object>, gone: set<Id>, done: set<Id>, id: Id)
    requires id in objects && id !in done
    ensures Parents(objects, Among(gone, done + {id})) ==
            Parents(objects, Among(gone, done)) + if id in gone && objects[id].parentId.None? then {id} else {}
  {
  }

  /** The rows after the soft delete of id has gone over `done`. */
  function MarkedAmong(objects: map<Id, Object>, id: Id, done: set<Id>): map<Id, Object> {
    map x | x in objects ::
      if x in done && (x == id || objects[x].parentId == Some(id)) then objects[x].(deleted := true) else objects[x]
  }

  lemma MarkedNone(objects: map<Id, Object>, id: Id)
    ensures MarkedAmong(objects, id, {}) == objects
  {
  }

  lemma MarkedStep(objects: map<Id, Object>, id: Id, done: set<Id>, x: Id)
    requires x in objects && x !in done
    ensures var before := MarkedAmong(objects, id, done);
      x in before && before[x] == objects[x] &&
      MarkedAmong(objects, id, done + {x}) ==
        if x == id || (objects[x].parentId == Some(id) && !objects[x].deleted) then before[x := objects[x].(deleted := true)] else before
  {
  }

  lemma MarkedWhole(objects: map<Id, Object>, id: Id, done: set<Id>)
    requires objects.Keys <= done
    ensures MarkedAmong(objects, id, done) == Marked(objects, id)
  {
  }

  // ---------------------------------------------------------------------------------------------
  // Row by row
  // ---------------------------------------------------------------------------------------------

  predicate DistinctStaged(staged: seq<TreePart>) {
    forall i, j :: 0 <= i < j < |staged| ==> staged[i].row.id != staged[j].row.id
  }

  lemma {:induction false} CheckedParts(objects: map<Id, Object>, scope: Scope, parent: Id, staged: seq<TreePart>, seen: set<Id>)
    requires CheckParts(objects, scope, parent, staged, seen).None?
    ensures DistinctStaged(staged)
    ensures forall part :: part in staged ==> part.row.id !in seen && (part.reused ==> ChildOf(objects, part.row.id, parent))
    decreases |staged|
  {
    if staged != [] {
      CheckedParts(objects, scope, parent, staged[1..], seen + {staged[0].row.id});
      forall j | 0 < j < |staged| ensures staged[j].row.id != staged[0].row.id { assert staged[j] in staged[1..]; }
      forall i, j | 0 < i < j < |staged| ensures staged[i].row.id != staged[j].row.id {
        assert staged[1..][i - 1] == staged[i] && staged[1..][j - 1] == staged[j];
      }
    }
  }

  lemma {:induction false} PlacedOther(rows: map<Id, Object>, p: Object, staged: seq<TreePart>, id: Id)
    requires id !in Ids(staged)
    ensures id in PlaceAll(rows, p, staged) <==> id in rows
    ensures id in rows ==> PlaceAll(rows, p, staged)[id] == rows[id]
    decreases |staged|
  {
    if staged != [] {
      assert staged[|staged| - 1] in staged;
      assert forall part :: part in staged[..|staged| - 1] ==> part in staged;
      PlacedOther(rows, p, staged[..|staged| - 1], id);
    }
  }

  lemma {:induction false} PlacedPart(rows: map<Id, Object>, p: Object, staged: seq<TreePart>, i: nat)
    requires DistinctStaged(staged) && i < |staged|
    ensures staged[i].row.id in PlaceAll(rows, p, staged)
    ensures PlaceAll(rows, p, staged)[staged[i].row.id] == Placed(rows, p, staged[i])
    decreases |staged|
  {
    hide Placed;
    var init, last := staged[..|staged| - 1], staged[|staged| - 1];
    if i < |init| {
      PlacedPart(rows, p, init, i);
    } else {
      assert last.row.id !in Ids(init);
      PlacedOther(rows, p, init, last.row.id);
      PlacedSame(rows, PlaceAll(rows, p, init), p, last);
    }
  }

  lemma PlacedSame(a: map<Id, Object>, b: map<Id, Object>, p: Object, part: TreePart)
    requires (part.row.id in a <==> part.row.id in b) && (part.row.id in a ==> a[part.row.id] == b[part.row.id])
    ensures Placed(a, p, part) == Placed(b, p, part)
  {
  }

  // ---------------------------------------------------------------------------------------------
  // The simple rewrite
  // ---------------------------------------------------------------------------------------------

  function Inserted(rows: map<Id, Object>, xs: seq<Indexed>): map<Id, Object> {
    if xs == [] then rows else Inserted(rows, xs[..|xs| - 1])[xs[|xs| - 1].row.id := xs[|xs| - 1].row]
  }

  /** Every part deleted, the parent stored, and every part inserted. */
  function Rewritten(objects: map<Id, Object>, p: Object, xs: seq<Indexed>): map<Id, Object> {
    Inserted(Cleared(objects, p, {}), xs)
  }

  function PartIds(xs: seq<Indexed>): set<Id> {
    set x | x in xs :: x.row.id
  }

  lemma {:induction false} InsertedOther(rows: map<Id, Object>, xs: seq<Indexed>, id: Id)
    requires id !in PartIds(xs)
    ensures id in Inserted(rows, xs) <==> id in rows
    ensures id in rows ==> Inserted(rows, xs)[id] == rows[id]
    decreases |xs|
  {
    if xs != [] {
      assert xs[|xs| - 1] in xs;
      assert forall x :: x in xs[..|xs| - 1] ==> x in xs;
      InsertedOther(rows, xs[..|xs| - 1], id);
    }
  }

  lemma {:induction false} InsertedPart(rows: map<Id, Object>, xs: seq<Indexed>, i: nat)
    requires DistinctIds(xs) && i < |xs|
    ensures xs[i].row.id in Inserted(rows, xs) && Inserted(rows, xs)[xs[i].row.id] == xs[i].row
    decreases |xs|
  {
    if i < |xs| - 1 { InsertedPart(rows, xs[..|xs| - 1], i); }
  }

  /** A row but for its embedding. */
  function View(o: Object): Object {
    o.(model := "")
  }

  ghost predicate SameRows(a: map<Id, Object>, b: map<Id, Object>) {
    a.Keys == b.Keys && forall id :: id in a ==> View(a[id]) == View(b[id])
  }

  /** The parts of the write that keep a row keep one of their own content. */
  predicate RowsMatch(objects: map<Id, Object>, xs: seq<Indexed>, reusable: set<Id>) {
    forall x :: x in xs && x.row.id in reusable ==> x.row.id in objects && objects[x.row.id].fields == x.row.fields
  }

  predicate PartsOf(p: Object, xs: seq<Indexed>) {
    forall x :: x in xs ==>
      x.row.parentId == Some(p.id) && x.row.namespace == p.namespace && x.row.readers == p.readers && !x.row.deleted &&
      x.row.id != p.id
  }

  /** staged is what embedding the parts gives the store: its batches, in the order they finished. */
  ghost predicate StagedFrom(xs: seq<Indexed>, reusable: set<Id>, model: string, staged: seq<TreePart>) {
    exists batches: seq<seq<TreePart>> :: Flatten(batches) == StagedAll(xs, reusable, model) && InSomeOrder(batches, staged)
  }

  lemma StagedBag(xs: seq<Indexed>, reusable: set<Id>, model: string, staged: seq<TreePart>)
    requires StagedFrom(xs, reusable, model, staged)
    ensures multiset(staged) == multiset(StagedAll(xs, reusable, model))
  {
    var batches: seq<seq<TreePart>> :| Flatten(batches) == StagedAll(xs, reusable, model) && InSomeOrder(batches, staged);
    var order: seq<seq<TreePart>> :| multiset(order) == multiset(batches) && staged == Flatten(order);
    FlattenBag(order, batches);
  }

  lemma StagedMember(xs: seq<Indexed>, reusable: set<Id>, model: string, staged: seq<TreePart>, i: nat) returns (j: nat)
    requires multiset(staged) == multiset(StagedAll(xs, reusable, model)) && i < |xs|
    ensures j < |staged| && staged[j] == Staged(xs[i], reusable, model)
  {
    var all := StagedAll(xs, reusable, model);
    assert all[i] in multiset(staged);
    j :| 0 <= j < |staged| && staged[j] == all[i];
  }

  lemma StagedIds(xs: seq<Indexed>, reusable: set<Id>, model: string, staged: seq<TreePart>)
    requires multiset(staged) == multiset(StagedAll(xs, reusable, model))
    ensures Ids(staged) == PartIds(xs)
  {
    var all := StagedAll(xs, reusable, model);
    forall id ensures id in Ids(staged) <==> id in PartIds(xs) {
      if id in Ids(staged) {
        var part :| part in staged && part.row.id == id;
        assert part in multiset(all);
        var i :| 0 <= i < |all| && all[i] == part;
        assert xs[i] in xs && xs[i].row.id == id;
      }
      if id in PartIds(xs) {
        var x :| x in xs && x.row.id == id;
        var i :| 0 <= i < |xs| && xs[i] == x;
        var j := StagedMember(xs, reusable, model, staged, i);
        assert staged[j] in staged && staged[j].row.id == id;
      }
    }
  }

  /** Every row is stored under its own id. */
  predicate Keyed(objects: map<Id, Object>) {
    forall id :: id in objects ==> objects[id].id == id
  }

  /** A part's row after the commit is the row inserted fresh, exactly when a kept row matches. */
  lemma PartRow(objects: map<Id, Object>, scope: Scope, p: Object, xs: seq<Indexed>, reusable: set<Id>, model: string,
                staged: seq<TreePart>, i: nat)
    requires Keyed(objects) && DistinctIds(xs) && PartsOf(p, xs) && i < |xs|
    requires multiset(staged) == multiset(StagedAll(xs, reusable, model))
    requires CheckParts(objects, scope, p.id, staged, {}).None?
    ensures var id := xs[i].row.id;
      id in Committed(objects, p, staged) && id in Rewritten(objects, p, xs) &&
      (View(Committed(objects, p, staged)[id]) == View(Rewritten(objects, p, xs)[id]) <==>
       (id in reusable ==> id in objects && objects[id].fields == xs[i].row.fields))
  {
    hide CheckParts, PlaceAll, Inserted;
    var x := xs[i];
    assert x in xs;
    var j := StagedMember(xs, reusable, model, staged, i);
    CheckedParts(objects, scope, p.id, staged, {});
    assert staged[j] in staged;
    var rows := Cleared(objects, p, Ids(staged));
    PlacedPart(rows, p, staged, j);
    InsertedPart(Cleared(objects, p, {}), xs, i);
    if x.row.id in reusable {
      assert ChildOf(objects, x.row.id, p.id);
      assert x.row.id in Ids(staged);
      assert rows[x.row.id] == objects[x.row.id];
      assert View(Placed(rows, p, staged[j])) == View(x.row.(fields := objects[x.row.id].fields));
    } else {
      assert View(Placed(rows, p, staged[j])) == View(x.row);
    }
  }

  lemma OtherRow(objects: map<Id, Object>, p: Object, xs: seq<Indexed>, staged: seq<TreePart>, id: Id)
    requires Ids(staged) == PartIds(xs) && id !in PartIds(xs)
    ensures id in Committed(objects, p, staged) <==> id in Rewritten(objects, p, xs)
    ensures id in Committed(objects, p, staged) ==> Committed(objects, p, staged)[id] == Rewritten(objects, p, xs)[id]
  {
    hide PlaceAll, Inserted;
    PlacedOther(Cleared(objects, p, Ids(staged)), p, staged, id);
    InsertedOther(Cleared(objects, p, {}), xs, id);
  }

  /** Main result: in whatever order its batches finish, a tree write leaves the rows that deleting
      every part and inserting all of them leaves, if and only if each row it kept has the content of
      its part. */
  lemma WriteIsRewrite(objects: map<Id, Object>, scope: Scope, p: Object, xs: seq<Indexed>, reusable: set<Id>, model: string,
                       staged: seq<TreePart>)
    requires Keyed(objects) && DistinctIds(xs) && PartsOf(p, xs) && StagedFrom(xs, reusable, model, staged)
    requires CheckParts(objects, scope, p.id, staged, {}).None?
    ensures SameRows(Committed(objects, p, staged), Rewritten(objects, p, xs)) <==> RowsMatch(objects, xs, reusable)
  {
    hide CheckParts, Committed, Rewritten, PartsOf, View;
    StagedBag(xs, reusable, model, staged);
    StagedIds(xs, reusable, model, staged);
    var a, b := Committed(objects, p, staged), Rewritten(objects, p, xs);
    forall i | 0 <= i < |xs|
      ensures xs[i].row.id in a && xs[i].row.id in b
      ensures View(a[xs[i].row.id]) == View(b[xs[i].row.id]) <==>
        (xs[i].row.id in reusable ==> xs[i].row.id in objects && objects[xs[i].row.id].fields == xs[i].row.fields)
    {
      PartRow(objects, scope, p, xs, reusable, model, staged, i);
    }
    forall id | id !in PartIds(xs)
      ensures (id in a <==> id in b) && (id in a ==> a[id] == b[id])
    {
      OtherRow(objects, p, xs, staged, id);
    }
    SameByParts(objects, xs, reusable, a, b);
  }

  lemma SameByParts(objects: map<Id, Object>, xs: seq<Indexed>, reusable: set<Id>, a: map<Id, Object>, b: map<Id, Object>)
    requires forall i :: 0 <= i < |xs| ==> xs[i].row.id in a && xs[i].row.id in b
    requires forall i :: 0 <= i < |xs| ==>
      (View(a[xs[i].row.id]) == View(b[xs[i].row.id]) <==>
       (xs[i].row.id in reusable ==> xs[i].row.id in objects && objects[xs[i].row.id].fields == xs[i].row.fields))
    requires forall id :: id !in PartIds(xs) ==> (id in a <==> id in b) && (id in a ==> a[id] == b[id])
    ensures SameRows(a, b) <==> RowsMatch(objects, xs, reusable)
  {
    hide View;
    forall id ensures id in a <==> id in b {
      if id in PartIds(xs) {
        var x :| x in xs && x.row.id == id;
        var i :| 0 <= i < |xs| && xs[i] == x;
      }
    }
    if RowsMatch(objects, xs, reusable) {
      forall id | id in a ensures View(a[id]) == View(b[id]) {
        if id in PartIds(xs) {
          var x :| x in xs && x.row.id == id;
          var i :| 0 <= i < |xs| && xs[i] == x;
        }
      }
    }
    if SameRows(a, b) {
      forall x | x in xs && x.row.id in reusable ensures x.row.id in objects && objects[x.row.id].fields == x.row.fields {
        var i :| 0 <= i < |xs| && xs[i] == x;
      }
    }
  }
}
