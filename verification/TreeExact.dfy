/** What the operations on trees do, row by row and part by part (brain/tree.go, preparePart;
    brain/embed.go; brain/memory.go). */
module TreeExact {
  import opened Messages
  import opened TreeParts
  import opened TreeStore

  // ---------------------------------------------------------------------------------------------
  // Parts
  // ---------------------------------------------------------------------------------------------

  /** A part is refused with an id, deleted, in another namespace, or when it is not valid as it would
      be stored; what the caller left open is filled in from the parent and its place. */
  ghost predicate PreparesAs<D>(e: Engine<D>, parent: Object, p: NewPart, i: nat, r: Option<Indexed>) {
    if p.id.Some? || p.deleted || (p.namespace != [] && p.namespace != parent.namespace) then r.None?
    else exists o: Object :: FilledIn(e, parent, p, i, o) && if e.valid(o) then r == Some(Indexed(o, e.text(o, parent))) else r.None?
  }

  predicate FilledIn<D>(e: Engine<D>, parent: Object, p: NewPart, i: nat, o: Object) {
    o.id == "" && o.parentId == Some(parent.id) && o.namespace == parent.namespace && o.readers == parent.readers &&
    o.fields.kind == e.trim(p.fields.kind) && o.fields.contentType == p.fields.contentType &&
    o.fields.title == p.fields.title && o.fields.summary == p.fields.summary && o.fields.content == p.fields.content &&
    (if p.position.Some? then o.position == p.position else o.position == Some(i)) &&
    o.properties == p.properties && o.model == "" && !o.deleted
  }

  lemma PreparesExactly<D>(e: Engine<D>, parent: Object, p: NewPart, i: nat)
    ensures PreparesAs(e, parent, p, i, Prepared(e, parent, p, i))
  {
    var o := Object("", Some(parent.id), parent.namespace, parent.readers, p.fields.(kind := e.trim(p.fields.kind)),
                    if p.position.Some? then p.position else Some(i), p.properties, "", false);
    assert FilledIn(e, parent, p, i, o);
  }

  /** A kept part goes to the store as its id, place and properties only; a new one goes whole, with the
      model when it has a text. */
  predicate StagesAs(x: Indexed, reusable: set<Id>, model: string, part: TreePart) {
    part.row.id == x.row.id && part.row.parentId == x.row.parentId && part.row.namespace == x.row.namespace &&
    part.row.position == x.row.position && part.row.properties == x.row.properties && part.row.deleted == x.row.deleted &&
    if x.row.id in reusable then part.reused && part.row.fields == Fields("", "", "", "", "") && part.row.readers == []
    else
      !part.reused && part.row.fields == x.row.fields && part.row.readers == x.row.readers &&
      (x.text == "" ==> part.row.model == "") && (x.text != "" ==> part.row.model == model)
  }

  lemma StagesExactly(xs: seq<Indexed>, reusable: set<Id>, model: string)
    ensures forall i :: 0 <= i < |xs| ==> StagesAs(xs[i], reusable, model, StagedAll(xs, reusable, model)[i])
  {
  }

  // ---------------------------------------------------------------------------------------------
  // What a scope sees
  // ---------------------------------------------------------------------------------------------

  /** The first attribute is the tenant's and is the first of the row; the scope's others are among the
      row's. */
  predicate Within(scope: Namespace, n: Namespace) {
    |scope| > 0 && |n| > 0 && n[0] == scope[0] && forall i :: 0 < i < |scope| ==> scope[i] in n
  }

  ghost predicate Sees(scope: Scope, o: Object) {
    Within(scope.namespace, o.namespace) && (o.readers != [] ==> exists r :: r in o.readers && r in scope.principals)
  }

  lemma CoversIs(scope: Namespace, n: Namespace)
    ensures Covers(scope, n) <==> Within(scope, n)
  {
    if Covers(scope, n) {
      forall i | 0 < i < |scope| ensures scope[i] in n { assert scope[i] == scope[1..][i - 1]; }
    }
  }

  lemma SeesIs(scope: Scope, o: Object)
    ensures CanRead(scope, o) <==> Sees(scope, o)
  {
    CoversIs(scope.namespace, o.namespace);
  }

  ghost predicate Keepable(objects: map<Id, Object>, scope: Scope, parent: Id, model: string, id: Id) {
    id in objects && objects[id].parentId == Some(parent) && !objects[id].deleted && objects[id].model == model &&
    Sees(scope, objects[id])
  }

  lemma ReusableExactly(objects: map<Id, Object>, scope: Scope, parent: Id, model: string, id: Id)
    ensures id in Reusable(objects, scope, parent, model) <==> Keepable(objects, scope, parent, model, id)
  {
    hide CanRead, Sees;
    if id in objects { SeesIs(scope, objects[id]); }
  }

  // ---------------------------------------------------------------------------------------------
  // Why a write is refused
  // ---------------------------------------------------------------------------------------------

  /** A row is refused as invalid, or as not found when a row the scope does not see has its id. */
  ghost predicate PutRefused(objects: map<Id, Object>, scope: Scope, o: Object, err: Option<Error>) {
    var valid := ValidNamespace(scope.namespace) && o.id != "" && !Blank(o.fields.kind) && ValidNamespace(o.namespace) &&
                 Within(scope.namespace, o.namespace);
    if !valid then err == Some(Invalid)
    else if o.id in objects && !Sees(scope, objects[o.id]) then err == Some(NotFound)
    else err.None?
  }

  lemma PutExactly(objects: map<Id, Object>, scope: Scope, o: Object)
    ensures PutRefused(objects, scope, o, CheckPut(objects, scope, o))
  {
    hide ValidNamespace, Blank, CanRead, Sees, Covers, Within;
    CoversIs(scope.namespace, o.namespace);
    if o.id in objects { SeesIs(scope, objects[o.id]); }
  }

  /** Part k is outside the scope, or an earlier one has its id. */
  predicate Misplaced(scope: Scope, staged: seq<TreePart>, k: nat)
    requires k < |staged|
  {
    !Within(scope.namespace, staged[k].row.namespace) || exists j :: 0 <= j < k && staged[j].row.id == staged[k].row.id
  }

  /** Part k is to keep a row that is no part of the tree. */
  predicate Lost(objects: map<Id, Object>, parent: Id, staged: seq<TreePart>, k: nat)
    requires k < |staged|
  {
    staged[k].reused && !(staged[k].row.id in objects && objects[staged[k].row.id].parentId == Some(parent))
  }

  /** The first part that cannot be stored says why. */
  ghost predicate PartsRefused(objects: map<Id, Object>, scope: Scope, parent: Id, staged: seq<TreePart>, err: Option<Error>) {
    if exists k: nat :: k < |staged| && Faulty(objects, scope, parent, staged, k) then
      exists k: nat :: k < |staged| && Faulty(objects, scope, parent, staged, k) &&
        (forall j: nat :: j < k ==> !Faulty(objects, scope, parent, staged, j)) &&
        err == Some(if Misplaced(scope, staged, k) then Invalid else Conflict)
    else err.None?
  }

  predicate Faulty(objects: map<Id, Object>, scope: Scope, parent: Id, staged: seq<TreePart>, k: nat)
    requires k < |staged|
  {
    Misplaced(scope, staged, k) || Lost(objects, parent, staged, k)
  }

  ghost predicate TreeRefused(objects: map<Id, Object>, revs: map<Id, nat>, scope: Scope, p: Object, rev: nat,
                              staged: seq<TreePart>, err: Option<Error>)
  {
    if !PutRefused(objects, scope, p, None) then PutRefused(objects, scope, p, err)
    else if (if p.id in revs then revs[p.id] else 0) != rev then err == Some(Conflict)
    else PartsRefused(objects, scope, p.id, staged, err)
  }

  lemma {:induction false} PartsExactly(objects: map<Id, Object>, scope: Scope, parent: Id, staged: seq<TreePart>, i: nat)
    requires i <= |staged| && forall j: nat :: j < i ==> !Faulty(objects, scope, parent, staged, j)
    ensures PartsRefused(objects, scope, parent, staged, CheckParts(objects, scope, parent, staged[i..], Ids(staged[..i])))
    decreases |staged| - i
  {
    hide Within, Covers;
    if i < |staged| {
      var part := staged[i];
      assert staged[i..][1..] == staged[i + 1..] && staged[..i + 1] == staged[..i] + [part];
      assert Ids(staged[..i + 1]) == Ids(staged[..i]) + {part.row.id};
      CoversIs(scope.namespace, part.row.namespace);
      TakenBefore(staged, i);
      if !Faulty(objects, scope, parent, staged, i) { PartsExactly(objects, scope, parent, staged, i + 1); }
    }
  }

  lemma TakenBefore(staged: seq<TreePart>, i: nat)
    requires i < |staged|
    ensures staged[i].row.id in Ids(staged[..i]) <==> exists j :: 0 <= j < i && staged[j].row.id == staged[i].row.id
  {
    if j :| 0 <= j < i && staged[j].row.id == staged[i].row.id {
      assert staged[j] in staged[..i];
    }
  }

  lemma CommitErrorExactly(objects: map<Id, Object>, revs: map<Id, nat>, scope: Scope, p: Object, rev: nat, staged: seq<TreePart>)
    ensures TreeRefused(objects, revs, scope, p, rev, staged, CommitError(objects, revs, scope, p, rev, staged))
  {
    hide CheckPut, CheckParts, PartsRefused;
    PutExactly(objects, scope, p);
    PutOnce(objects, scope, p, CheckPut(objects, scope, p));
    assert staged[0..] == staged && Ids(staged[..0]) == {};
    PartsExactly(objects, scope, p.id, staged, 0);
  }

  lemma PutOnce(objects: map<Id, Object>, scope: Scope, o: Object, err: Option<Error>)
    requires PutRefused(objects, scope, o, err)
    ensures PutRefused(objects, scope, o, None) <==> err.None?
  {
    hide ValidNamespace, Blank, Sees, Within;
  }

  // ---------------------------------------------------------------------------------------------
  // The rows after a write
  // ---------------------------------------------------------------------------------------------

  /** A kept part has what its row held, live, in its new place; a new one is its row; both have the
      parent's namespace and readers. */
  predicate PartStored(objects: map<Id, Object>, p: Object, part: TreePart, row: Object) {
    row.namespace == p.namespace && row.readers == p.readers &&
    row.position == part.row.position && row.properties == part.row.properties &&
    if part.reused then
      part.row.id in objects &&
      var was := if part.row.id == p.id then p else objects[part.row.id];
      row.id == was.id && row.parentId == was.parentId && row.fields == was.fields && row.model == was.model && !row.deleted
    else
      row.id == part.row.id && row.parentId == part.row.parentId && row.fields == part.row.fields &&
      row.model == part.row.model && row.deleted == part.row.deleted
  }

  /** The tree is its parent and the staged parts, and no other row changes. */
  ghost predicate RowAfter(objects: map<Id, Object>, p: Object, staged: seq<TreePart>, after: map<Id, Object>, id: Id) {
    if exists k :: 0 <= k < |staged| && staged[k].row.id == id then
      id in after && forall k :: 0 <= k < |staged| && staged[k].row.id == id ==> PartStored(objects, p, staged[k], after[id])
    else if id == p.id then id in after && after[id] == p
    else if id in objects && objects[id].parentId != Some(p.id) then id in after && after[id] == objects[id]
    else id !in after
  }

  lemma CommitExactly(objects: map<Id, Object>, scope: Scope, p: Object, staged: seq<TreePart>, id: Id)
    requires CheckParts(objects, scope, p.id, staged, {}).None?
    ensures RowAfter(objects, p, staged, Committed(objects, p, staged), id)
  {
    hide CheckParts, PlaceAll, PartStored;
    CheckedParts(objects, scope, p.id, staged, {});
    var rows := Cleared(objects, p, Ids(staged));
    if k :| 0 <= k < |staged| && staged[k].row.id == id {
      forall j | 0 <= j < |staged| && staged[j].row.id == id
        ensures id in PlaceAll(rows, p, staged) && PartStored(objects, p, staged[j], PlaceAll(rows, p, staged)[id])
      {
        PlacedPart(rows, p, staged, j);
        PartIsStored(objects, scope, p, staged, j);
      }
    } else {
      NotStaged(staged, id);
      PlacedOther(rows, p, staged, id);
    }
  }

  lemma NotStaged(staged: seq<TreePart>, id: Id)
    requires forall k :: 0 <= k < |staged| ==> staged[k].row.id != id
    ensures id !in Ids(staged)
  {
  }

  lemma PartIsStored(objects: map<Id, Object>, scope: Scope, p: Object, staged: seq<TreePart>, k: nat)
    requires k < |staged| && forall part :: part in staged && part.reused ==> ChildOf(objects, part.row.id, p.id)
    ensures PartStored(objects, p, staged[k], Placed(Cleared(objects, p, Ids(staged)), p, staged[k]))
  {
    var part := staged[k];
    assert part in staged && part.row.id in Ids(staged);
  }

  /** A row under a soft delete: it and its parts are deleted; nothing else of any row changes. */
  predicate DeletedRow(objects: map<Id, Object>, id: Id, after: map<Id, Object>, x: Id) {
    (x in after <==> x in objects) &&
    (x in objects ==>
       (after[x].deleted <==> objects[x].deleted || x == id || objects[x].parentId == Some(id)) &&
       after[x].(deleted := objects[x].deleted) == objects[x])
  }

  lemma DeleteExactly(objects: map<Id, Object>, scope: Scope, id: Id, x: Id)
    ensures DeletedRow(objects, id, Marked(objects, id), x)
    ensures DeleteError(objects, scope, id) ==
      if !ValidNamespace(scope.namespace) then Some(Invalid)
      else if id in objects && !objects[id].deleted && Sees(scope, objects[id]) then None else Some(NotFound)
  {
    hide ValidNamespace, CanRead, Sees;
    if id in objects { SeesIs(scope, objects[id]); }
  }

  /** What a purge and an erase remove, and the first-class objects that an erase returns. */
  lemma RemovalsExactly(objects: map<Id, Object>, scope: Scope, aged: set<Id>, x: Id)
    ensures x in Purged(objects, scope, aged) <==>
      x in objects && objects[x].deleted && x in aged && Within(scope.namespace, objects[x].namespace)
    ensures x in Erased(objects, scope) <==> x in objects && Sees(scope, objects[x])
    ensures x in Parents(objects, Erased(objects, scope)) <==> x in objects && Sees(scope, objects[x]) && objects[x].parentId == None
  {
    hide CanRead, Sees, Covers, Within;
    if x in objects {
      SeesIs(scope, objects[x]);
      CoversIs(scope.namespace, objects[x].namespace);
    }
  }
}
