/** Whole runs of a store under tree writes and every other write (brain/memory.go, brain/tree.go,
    brain/write.go). */
module TreeRuns {
  import opened Messages
  import opened TreeParts
  import opened TreeStore

  // ---------------------------------------------------------------------------------------------
  // Runs
  // ---------------------------------------------------------------------------------------------

  datatype Store = Store(objects: map<Id, Object>, revs: map<Id, nat>)

  const EMPTY := Store(map[], map[])

  /** A tree write reads in state `at` and commits in the state of its step; every other operation
      holds the lock throughout. `text` is what the put object is indexed by. */
  datatype Step =
    | Commit(at: nat, scope: Scope, p: Object, xs: seq<Indexed>, staged: seq<TreePart>)
    | Put(scope: Scope, o: Object, text: string)
    | SoftDelete(scope: Scope, id: Id)
    | Purge(scope: Scope, aged: set<Id>)
    | Erase(scope: Scope)

  /** A row before the store has embedded it. */
  function Bare(o: Object): Object {
    o.(model := "")
  }

  /** The first attribute. */
  function Tenant(n: Namespace): Attr {
    if n == [] then Attr("", "") else n[0]
  }

  /** The model a row gets with its embedding. */
  function ModelOf<D>(e: Engine<D>, text: string): string {
    if text != "" then e.model else ""
  }

  predicate ShortParts(xs: seq<Indexed>) {
    forall x :: x in xs ==> Short(Strings(x.row.fields, x.text))
  }

  predicate IsParent<D>(e: Engine<D>, p: Object) {
    p.parentId.None? && !p.deleted && e.valid(Bare(p))
  }

  predicate PreparedAll<D>(e: Engine<D>, p: Object, parts: seq<NewPart>, xs: seq<Indexed>) {
    |parts| == |xs| && forall i :: 0 <= i < |xs| ==> IsPrepared(e, Bare(p), parts[i], i, xs[i])
  }

  /** A first-class parent, and its parts as the engine prepares them, under ids of their content. */
  ghost predicate FromEngine<D>(e: Engine<D>, p: Object, xs: seq<Indexed>) {
    IsParent(e, p) && Identified(e, p, xs) && ShortParts(xs) && exists parts: seq<NewPart> :: PreparedAll(e, p, parts, xs)
  }

  /** What the engine gives the store. */
  ghost predicate Can<D(!new)>(e: Engine<D>, read: Store, step: Step) {
    match step
    case Commit(_, scope, p, xs, staged) =>
      FromEngine(e, p, xs) && StagedFrom(xs, Reusable(read.objects, scope, p.id, e.model), e.model, staged)
    case Put(_, o, text) => !o.deleted && o.parentId != Some("") && e.valid(Bare(o)) && o.model == ModelOf(e, text)
    case _ => true
  }

  predicate Succeeds(read: Store, now: Store, step: Step) {
    step.Commit? &&
    CommitError(now.objects, now.revs, step.scope, step.p, RevisionOf(read.revs, step.p.id), step.staged).None?
  }

  function Without(s: Store, gone: set<Id>): Store {
    Store(s.objects - gone, s.revs - gone)
  }

  /** The rows a purge or an erase removes. */
  function Removed(now: Store, step: Step): set<Id> {
    match step
    case Purge(scope, aged) => if ValidNamespace(scope.namespace) then Purged(now.objects, scope, aged) else {}
    case Erase(scope) => if ValidNamespace(scope.namespace) then Erased(now.objects, scope) else {}
    case _ => {}
  }

  function After(read: Store, now: Store, step: Step): Store {
    match step
    case Commit(_, _, p, _, staged) =>
      if Succeeds(read, now, step)
      then Store(Committed(now.objects, p, staged), now.revs[p.id := RevisionOf(read.revs, p.id) + 1]) else now
    case Put(scope, o, _) => if CheckPut(now.objects, scope, o).None? then now.(objects := now.objects[o.id := o]) else now
    case SoftDelete(scope, id) =>
      if DeleteError(now.objects, scope, id).None? then now.(objects := Marked(now.objects, id)) else now
    case _ => Without(now, Removed(now, step))
  }

  /** The state that step i works from: for a tree write, the one it read in. */
  function ReadAt(step: Step, i: nat): (at: nat)
    ensures at <= i
  {
    if step.Commit? && step.at <= i then step.at else i
  }

  predicate Aligned(states: seq<Store>, steps: seq<Step>) {
    |states| == |steps| + 1
  }

  ghost predicate Moves<D(!new)>(e: Engine<D>, states: seq<Store>, steps: seq<Step>, i: nat)
    requires Aligned(states, steps) && i < |steps|
  {
    (steps[i].Commit? ==> steps[i].at <= i) && Can(e, states[ReadAt(steps[i], i)], steps[i]) &&
    states[i + 1] == After(states[ReadAt(steps[i], i)], states[i], steps[i])
  }

  /** A run from the empty store. */
  ghost predicate Runs<D(!new)>(e: Engine<D>, states: seq<Store>, steps: seq<Step>) {
    Aligned(states, steps) && states[0] == EMPTY && forall i :: 0 <= i < |steps| ==> Moves(e, states, steps, i)
  }

  predicate CommitsAt(states: seq<Store>, steps: seq<Step>, i: nat)
    requires Aligned(states, steps) && i < |steps|
  {
    Succeeds(states[ReadAt(steps[i], i)], states[i], steps[i])
  }

  lemma RunsExtend<D(!new)>(e: Engine<D>, states: seq<Store>, steps: seq<Step>, step: Step)
    requires Runs(e, states, steps) && (step.Commit? ==> step.at <= |steps|)
    requires Can(e, states[ReadAt(step, |steps|)], step)
    ensures var next := After(states[ReadAt(step, |steps|)], states[|steps|], step);
      Runs(e, states + [next], steps + [step])
  {
    hide Can, After;
    var next := After(states[ReadAt(step, |steps|)], states[|steps|], step);
    var more, longer := steps + [step], states + [next];
    forall i | 0 <= i < |more| ensures Moves(e, longer, more, i) {
      if i < |steps| { assert Moves(e, states, steps, i); }
    }
  }

  // ---------------------------------------------------------------------------------------------
  // What every run keeps of its rows
  // ---------------------------------------------------------------------------------------------

  /** Every row is stored under its id, in a namespace. */
  predicate Stored(objects: map<Id, Object>) {
    forall id :: id in objects ==> objects[id].id == id && ValidNamespace(objects[id].namespace)
  }

  lemma StoredKeyed(objects: map<Id, Object>)
    requires Stored(objects)
    ensures Keyed(objects)
  {
  }

  lemma {:induction false} PlacedStored(rows: map<Id, Object>, p: Object, staged: seq<TreePart>)
    requires Stored(rows) && ValidNamespace(p.namespace)
    ensures Stored(PlaceAll(rows, p, staged))
    decreases |staged|
  {
    hide ValidNamespace;
    if staged != [] { PlacedStored(rows, p, staged[..|staged| - 1]); }
  }

  lemma StepStored<D(!new)>(e: Engine<D>, states: seq<Store>, steps: seq<Step>, i: nat)
    requires Runs(e, states, steps) && i < |steps| && Stored(states[i].objects)
    ensures Stored(states[i + 1].objects)
  {
    hide Can, CheckParts, DeleteError, Removed, PlaceAll, ValidNamespace, Covers, CanRead;
    assert Moves(e, states, steps, i);
    if steps[i].Commit? && CommitsAt(states, steps, i) {
      PlacedStored(Cleared(states[i].objects, steps[i].p, Ids(steps[i].staged)), steps[i].p, steps[i].staged);
    }
  }

  lemma {:induction false} RunStored<D(!new)>(e: Engine<D>, states: seq<Store>, steps: seq<Step>, i: nat)
    requires Runs(e, states, steps) && i <= |steps|
    ensures Stored(states[i].objects)
  {
    hide Stored, Moves;
    if i == 0 {
      NoneStored();
    } else {
      RunStored(e, states, steps, i - 1);
      StepStored(e, states, steps, i - 1);
    }
  }

  lemma NoneStored()
    ensures Stored(EMPTY.objects)
  {
  }

  // ---------------------------------------------------------------------------------------------
  // Tree writes that can run
  // ---------------------------------------------------------------------------------------------

  lemma IdentifiedParts<D(!new)>(e: Engine<D>, p: Object, xs: seq<Indexed>)
    requires CollisionFree(e.hash) && Identified(e, p, xs)
    ensures PartsOf(p, xs) && p.id !in PartIds(xs)
  {
    hide DigestOf, Earlier;
    forall x | x in xs
      ensures x.row.parentId == Some(p.id) && x.row.namespace == p.namespace && x.row.readers == p.readers && !x.row.deleted && x.row.id != p.id
    {
      var i :| 0 <= i < |xs| && xs[i] == x;
      assert x.row.id == e.hash.part(p.id, DigestOf(e, x), Earlier(e, xs[..i], DigestOf(e, x)));
    }
  }

  lemma TenantSees(scope: Scope, o: Object)
    requires o.namespace != [] && scope.namespace == [Tenant(o.namespace)] && forall r :: r in o.readers ==> r in scope.principals
    ensures CanRead(scope, o) && Covers(scope.namespace, o.namespace)
  {
    if o.readers != [] { assert o.readers[0] in o.readers; }
  }

  lemma TenantValid(n: Namespace)
    requires ValidNamespace(n)
    ensures ValidNamespace([Tenant(n)])
  {
  }

  /** A scope on an object's tenant that reads what it reads, and what other readers read. */
  function TenantScope(o: Object, others: seq<string>): Scope {
    Scope([Tenant(o.namespace)], (set r | r in o.readers) + set r | r in others)
  }

  lemma StagedAsIs(xs: seq<Indexed>, reusable: set<Id>, model: string)
    ensures StagedFrom(xs, reusable, model, StagedAll(xs, reusable, model))
  {
    var staged := StagedAll(xs, reusable, model);
    assert Flatten([staged]) == staged by { assert [staged][..0] == []; assert [] + staged == staged; }
    assert InSomeOrder([staged], staged);
  }

  lemma {:induction false} PartsPass(objects: map<Id, Object>, scope: Scope, parent: Id, staged: seq<TreePart>, seen: set<Id>)
    requires DistinctStaged(staged) && forall part :: part in staged ==> part.row.id !in seen && Covers(scope.namespace, part.row.namespace)
    requires forall part :: part in staged && part.reused ==> ChildOf(objects, part.row.id, parent)
    ensures CheckParts(objects, scope, parent, staged, seen).None?
    decreases |staged|
  {
    hide Covers;
    if staged != [] {
      assert staged[0] in staged && forall part :: part in staged[1..] ==> part in staged;
      forall part | part in staged[1..] ensures part.row.id != staged[0].row.id {
        var j :| 0 <= j < |staged[1..]| && staged[1..][j] == part;
        assert staged[j + 1] == part;
      }
      PartsPass(objects, scope, parent, staged[1..], seen + {staged[0].row.id});
    }
  }

  /** A tree write that reads in s. */
  function WriteIn<D>(e: Engine<D>, at: nat, s: Store, scope: Scope, p: Object, xs: seq<Indexed>): Step {
    Commit(at, scope, p, xs, StagedAll(xs, Reusable(s.objects, scope, p.id, e.model), e.model))
  }

  lemma WriteCan<D(!new)>(e: Engine<D>, at: nat, s: Store, scope: Scope, p: Object, xs: seq<Indexed>)
    requires CollisionFree(e.hash) && FromEngine(e, p, xs) && CheckPut(s.objects, scope, p).None?
    ensures Can(e, s, WriteIn(e, at, s, scope, p, xs)) && Succeeds(s, s, WriteIn(e, at, s, scope, p, xs))
  {
    hide CollisionFree, Identified, ShortParts, StagedFrom, CheckParts, Covers, CanRead, Identity, ValidNamespace, PreparedAll, IsParent;
    var reusable := Reusable(s.objects, scope, p.id, e.model);
    var staged := StagedAll(xs, reusable, e.model);
    StagedAsIs(xs, reusable, e.model);
    IdsNeverRepeat(e, p, xs);
    IdentifiedParts(e, p, xs);
    assert DistinctStaged(staged) by { forall i | 0 <= i < |xs| ensures staged[i].row.id == xs[i].row.id { } }
    forall part | part in staged ensures Covers(scope.namespace, part.row.namespace) {
      var i :| 0 <= i < |xs| && staged[i] == part;
      assert xs[i] in xs;
    }
    PartsPass(s.objects, scope, p.id, staged, {});
  }

  lemma RunsPrefix<D(!new)>(e: Engine<D>, states: seq<Store>, steps: seq<Step>, i: nat)
    requires Runs(e, states, steps) && i <= |steps|
    ensures Runs(e, states[..i + 1], steps[..i])
  {
    hide Can, After;
    var a, b := states[..i + 1], steps[..i];
    forall k: nat | k < i ensures Moves(e, a, b, k) {
      assert Moves(e, states, steps, k);
    }
  }
}
