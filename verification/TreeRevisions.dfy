/** Which tree writes that read one revision commit, over whole runs of a store (brain/memory.go). */
module TreeRevisions {
  import opened Messages
  import opened TreeParts
  import opened TreeStore
  import opened TreeRuns

  /** Step i is a write of tree t that commits. */
  predicate CommitsTree(states: seq<Store>, steps: seq<Step>, t: Id, i: nat)
    requires Aligned(states, steps) && i < |steps|
  {
    CommitsAt(states, steps, i) && steps[i].p.id == t
  }

  /** How many writes of tree t committed before step j since its row was last purged or erased. */
  function Since(states: seq<Store>, steps: seq<Step>, t: Id, j: nat): nat
    requires Aligned(states, steps) && j <= |steps|
  {
    if j == 0 || t in Removed(states[j - 1], steps[j - 1]) then 0
    else Since(states, steps, t, j - 1) + if CommitsTree(states, steps, t, j - 1) then 1 else 0
  }

  /** Nothing from step i on and before step j removes the row of tree t. */
  predicate Stays(states: seq<Store>, steps: seq<Step>, t: Id, i: nat, j: nat)
    requires Aligned(states, steps) && j <= |steps|
  {
    forall k :: i <= k < j ==> t !in Removed(states[k], steps[k])
  }

  /** The revision of tree t that the write of step i read. */
  function ReadRev(states: seq<Store>, steps: seq<Step>, i: nat): nat
    requires Aligned(states, steps) && i < |steps| && steps[i].Commit?
  {
    RevisionOf(states[ReadAt(steps[i], i)].revs, steps[i].p.id)
  }

  /** A tree's revision counts its commits. */
  lemma {:induction false} RevisionCounts<D(!new)>(e: Engine<D>, states: seq<Store>, steps: seq<Step>, t: Id, j: nat)
    requires Runs(e, states, steps) && j <= |steps|
    ensures RevisionOf(states[j].revs, t) == Since(states, steps, t, j)
  {
    hide *;
    if j == 0 {
      NoRevisions(e, states, steps, t);
    } else {
      RevisionCounts(e, states, steps, t, j - 1);
      CountsStep(e, states, steps, t, j - 1);
    }
  }

  lemma NoRevisions<D(!new)>(e: Engine<D>, states: seq<Store>, steps: seq<Step>, t: Id)
    requires Runs(e, states, steps)
    ensures RevisionOf(states[0].revs, t) == Since(states, steps, t, 0)
  {
    hide Moves, Removed, CommitsTree;
  }

  lemma CountsStep<D(!new)>(e: Engine<D>, states: seq<Store>, steps: seq<Step>, t: Id, i: nat)
    requires Runs(e, states, steps) && i < |steps| && RevisionOf(states[i].revs, t) == Since(states, steps, t, i)
    ensures RevisionOf(states[i + 1].revs, t) == Since(states, steps, t, i + 1)
  {
    hide RevisionOf, Succeeds, Removed, After, Can;
    assert Moves(e, states, steps, i);
    RevisionStep(states[ReadAt(steps[i], i)], states[i], steps[i], t);
  }

  lemma RevisionStep(read: Store, now: Store, step: Step, t: Id)
    ensures RevisionOf(After(read, now, step).revs, t) ==
      if t in Removed(now, step) then 0
      else RevisionOf(now.revs, t) + if Succeeds(read, now, step) && step.p.id == t then 1 else 0
  {
    hide Committed, Marked, CheckPut, CheckParts, DeleteError, Purged, Erased, ValidNamespace;
  }

  lemma RemovesNone(now: Store, step: Step)
    requires !step.Purge? && !step.Erase?
    ensures Removed(now, step) == {}
  {
  }

  lemma {:induction false} SinceGrows(states: seq<Store>, steps: seq<Step>, t: Id, i: nat, j: nat)
    requires Aligned(states, steps) && i <= j <= |steps| && Stays(states, steps, t, i, j)
    ensures Since(states, steps, t, i) <= Since(states, steps, t, j)
    ensures Since(states, steps, t, i) == Since(states, steps, t, j) <==>
      forall k :: i <= k < j ==> !CommitsTree(states, steps, t, k)
    decreases j
  {
    hide Removed, CommitsTree;
    if i < j { SinceGrows(states, steps, t, i, j - 1); }
  }

  /** Main result: a tree write that its checks allow commits if and only if as many writes of its tree
      had committed, since the tree's row was last removed, when it read as when it commits. Where the
      row was not removed in between, that is: if and only if no write of the tree committed in between. */
  lemma CommitsExactly<D(!new)>(e: Engine<D>, states: seq<Store>, steps: seq<Step>, i: nat)
    requires Runs(e, states, steps) && i < |steps| && steps[i].Commit?
    requires var c := steps[i];
      CheckPut(states[i].objects, c.scope, c.p).None? && CheckParts(states[i].objects, c.scope, c.p.id, c.staged, {}).None?
    ensures var t, at := steps[i].p.id, steps[i].at;
      at <= i &&
      (CommitsAt(states, steps, i) <==> Since(states, steps, t, at) == Since(states, steps, t, i)) &&
      (Stays(states, steps, t, at, i) ==>
         (CommitsAt(states, steps, i) <==> forall k :: at <= k < i ==> !CommitsTree(states, steps, t, k)))
  {
    hide CheckPut, CheckParts, Since, CommitsTree, Stays, Can;
    var t, at := steps[i].p.id, steps[i].at;
    assert Moves(e, states, steps, i);
    RevisionCounts(e, states, steps, t, at);
    RevisionCounts(e, states, steps, t, i);
    if Stays(states, steps, t, at, i) { SinceGrows(states, steps, t, at, i); }
  }

  /** Of two writes of a tree that commit, both read one revision if and only if as many had committed
      before each since the tree's row was last removed; where it was not removed between them, the
      later one read a higher revision. */
  lemma OneCommitPerRevision<D(!new)>(e: Engine<D>, states: seq<Store>, steps: seq<Step>, t: Id, i: nat, j: nat)
    requires Runs(e, states, steps) && i < j < |steps|
    requires CommitsTree(states, steps, t, i) && CommitsTree(states, steps, t, j)
    ensures ReadRev(states, steps, i) == ReadRev(states, steps, j) <==> Since(states, steps, t, i) == Since(states, steps, t, j)
    ensures Stays(states, steps, t, i, j) ==> ReadRev(states, steps, i) < ReadRev(states, steps, j)
  {
    hide CheckPut, CheckParts, Since, Stays, Can;
    RevisionCounts(e, states, steps, t, i);
    RevisionCounts(e, states, steps, t, j);
    if Stays(states, steps, t, i, j) { SinceGrows(states, steps, t, i, j); }
  }

  lemma SinceSame(states: seq<Store>, steps: seq<Step>, next: Store, step: Step, t: Id, j: nat)
    requires Aligned(states, steps) && j <= |steps|
    ensures Since(states + [next], steps + [step], t, j) == Since(states, steps, t, j)
    decreases j
  {
    if j > 0 { SinceSame(states, steps, next, step, t, j - 1); }
  }

  lemma SinceOne(states: seq<Store>, steps: seq<Step>, t: Id, j: nat)
    requires Aligned(states, steps) && j < |steps| && t !in Removed(states[j], steps[j]) && CommitsTree(states, steps, t, j)
    ensures Since(states, steps, t, j + 1) == Since(states, steps, t, j) + 1
  {
  }

  /** A tree without parts can be written by whoever read its revision. */
  lemma EmptyWrite<D(!new)>(e: Engine<D>, at: nat, read: Store, now: Store, scope: Scope, p: Object)
    requires IsParent(e, p) && CheckPut(now.objects, scope, p).None? && RevisionOf(read.revs, p.id) == RevisionOf(now.revs, p.id)
    ensures Can(e, read, WriteIn(e, at, read, scope, p, [])) && Succeeds(read, now, WriteIn(e, at, read, scope, p, []))
  {
    hide CheckPut, StagedFrom, IsParent;
    StagedAsIs([], Reusable(read.objects, scope, p.id, e.model), e.model);
    assert PreparedAll(e, p, [], []);
  }

  /** A scope of a row's tenant can put it over the row that is there. */
  lemma TenantPuts(objects: map<Id, Object>, p: Object, scope: Scope)
    requires Identity(p) && (p.id in objects ==> objects[p.id].namespace != [] && Tenant(objects[p.id].namespace) == Tenant(p.namespace))
    requires scope == TenantScope(p, if p.id in objects then objects[p.id].readers else [])
    ensures CheckPut(objects, scope, p).None?
  {
    hide Blank, Covers, CanRead;
    TenantSees(scope, p);
    TenantValid(p.namespace);
    if p.id in objects { TenantSees(scope, objects[p.id]); }
  }

  /** Once a tree's row was removed, its revisions come again: while the tree's revision is not above
      the one that a write read, the run can go on, without removing the row, until a write that read
      in the same state commits. */
  lemma ReopensAfterRemoval<D(!new)>(e: Engine<D>, states: seq<Store>, steps: seq<Step>, p: Object, at: nat)
      returns (later: seq<Store>, more: seq<Step>)
    requires Runs(e, states, steps) && at <= |steps| && IsParent(e, p) && Identity(p)
    requires var s := states[|steps|]; p.id in s.objects ==> Tenant(s.objects[p.id].namespace) == Tenant(p.namespace)
    requires Since(states, steps, p.id, |steps|) <= Since(states, steps, p.id, at)
    ensures Runs(e, later, more) && |steps| < |more| && states <= later && steps <= more
    ensures Stays(later, more, p.id, |steps|, |more|)
    ensures CommitsTree(later, more, p.id, |more| - 1) && more[|more| - 1].at == at
    decreases Since(states, steps, p.id, at) - Since(states, steps, p.id, |steps|)
  {
    hide CheckPut, CheckParts, Since, Can, Committed, IsParent, Identity, Tenant, WriteIn;
    var n, t := |steps|, p.id;
    var s := states[n];
    if Since(states, steps, t, n) == Since(states, steps, t, at) {
      var step := RootWrite(e, states, steps, p, at);
      RunsExtend(e, states, steps, step);
      later, more := states + [After(states[at], s, step)], steps + [step];
    } else {
      var step := RootWrite(e, states, steps, p, n);
      RunsExtend(e, states, steps, step);
      var next := After(s, s, step);
      SinceSame(states, steps, next, step, t, at);
      SinceSame(states, steps, next, step, t, n);
      assert CommitsTree(states + [next], steps + [step], t, n);
      RemovesNone(s, step);
      SinceOne(states + [next], steps + [step], t, n);
      RootStays(s.objects, p);
      later, more := ReopensAfterRemoval(e, states + [next], steps + [step], p, at);
      assert later[n] == (states + [next])[n] && more[n] == (steps + [step])[n];
    }
  }

  /** A write of the tree alone that read in a state of as many commits can run, and commits. */
  lemma RootWrite<D(!new)>(e: Engine<D>, states: seq<Store>, steps: seq<Step>, p: Object, at: nat) returns (step: Step)
    requires Runs(e, states, steps) && at <= |steps| && IsParent(e, p) && Identity(p)
    requires var s := states[|steps|]; p.id in s.objects ==> Tenant(s.objects[p.id].namespace) == Tenant(p.namespace)
    requires Since(states, steps, p.id, |steps|) == Since(states, steps, p.id, at)
    ensures step.Commit? && step.at == at && step.p == p && step.staged == []
    ensures Can(e, states[at], step) && Succeeds(states[at], states[|steps|], step)
  {
    hide CheckPut, CheckParts, Since, Can, Moves, IsParent, Identity, ValidNamespace, StagedFrom, Succeeds;
    var n, t := |steps|, p.id;
    var s := states[n];
    RevisionCounts(e, states, steps, t, n);
    RevisionCounts(e, states, steps, t, at);
    RunStored(e, states, steps, n);
    RowNamed(s.objects, t);
    var scope := TenantScope(p, if t in s.objects then s.objects[t].readers else []);
    TenantPuts(s.objects, p, scope);
    step := WriteIn(e, at, states[at], scope, p, []);
    EmptyWrite(e, at, states[at], s, scope, p);
  }

  lemma RowNamed(objects: map<Id, Object>, id: Id)
    requires Stored(objects)
    ensures id in objects ==> objects[id].namespace != []
  {
  }

  lemma RootStays(objects: map<Id, Object>, p: Object)
    ensures p.id in Committed(objects, p, []) && Committed(objects, p, [])[p.id] == p
  {
  }

  /** And only then: while the row stays, a write that read a revision below the tree's never commits. */
  lemma ReopensOnlyAfterRemoval<D(!new)>(e: Engine<D>, states: seq<Store>, steps: seq<Step>, t: Id, i: nat, j: nat)
    requires Runs(e, states, steps) && i <= j < |steps| && Stays(states, steps, t, i, j)
    requires CommitsTree(states, steps, t, j) && steps[j].at <= i
    ensures Since(states, steps, t, i) <= Since(states, steps, t, steps[j].at)
  {
    hide CheckPut, CheckParts, Since, Stays, Can;
    assert Moves(e, states, steps, j);
    RevisionCounts(e, states, steps, t, steps[j].at);
    RevisionCounts(e, states, steps, t, j);
    SinceGrows(states, steps, t, i, j);
  }

  /** A tree is written, deleted and purged, and a second write that read before the first commits. */
  lemma PurgeRepeatsRevision<D(!new)>(e: Engine<D>, p: Object) returns (states: seq<Store>, steps: seq<Step>)
    requires IsParent(e, p) && Identity(p)
    ensures Runs(e, states, steps) && |steps| == 4 && steps[1].SoftDelete? && steps[1].id == p.id && steps[2].Purge?
    ensures CommitsTree(states, steps, p.id, 0) && CommitsTree(states, steps, p.id, 3)
    ensures steps[0].at == steps[3].at == 0 && ReadRev(states, steps, 0) == ReadRev(states, steps, 3)
  {
    hide Can, Succeeds, CheckPut, Covers, CanRead, Blank, IsParent;
    var scope, t := TenantScope(p, []), p.id;
    var write, delete, purge := WriteIn(e, 0, EMPTY, scope, p, []), SoftDelete(scope, t), Purge(scope, {t});
    TenantPuts(EMPTY.objects, p, scope);
    EmptyWrite(e, 0, EMPTY, EMPTY, scope, p);
    RootAlone(p);
    var s1 := After(EMPTY, EMPTY, write);
    DeletedAlone(e, p, scope, s1);
    var s2 := After(s1, s1, delete);
    states, steps := [EMPTY, s1, s2, EMPTY, s1], [write, delete, purge, write];
    FourSteps(e, states, steps);
  }

  /** A write, two other steps that lead back to the empty store, and the write again. */
  lemma FourSteps<D(!new)>(e: Engine<D>, states: seq<Store>, steps: seq<Step>)
    requires |states| == 5 && |steps| == 4 && states[0] == states[3] == EMPTY && states[1] == states[4]
    requires steps[0] == steps[3] && steps[0].Commit? && steps[0].at == 0 && steps[1].SoftDelete? && steps[2].Purge?
    requires Can(e, EMPTY, steps[0]) && states[1] == After(EMPTY, EMPTY, steps[0])
    requires states[2] == After(states[1], states[1], steps[1]) && EMPTY == After(states[2], states[2], steps[2])
    ensures Runs(e, states, steps)
  {
    hide Can, After;
    CanAlways(e, states[1], steps[1]);
    CanAlways(e, states[2], steps[2]);
    assert Moves(e, states, steps, 0) && Moves(e, states, steps, 1) && Moves(e, states, steps, 2) && Moves(e, states, steps, 3);
    forall i | 0 <= i < 4 ensures Moves(e, states, steps, i) { assert i == 0 || i == 1 || i == 2 || i == 3; }
  }

  lemma CanAlways<D(!new)>(e: Engine<D>, s: Store, step: Step)
    requires !step.Commit? && !step.Put?
    ensures Can(e, s, step)
  {
  }

  lemma RootAlone(p: Object)
    ensures Committed(map[], p, []) == map[p.id := p]
  {
  }

  lemma DeletedAlone<D>(e: Engine<D>, p: Object, scope: Scope, s: Store)
    requires IsParent(e, p) && Identity(p) && scope == TenantScope(p, []) && s.objects == map[p.id := p]
    ensures var t := After(s, s, SoftDelete(scope, p.id));
      t == Store(map[p.id := p.(deleted := true)], s.revs) && After(t, t, Purge(scope, {p.id})) == Without(t, {p.id})
  {
    hide Covers, CanRead, Blank;
    TenantSees(scope, p);
    TenantValid(p.namespace);
    assert Marked(s.objects, p.id) == map[p.id := p.(deleted := true)];
    assert Purged(map[p.id := p.(deleted := true)], scope, {p.id}) == {p.id};
  }
}
