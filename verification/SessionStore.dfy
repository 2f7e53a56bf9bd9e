/** Saving checkpoints by compare-and-swap (session/snapshot.go), and the workers that load, diff
    and save them in any interleaving (session/internal/snapshot.go). */
module SessionStore {
  import opened Messages
  import opened SessionRows

  /** A revision is a generation; the zero revision is that of a session without a record. */
  datatype Revision = NoRevision | Generation(gen: nat)

  datatype Record = Record(rows: map<Row, Bytes>, gen: nat)

  datatype Saved = Saved(rev: Revision) | StaleCheckpoint | SessionRequired

  function RevisionOf(record: Option<Record>): Revision {
    if record.Some? then Generation(record.value.gen) else NoRevision
  }

  function RowsIn(record: Option<Record>): map<Row, Bytes> {
    if record.Some? then record.value.rows else map[]
  }

  /** The record after a save whose expected revision holds. */
  function SaveOn(record: Option<Record>, changes: seq<Change>): Record {
    Record(ApplyAll(RowsIn(record), changes), if record.Some? then record.value.gen + 1 else 1)
  }

  function Get(records: map<string, Record>, id: string): Option<Record> {
    if id in records then Some(records[id]) else None
  }

  lemma RowsLast(entries: seq<Entry>, e: Entry)
    ensures RowsOf(entries + [e]) == RowsOf(entries)[e.row := e.value]
  {
    assert (entries + [e])[..|entries|] == entries;
  }

  /** The entries of rows, in some order. */
  method EntriesOf(rows: map<Row, Bytes>) returns (entries: seq<Entry>)
    ensures Distinct(entries) && RowsOf(entries) == rows
  {
    entries := [];
    var left := rows.Keys;
    RowsNone();
    hide RowsOf;
    while left != {}
      invariant left <= rows.Keys && Distinct(entries)
      invariant forall e :: e in entries ==> e.row in rows.Keys - left
      invariant RowsOf(entries) == rows - left
      decreases |left|
    {
      var row: Row :| row in left;
      RowsLast(entries, Entry(row, rows[row]));
      assert rows - (left - {row}) == (rows - left)[row := rows[row]];
      entries := entries + [Entry(row, rows[row])];
      left := left - {row};
    }
    assert rows - left == rows;
  }

  lemma RowsNone()
    ensures RowsOf([]) == map[]
  {
  }

  class MemoryStore {
    var records: map<string, Record>

    constructor ()
      ensures records == map[]
    {
      records := map[];
    }

    method Save(id: string, changes: seq<Change>, expected: Revision) returns (r: Saved)
      modifies this
      ensures id == "" ==> r == SessionRequired
      ensures id != "" && expected != RevisionOf(Get(old(records), id)) ==> r == StaleCheckpoint
      ensures !r.Saved? ==> records == old(records)
      ensures id != "" && expected == RevisionOf(Get(old(records), id)) ==>
                records == old(records)[id := SaveOn(Get(old(records), id), changes)] &&
                r == Saved(RevisionOf(Get(records, id)))
    {
      if id == "" {
        return SessionRequired;
      }
      var cur := Get(records, id);
      if expected != RevisionOf(cur) {
        return StaleCheckpoint;
      }
      var rows := RowsIn(cur);
      for i := 0 to |changes|
        invariant ApplyAll(RowsIn(cur), changes) == ApplyAll(rows, changes[i..])
      {
        assert changes[i..][1..] == changes[i + 1..];
        match changes[i] {
          case Remove(r) => rows := rows - {r};
          case Put(e) => rows := rows[e.row := e.value];
        }
      }
      var gen := (if cur.Some? then cur.value.gen else 0) + 1;
      records := records[id := Record(rows, gen)];
      r := Saved(Generation(gen));
    }

    /** The rows come in no particular order. */
    method Load(id: string) returns (r: Option<(seq<Entry>, Revision)>)
      ensures r.None? <==> id !in records
      ensures r.Some? ==> Distinct(r.value.0) && RowsOf(r.value.0) == records[id].rows
      ensures r.Some? ==> r.value.1 == RevisionOf(Get(records, id)) != NoRevision
    {
      if id !in records {
        return None;
      }
      var entries := EntriesOf(records[id].rows);
      r := Some((entries, Generation(records[id].gen)));
    }

    method Revision(id: string) returns (rev: Revision)
      ensures rev == RevisionOf(Get(records, id))
    {
      if id !in records {
        return NoRevision;
      }
      rev := Generation(records[id].gen);
    }

    method Delete(id: string)
      modifies this
      ensures records == old(records) - {id}
    {
      records := records - {id};
    }
  }

  // ---------------------------------------------------------------------------------------------
  // Workers on one session
  // ---------------------------------------------------------------------------------------------

  /** The rows of a commit and their diff, before the save. */
  datatype Staged = Staged(next: seq<Entry>, changes: seq<Change>)

  /** What a runtime knows of one harness's committed state. It keeps a digest; `rows`, which the
      digest was taken of, is here to speak of. */
  datatype Worker<D> = Worker(rev: Revision, rows: map<Row, Bytes>, digest: map<Row, D>, staged: Option<Staged>)

  /** The session's record, the rows of each successful commit in order, and the workers. */
  datatype Fleet<D> = Fleet(record: Option<Record>, history: seq<map<Row, Bytes>>, workers: map<nat, Worker<D>>)

  datatype Step =
    | Build(w: nat)                                        // a new worker, or one built again
    | Load(w: nat)                                         // Sync finds another revision and loads it
    | Stage(w: nat, next: seq<Entry>, changes: seq<Change>)  // Commit changes the state and diffs it
    | Save(w: nat)                                         // Commit saves against its revision
    | Delete                                               // the session's record is deleted

  ghost predicate Allowed<D(!new)>(hash: Bytes -> D, s: Fleet<D>, step: Step) {
    match step
    case Build(w) => true
    case Load(w) => w in s.workers && s.workers[w].staged.None? && s.record.Some?
    case Stage(w, next, changes) =>
      w in s.workers && s.workers[w].staged.None? &&
      IsDiff(s.workers[w].digest, Digest(hash, RowsOf(next)), next, changes)
    case Save(w) => w in s.workers && s.workers[w].staged.Some?
    case Delete => true
  }

  predicate Commits<D>(s: Fleet<D>, step: Step) {
    step.Save? && step.w in s.workers && s.workers[step.w].staged.Some? &&
    s.workers[step.w].rev == RevisionOf(s.record)
  }

  function After<D>(hash: Bytes -> D, s: Fleet<D>, step: Step): Fleet<D> {
    match step
    case Build(w) => s.(workers := s.workers[w := Worker(NoRevision, map[], map[], None)])
    case Load(w) => s.(workers := s.workers[w := Worker(RevisionOf(s.record), RowsIn(s.record), Digest(hash, RowsIn(s.record)), None)])
    case Stage(w, next, changes) =>
      if w !in s.workers then s
      else s.(workers := s.workers[w := s.workers[w].(staged := Some(Staged(next, changes)))])
    case Save(w) =>
      if w !in s.workers || s.workers[w].staged.None? then s
      else
        var worker, st := s.workers[w], s.workers[w].staged.value;
        if worker.rev != RevisionOf(s.record) then s.(workers := s.workers[w := worker.(staged := None)])
        else
          var record := SaveOn(s.record, st.changes);
          var workers := s.workers[w := Worker(Generation(record.gen), RowsOf(st.next), Digest(hash, RowsOf(st.next)), None)];
          Fleet(Some(record), s.history + [RowsOf(st.next)], workers)
    case Delete => s.(record := None)
  }

  /** The rows of a revision, in a run without deletes. */
  function RowsAt(history: seq<map<Row, Bytes>>, rev: Revision): map<Row, Bytes> {
    if rev.Generation? && 0 < rev.gen <= |history| then history[rev.gen - 1] else map[]
  }

  /** The digest is of the worker's rows, and what it staged is made of them. */
  ghost predicate WorkerKnows<D(!new)>(hash: Bytes -> D, w: Worker<D>) {
    w.digest == Digest(hash, w.rows) &&
    (w.staged.Some? ==> ApplyAll(w.rows, w.staged.value.changes) == RowsOf(w.staged.value.next))
  }

  ghost predicate WorkerSound<D(!new)>(hash: Bytes -> D, history: seq<map<Row, Bytes>>, w: Worker<D>) {
    (w.rev.Generation? ==> 0 < w.rev.gen <= |history|) &&
    w.rows == RowsAt(history, w.rev) && WorkerKnows(hash, w)
  }

  /** The record is the last commit's, and every worker's digest is of the revision it holds. */
  ghost predicate Sound<D(!new)>(hash: Bytes -> D, s: Fleet<D>) {
    (if s.history == [] then s.record.None?
     else s.record == Some(Record(s.history[|s.history| - 1], |s.history|))) &&
    forall w :: w in s.workers ==> WorkerSound(hash, s.history, s.workers[w])
  }

  lemma SoundCurrent<D(!new)>(hash: Bytes -> D, s: Fleet<D>)
    requires Sound(hash, s)
    ensures RowsAt(s.history, RevisionOf(s.record)) == RowsIn(s.record)
  {
  }

  lemma WorkerKeeps<D(!new)>(hash: Bytes -> D, history: seq<map<Row, Bytes>>, more: map<Row, Bytes>, w: Worker<D>)
    requires WorkerSound(hash, history, w)
    ensures WorkerSound(hash, history + [more], w)
  {
    assert RowsAt(history + [more], w.rev) == RowsAt(history, w.rev);
  }

  lemma StepSound<D(!new)>(hash: Bytes -> D, s: Fleet<D>, step: Step)
    requires Injective(hash) && Sound(hash, s) && Allowed(hash, s, step) && !step.Delete?
    ensures Sound(hash, After(hash, s, step))
  {
    hide IsDiff, Injective, ApplyAll, RowsOf, RowsAt, Digest;
    SoundCurrent(hash, s);
    NoneSaved(hash, s.history);
    match step {
      case Stage(w, next, changes) =>
        DiffApplies(hash, s.workers[w].rows, next, changes);
      case Save(w) => SaveSound(hash, s, w);
      case _ =>
    }
  }

  lemma NoneSaved<D>(hash: Bytes -> D, history: seq<map<Row, Bytes>>)
    ensures RowsAt(history, NoRevision) == map[] && Digest(hash, map[]) == map[]
  {
  }

  lemma SaveSound<D(!new)>(hash: Bytes -> D, s: Fleet<D>, w: nat)
    requires Sound(hash, s) && Allowed(hash, s, Save(w))
    ensures Sound(hash, After(hash, s, Save(w)))
  {
    hide IsDiff, ApplyAll, RowsOf, Digest;
    var t := After(hash, s, Save(w));
    if Commits(s, Save(w)) {
      var more := RowsOf(s.workers[w].staged.value.next);
      forall v | v in t.workers ensures WorkerSound(hash, t.history, t.workers[v]) {
        if v != w { WorkerKeeps(hash, s.history, more, s.workers[v]); }
      }
    }
  }

  function Run<D>(hash: Bytes -> D, s: Fleet<D>, steps: seq<Step>): Fleet<D> {
    if steps == [] then s else After(hash, Run(hash, s, steps[..|steps| - 1]), steps[|steps| - 1])
  }

  ghost predicate Runs<D(!new)>(hash: Bytes -> D, s: Fleet<D>, steps: seq<Step>) {
    forall i :: 0 <= i < |steps| ==> Allowed(hash, Run(hash, s, steps[..i]), steps[i])
  }

  function Empty<D>(): Fleet<D> {
    Fleet(None, [], map[])
  }

  /** Main result: over every interleaving of workers without a delete, the stored rows are exactly
      those of the last successful commit. */
  lemma {:induction false} LastCommitStored<D(!new)>(hash: Bytes -> D, steps: seq<Step>)
    requires Injective(hash) && Runs(hash, Empty(), steps) && Delete !in steps
    ensures var s := Run(hash, Empty(), steps);
      Sound(hash, s) && RowsIn(s.record) == (if s.history == [] then map[] else s.history[|s.history| - 1])
    decreases |steps|
  {
    hide Allowed, After, WorkerSound;
    if steps != [] {
      var before := steps[..|steps| - 1];
      forall i | 0 <= i < |before| ensures Allowed(hash, Run(hash, Empty(), before[..i]), before[i]) {
        assert before[..i] == steps[..i];
      }
      LastCommitStored(hash, before);
      assert steps[|steps| - 1] in steps;
      StepSound(hash, Run(hash, Empty(), before), steps[|steps| - 1]);
    }
  }

  /** A commit that is saved was made from the rows stored at that moment, so none is lost; one made
      from older rows is refused and changes nothing. */
  lemma CommitsFromLatest<D(!new)>(hash: Bytes -> D, s: Fleet<D>, w: nat)
    requires Injective(hash) && Sound(hash, s) && Allowed(hash, s, Save(w))
    ensures var t := After(hash, s, Save(w));
      if s.workers[w].rev == RevisionOf(s.record)
      then s.workers[w].digest == Digest(hash, RowsIn(s.record)) &&
           t.record == Some(Record(RowsOf(s.workers[w].staged.value.next), |s.history| + 1))
      else t.record == s.record && t.history == s.history
  {
    SoundCurrent(hash, s);
  }

  // ---------------------------------------------------------------------------------------------
  // With deletes, a revision can come back
  // ---------------------------------------------------------------------------------------------

  ghost predicate Knows<D(!new)>(hash: Bytes -> D, s: Fleet<D>) {
    forall w :: w in s.workers ==> WorkerKnows(hash, s.workers[w])
  }

  lemma StepKnows<D(!new)>(hash: Bytes -> D, s: Fleet<D>, step: Step)
    requires Injective(hash) && Knows(hash, s) && Allowed(hash, s, step)
    ensures Knows(hash, After(hash, s, step))
  {
    hide IsDiff, Injective, ApplyAll, RowsOf;
    if step.Stage? { DiffApplies(hash, s.workers[step.w].rows, step.next, step.changes); }
  }

  lemma {:induction false} RunKnows<D(!new)>(hash: Bytes -> D, steps: seq<Step>, i: nat)
    requires Injective(hash) && Runs(hash, Empty(), steps) && i <= |steps|
    ensures Knows(hash, Run(hash, Empty(), steps[..i]))
  {
    hide Allowed, After, Injective, WorkerKnows;
    if i > 0 {
      RunKnows(hash, steps, i - 1);
      assert steps[..i][..i - 1] == steps[..i - 1];
      StepKnows(hash, Run(hash, Empty(), steps[..i - 1]), steps[i - 1]);
    }
  }

  /** The stored rows are those of the last successful commit. */
  predicate StoresLast<D>(s: Fleet<D>) {
    s.record.Some? ==> s.history != [] && s.record.value.rows == s.history[|s.history| - 1]
  }

  /** A save that the store takes is made on rows that agree with those its diff was made of, but for
      what it writes. */
  ghost predicate SavesOnOwn<D(!new)>(s: Fleet<D>, step: Step) {
    Commits(s, step) ==> Agree(RowsIn(s.record), s.workers[step.w].rows, s.workers[step.w].staged.value.changes)
  }

  lemma StepStores<D(!new)>(hash: Bytes -> D, s: Fleet<D>, step: Step)
    requires Knows(hash, s) && StoresLast(s) && Allowed(hash, s, step)
    ensures StoresLast(After(hash, s, step)) <==> SavesOnOwn(s, step)
  {
    hide IsDiff, ApplyAll, RowsOf, Agree;
    if Commits(s, step) {
      var worker := s.workers[step.w];
      DiffAppliesTo(worker.rows, RowsIn(s.record), worker.staged.value.next, worker.staged.value.changes);
    }
  }

  /** Main result with deletes: all along a run the stored rows are those of the last successful commit
      if and only if every save the store takes finds, outside what it writes, the rows it was made of. */
  lemma StoredExactly<D(!new)>(hash: Bytes -> D, steps: seq<Step>)
    requires Injective(hash) && Runs(hash, Empty(), steps)
    ensures (forall i :: 0 <= i <= |steps| ==> StoresLast(Run(hash, Empty(), steps[..i]))) <==>
            (forall i :: 0 <= i < |steps| ==> SavesOnOwn(Run(hash, Empty(), steps[..i]), steps[i]))
  {
    hide SavesOnOwn, StoresLast, Allowed, Injective;
    if forall i :: 0 <= i <= |steps| ==> StoresLast(Run(hash, Empty(), steps[..i])) {
      forall i | 0 <= i < |steps| ensures SavesOnOwn(Run(hash, Empty(), steps[..i]), steps[i]) {
        StepStoresAt(hash, steps, i);
      }
    }
    if forall i :: 0 <= i < |steps| ==> SavesOnOwn(Run(hash, Empty(), steps[..i]), steps[i]) {
      forall i | 0 <= i <= |steps| ensures StoresLast(Run(hash, Empty(), steps[..i])) { RunStores(hash, steps, i); }
    }
  }

  lemma StepStoresAt<D(!new)>(hash: Bytes -> D, steps: seq<Step>, i: nat)
    requires Injective(hash) && Runs(hash, Empty(), steps) && i < |steps| && StoresLast(Run(hash, Empty(), steps[..i]))
    ensures StoresLast(Run(hash, Empty(), steps[..i + 1])) <==> SavesOnOwn(Run(hash, Empty(), steps[..i]), steps[i])
  {
    hide SavesOnOwn, StoresLast, Allowed, Injective, Knows;
    RunKnows(hash, steps, i);
    assert steps[..i + 1][..i] == steps[..i];
    StepStores(hash, Run(hash, Empty(), steps[..i]), steps[i]);
  }

  lemma {:induction false} RunStores<D(!new)>(hash: Bytes -> D, steps: seq<Step>, i: nat)
    requires Injective(hash) && Runs(hash, Empty(), steps) && i <= |steps|
    requires forall k :: 0 <= k < |steps| ==> SavesOnOwn(Run(hash, Empty(), steps[..k]), steps[k])
    ensures StoresLast(Run(hash, Empty(), steps[..i]))
  {
    hide SavesOnOwn, Allowed, Injective, Runs, After;
    if i > 0 {
      RunStores(hash, steps, i - 1);
      StepStoresAt(hash, steps, i - 1);
    } else {
      assert steps[..0] == [];
    }
  }

  const A := Entry(Row("state", "a"), "1")
  const B := Entry(Row("state", "b"), "2")
  const C := Entry(Row("state", "c"), "3")

  const Plain: Bytes -> Bytes := (b: Bytes) => b

  lemma FirstEntry(e: Entry)
    ensures IsDiff(map[], Digest(Plain, RowsOf([e])), [e], [Put(e)]) && RowsOf([e]) == map[e.row := e.value]
  {
    var digest: map<Row, Bytes>, none: seq<Change> := Digest(Plain, RowsOf([e])), [];
    assert RowsOf([e]) == map[e.row := e.value] by { assert [e][..0] == []; }
    assert Puts(map[], digest, [e]) == [Put(e)] by { assert [e][1..] == []; }
    var had: map<Row, Bytes> := map[];
    assert Removals(none, had.Keys - digest.Keys);
    assert Puts(map[], digest, [e]) + none == [Put(e)];
  }

  lemma SecondEntry(a: Entry, b: Entry)
    requires a.row != b.row
    ensures RowsOf([a, b]) == map[a.row := a.value, b.row := b.value]
    ensures IsDiff(Digest(Plain, map[a.row := a.value]), Digest(Plain, RowsOf([a, b])), [a, b], [Put(b)])
  {
    FirstEntry(a);
    assert [a, b][..1] == [a] && [a, b][1..] == [b] && [b][1..] == [];
    var had, digest := Digest(Plain, map[a.row := a.value]), Digest(Plain, RowsOf([a, b]));
    var none: seq<Change> := [];
    assert Puts(had, digest, [b]) == [Put(b)];
    assert Puts(had, digest, [a, b]) == [] + Puts(had, digest, [b]);
    assert Removals(none, had.Keys - digest.Keys);
    assert Puts(had, digest, [a, b]) + none == [Put(b)];
  }

  lemma Extend(steps: seq<Step>, step: Step, was: Fleet<Bytes>, now: Fleet<Bytes>)
    requires Runs(Plain, Empty(), steps) && Run(Plain, Empty(), steps) == was
    requires Allowed(Plain, was, step) && After(Plain, was, step) == now
    ensures Runs(Plain, Empty(), steps + [step]) && Run(Plain, Empty(), steps + [step]) == now
  {
    hide Allowed, After;
    var more := steps + [step];
    assert more[..|steps|] == steps;
    forall i | 0 <= i < |more| ensures Allowed(Plain, Run(Plain, Empty(), more[..i]), more[i]) {
      if i < |steps| { assert more[..i] == steps[..i]; }
    }
  }

  const ROWS_A: map<Row, Bytes> := map[A.row := A.value]
  const ROWS_C: map<Row, Bytes> := map[C.row := C.value]
  const ROWS_CB: map<Row, Bytes> := map[C.row := C.value, B.row := B.value]
  const NEW_WORKER: Worker<Bytes> := Worker(NoRevision, map[], map[], None)
  const WORKER_A: Worker<Bytes> := Worker(Generation(1), ROWS_A, Digest(Plain, ROWS_A), None)
  const WORKER_AB: Worker<Bytes> := WORKER_A.(staged := Some(Staged([A, B], [Put(B)])))
  const WORKER_C: Worker<Bytes> := Worker(Generation(1), ROWS_C, Digest(Plain, ROWS_C), None)

  /** Worker 0 has saved A and has staged B. */
  lemma StageB() returns (steps: seq<Step>)
    ensures Runs(Plain, Empty(), steps)
    ensures Run(Plain, Empty(), steps) == Fleet(Some(Record(ROWS_A, 1)), [ROWS_A], map[0 := WORKER_AB])
  {
    hide IsDiff, RowsOf, ApplyAll, Run, Runs;
    FirstEntry(A);
    SecondEntry(A, B);
    ApplyFew(map[], A);
    var s0: Fleet<Bytes> := Empty();
    var s1 := s0.(workers := map[0 := NEW_WORKER]);
    var s2 := s0.(workers := map[0 := NEW_WORKER.(staged := Some(Staged([A], [Put(A)])))]);
    var s3 := Fleet(Some(Record(ROWS_A, 1)), [ROWS_A], map[0 := WORKER_A]);
    steps := [];
    RunNone();
    Extend(steps, Build(0), s0, s1);
    steps := steps + [Build(0)];
    Extend(steps, Stage(0, [A], [Put(A)]), s1, s2);
    steps := steps + [Stage(0, [A], [Put(A)])];
    Extend(steps, Save(0), s2, s3);
    steps := steps + [Save(0)];
    Extend(steps, Stage(0, [A, B], [Put(B)]), s3, s3.(workers := map[0 := WORKER_AB]));
    steps := steps + [Stage(0, [A, B], [Put(B)])];
  }

  /** The record is deleted, and worker 1 makes it again with C. */
  lemma SaveC(steps: seq<Step>) returns (more: seq<Step>)
    requires Runs(Plain, Empty(), steps)
    requires Run(Plain, Empty(), steps) == Fleet(Some(Record(ROWS_A, 1)), [ROWS_A], map[0 := WORKER_AB])
    ensures Runs(Plain, Empty(), more)
    ensures Run(Plain, Empty(), more) == Fleet(Some(Record(ROWS_C, 1)), [ROWS_A, ROWS_C], map[0 := WORKER_AB, 1 := WORKER_C])
  {
    hide IsDiff, RowsOf, ApplyAll, Run, Runs;
    FirstEntry(C);
    ApplyFew(map[], C);
    var s4 := Fleet(Some(Record(ROWS_A, 1)), [ROWS_A], map[0 := WORKER_AB]);
    var s5 := s4.(record := None);
    var s6 := s5.(workers := map[0 := WORKER_AB, 1 := NEW_WORKER]);
    var s7 := s5.(workers := map[0 := WORKER_AB, 1 := NEW_WORKER.(staged := Some(Staged([C], [Put(C)])))]);
    more := steps;
    Extend(more, Delete, s4, s5);
    more := more + [Delete];
    Extend(more, Build(1), s5, s6);
    more := more + [Build(1)];
    Extend(more, Stage(1, [C], [Put(C)]), s6, s7);
    more := more + [Stage(1, [C], [Put(C)])];
    Extend(more, Save(1), s7, Fleet(Some(Record(ROWS_C, 1)), [ROWS_A, ROWS_C], map[0 := WORKER_AB, 1 := WORKER_C]));
    more := more + [Save(1)];
  }

  /** A record deleted and made again reaches an old generation: a worker that loaded the old record
      then saves its diff onto rows it never saw, and the stored rows are no commit's. */
  lemma DeletedRevisionReturns() returns (steps: seq<Step>)
    ensures Runs(Plain, Empty(), steps)
    ensures var s := Run(Plain, Empty(), steps);
      s.history == [ROWS_A, ROWS_C, RowsOf([A, B])] && RowsIn(s.record) == ROWS_CB && ROWS_CB !in s.history
  {
    hide IsDiff, RowsOf, ApplyAll, Run, Runs;
    SecondEntry(A, B);
    ApplyFew(ROWS_C, B);
    steps := StageB();
    steps := SaveC(steps);
    var s8 := Fleet(Some(Record(ROWS_C, 1)), [ROWS_A, ROWS_C], map[0 := WORKER_AB, 1 := WORKER_C]);
    Extend(steps, Save(0), s8, After(Plain, s8, Save(0)));
    steps := steps + [Save(0)];
    assert A.row in ROWS_A && A.row in RowsOf([A, B]) && B.row !in ROWS_C && A.row !in ROWS_CB && B.row in ROWS_CB;
  }

  lemma RunNone()
    ensures Runs(Plain, Empty(), []) && Run(Plain, Empty(), []) == Empty()
  {
  }
}
