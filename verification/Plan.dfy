/** The plan and its tools (builtins.go, planOp; session_plan.go). A plan change is a function of the
    plan, so Commit can run it again on the committed one. */
module Plan {
  import opened Messages
  import opened Sequences

  const PENDING := "pending"
  const IN_PROGRESS := "in_progress"
  const COMPLETED := "completed"

  datatype Todo = Todo(title: string, status: string, description: string)

  /** No todos at all is no plan; an emptied plan has an empty list. */
  datatype Board = Board(todos: Option<seq<Todo>>, document: string)

  datatype Addition = Addition(todo: Todo, order: int)

  datatype PlanOp =
    | Create(document: string, todos: Option<seq<Todo>>)
    | Finish(title: string)
    | Revise(toDelete: seq<string>, toAdd: seq<Addition>, document: string)

  /** Ordered: installing a plan wins over a handoff. */
  datatype Effect = NoEffect | HandOff | InstallPlan

  datatype Said = PlanCreated | NowStarting(title: string, description: string) | AllCompleted | PlanEdited

  datatype PlanError = ActivePlan | NoPlan | NotFound | AlreadyCompleted | Unchanged | OutOfBounds | CompletedDelete

  datatype Changed = Changed(board: Board, said: Said, effect: Effect) | Refused(error: PlanError)

  /** strings.TrimSpace. */
  type Trim = string -> string

  // ---------------------------------------------------------------------------------------------
  // The changes
  // ---------------------------------------------------------------------------------------------

  function Length(todos: Option<seq<Todo>>): nat {
    if todos.Some? then |todos.value| else 0
  }

  /** A new plan's todos: the first open one starts, an open one without a status waits. */
  function Started(todos: seq<Todo>, started: bool): (r: seq<Todo>)
    ensures |r| == |todos|
  {
    if todos == [] then []
    else
      var t := todos[0];
      if t.status == COMPLETED then [t] + Started(todos[1..], started)
      else if !started then [t.(status := IN_PROGRESS)] + Started(todos[1..], true)
      else [if t.status == "" then t.(status := PENDING) else t] + Started(todos[1..], true)
  }

  /** The first todo of a title, or -1. */
  function IndexOf(todos: seq<Todo>, title: string): (i: int)
    ensures -1 <= i < |todos|
    ensures i >= 0 ==> todos[i].title == title
    ensures forall k :: 0 <= k < (if i < 0 then |todos| else i) ==> todos[k].title != title
  {
    if todos == [] then -1
    else if todos[0].title == title then 0
    else
      var rest := IndexOf(todos[1..], title);
      if rest < 0 then -1 else rest + 1
  }

  /** The first open todo from `from` on, or -1. */
  function FirstOpen(todos: seq<Todo>, from: nat): (j: int)
    requires from <= |todos|
    ensures j == -1 || (from <= j < |todos| && todos[j].status != COMPLETED)
    ensures forall k :: from <= k < (if j < 0 then |todos| else j) ==> todos[k].status == COMPLETED
    decreases |todos| - from
  {
    if from == |todos| then -1
    else if todos[from].status != COMPLETED then from
    else FirstOpen(todos, from + 1)
  }

  function InsertAll(todos: seq<Todo>, adds: seq<Addition>): Option<seq<Todo>>
    decreases |adds|
  {
    if adds == [] then Some(todos)
    else if adds[0].order < 0 || adds[0].order > |todos| then None
    else InsertAll(todos[..adds[0].order] + [adds[0].todo] + todos[adds[0].order..], adds[1..])
  }

  datatype Deleted = Left(todos: seq<Todo>) | Bad(error: PlanError)

  function DeleteAll(todos: seq<Todo>, titles: seq<string>): Deleted
    decreases |titles|
  {
    if titles == [] then Left(todos)
    else
      var i := IndexOf(todos, titles[0]);
      if i < 0 then Bad(NotFound)
      else if todos[i].status == COMPLETED then Bad(CompletedDelete)
      else DeleteAll(todos[..i] + todos[i + 1..], titles[1..])
  }

  /** A tool call without todos leaves no plan, but its document. */
  function Created(document: string, todos: Option<seq<Todo>>, b: Board): Changed {
    if Length(b.todos) > 0 then Refused(ActivePlan)
    else Changed(Board(if todos.Some? then Some(Started(todos.value, false)) else None, document), PlanCreated, InstallPlan)
  }

  function Finished(title: string, b: Board): Changed {
    if b.todos.None? then Refused(NoPlan)
    else
      var todos := b.todos.value;
      var i := IndexOf(todos, title);
      if i < 0 then Refused(NotFound)
      else if todos[i].status == COMPLETED then Refused(AlreadyCompleted)
      else
        var done := todos[i := todos[i].(status := COMPLETED)];
        var j := FirstOpen(done, i + 1);
        if j < 0 then Changed(b.(todos := Some(done)), AllCompleted, NoEffect)
        else
          Changed(b.(todos := Some(done[j := done[j].(status := IN_PROGRESS)])),
                  NowStarting(done[j].title, done[j].description), HandOff)
  }

  function Revised(trim: Trim, toDelete: seq<string>, toAdd: seq<Addition>, document: string, b: Board): Changed {
    var revised := trim(document);
    if b.todos.None? then Refused(NoPlan)
    else if revised != "" && revised == trim(b.document) then Refused(Unchanged)
    else
      var added := InsertAll(b.todos.value, toAdd);
      if added.None? then Refused(OutOfBounds)
      else
        var left := DeleteAll(added.value, toDelete);
        if left.Bad? then Refused(left.error)
        else
          Changed(Board(Some(left.todos), if revised != "" then document else b.document), PlanEdited,
                  if revised != "" then HandOff else NoEffect)
  }

  /** The change of an op on a plan. */
  function Change(trim: Trim, op: PlanOp, b: Board): Changed {
    match op
    case Create(document, todos) => Created(document, todos, b)
    case Finish(title) => Finished(title, b)
    case Revise(toDelete, toAdd, document) => Revised(trim, toDelete, toAdd, document, b)
  }

  method CreateChange(document: string, todos: Option<seq<Todo>>, b: Board) returns (r: Changed)
    ensures r == Created(document, todos, b)
  {
    if Length(b.todos) > 0 {
      return Refused(ActivePlan);
    }
    if todos.None? {
      return Changed(Board(None, document), PlanCreated, InstallPlan);
    }
    var out := StartTodos(todos.value);
    r := Changed(Board(Some(out), document), PlanCreated, InstallPlan);
  }

  method StartTodos(todos: seq<Todo>) returns (out: seq<Todo>)
    ensures out == Started(todos, false)
  {
    hide Started;
    var started := false;
    out := todos;
    assert todos[..0] == [] && out[0..] == todos && todos[0..] == todos;
    for i := 0 to |todos|
      invariant |out| == |todos| && out[i..] == todos[i..]
      invariant Started(todos, false) == out[..i] + Started(todos[i..], started)
    {
      assert out[i] == out[i..][0] == todos[i];
      StartedStep(todos, i, started);
      ghost var before := out[..i];
      if out[i].status != COMPLETED {
        if !started {
          out, started := out[i := out[i].(status := IN_PROGRESS)], true;
        } else if out[i].status == "" {
          out := out[i := out[i].(status := PENDING)];
        }
      }
      assert out[..i + 1] == before + [out[i]];
      Assoc(before, [out[i]], Started(todos[i + 1..], started));
    }
    StartedNone(todos, started);
    assert out[..|todos|] == out && out + [] == out;
  }

  /** What a new plan's i-th todo becomes, and whether one has started after it. */
  lemma StartedStep(todos: seq<Todo>, i: nat, started: bool)
    requires i < |todos|
    ensures var t := todos[i];
      var now := if t.status == COMPLETED then t
                 else if !started then t.(status := IN_PROGRESS)
                 else if t.status == "" then t.(status := PENDING) else t;
      Started(todos[i..], started) == [now] + Started(todos[i + 1..], started || t.status != COMPLETED)
  {
    Suffix(todos, i);
  }

  lemma StartedNone(todos: seq<Todo>, started: bool)
    ensures Started(todos[|todos|..], started) == []
  {
  }

  method FinishChange(title: string, b: Board) returns (r: Changed)
    ensures r == Finished(title, b)
  {
    if b.todos.None? {
      return Refused(NoPlan);
    }
    var plan := b.todos.value;
    var i := IndexOf(plan, title);
    if i < 0 {
      return Refused(NotFound);
    }
    if plan[i].status == COMPLETED {
      return Refused(AlreadyCompleted);
    }
    plan := plan[i := plan[i].(status := COMPLETED)];
    ghost var done := plan;
    for j := i + 1 to |plan|
      invariant plan == done && FirstOpen(done, i + 1) == FirstOpen(done, j)
    {
      if plan[j].status != COMPLETED {
        plan := plan[j := plan[j].(status := IN_PROGRESS)];
        return Changed(b.(todos := Some(plan)), NowStarting(plan[j].title, plan[j].description), HandOff);
      }
    }
    r := Changed(b.(todos := Some(plan)), AllCompleted, NoEffect);
  }

  method ReviseChange(trim: Trim, toDelete: seq<string>, toAdd: seq<Addition>, document: string, b: Board) returns (r: Changed)
    ensures r == Revised(trim, toDelete, toAdd, document, b)
  {
    var revised := trim(document);
    if b.todos.None? {
      return Refused(NoPlan);
    }
    if revised != "" && revised == trim(b.document) {
      return Refused(Unchanged);
    }
    var plan := b.todos.value;
    for k := 0 to |toAdd|
      invariant InsertAll(b.todos.value, toAdd) == InsertAll(plan, toAdd[k..])
    {
      assert toAdd[k..][1..] == toAdd[k + 1..];
      var at := toAdd[k].order;
      if at < 0 || at > |plan| {
        return Refused(OutOfBounds);
      }
      plan := plan[..at] + [toAdd[k].todo] + plan[at..];
    }
    ghost var added := plan;
    for k := 0 to |toDelete|
      invariant DeleteAll(added, toDelete) == DeleteAll(plan, toDelete[k..])
    {
      assert toDelete[k..][1..] == toDelete[k + 1..];
      var i := IndexOf(plan, toDelete[k]);
      if i < 0 {
        return Refused(NotFound);
      }
      if plan[i].status == COMPLETED {
        return Refused(CompletedDelete);
      }
      plan := plan[..i] + plan[i + 1..];
    }
    r := Changed(Board(Some(plan), if revised != "" then document else b.document), PlanEdited,
                 if revised != "" then HandOff else NoEffect);
  }

  // ---------------------------------------------------------------------------------------------
  // Runs of plan operations
  // ---------------------------------------------------------------------------------------------

  /** An op that does not apply is skipped. */
  function Replay(trim: Trim, op: PlanOp, b: Board): Board {
    var c := Change(trim, op, b);
    if c.Changed? then c.board else b
  }

  function ReplayAll(trim: Trim, ops: seq<PlanOp>, b: Board): Board
    decreases |ops|
  {
    if ops == [] then b else ReplayAll(trim, ops[1..], Replay(trim, ops[0], b))
  }

  lemma {:induction false} ReplayAppend(trim: Trim, a: seq<PlanOp>, c: seq<PlanOp>, b: Board)
    ensures ReplayAll(trim, a + c, b) == ReplayAll(trim, c, ReplayAll(trim, a, b))
    decreases |a|
  {
    hide Change, Replay;
    if a == [] {
      assert a + c == c;
    } else {
      assert (a + c)[1..] == a[1..] + c;
      ReplayAppend(trim, a[1..], c, Replay(trim, a[0], b));
    }
  }

  function CompletedOf(todos: seq<Todo>): seq<Todo> {
    if todos == [] then []
    else (if todos[0].status == COMPLETED then [todos[0]] else []) + CompletedOf(todos[1..])
  }

  function CompletedIn(b: Board): seq<Todo> {
    if b.todos.Some? then CompletedOf(b.todos.value) else []
  }

  /** a can be had from b by leaving out elements. */
  predicate Subsequence<T(==)>(a: seq<T>, b: seq<T>) {
    a == [] || (b != [] && if a[0] == b[0] then Subsequence(a[1..], b[1..]) else Subsequence(a, b[1..]))
  }

  lemma {:induction false} SubRefl<T>(a: seq<T>)
    ensures Subsequence(a, a)
  {
    if a != [] { SubRefl(a[1..]); }
  }

  /** Taking the first element where it first occurs loses nothing. */
  lemma {:induction false} SubTail<T>(a: seq<T>, b: seq<T>)
    requires a != [] && Subsequence(a, b)
    ensures Subsequence(a[1..], b)
    decreases |b|, 1
  {
    if a[0] != b[0] {
      SubTail(a, b[1..]);
      SubSkip(a[1..], b);
    } else {
      SubSkip(a[1..], b);
    }
  }

  lemma {:induction false} SubSkip<T>(a: seq<T>, b: seq<T>)
    requires b != [] && Subsequence(a, b[1..])
    ensures Subsequence(a, b)
    decreases |b|, 0
  {
    if a != [] && a[0] == b[0] { SubTail(a, b[1..]); }
  }

  lemma {:induction false} SubTransitive<T>(a: seq<T>, b: seq<T>, c: seq<T>)
    requires Subsequence(a, b) && Subsequence(b, c)
    ensures Subsequence(a, c)
    decreases |c|, |b|
  {
    if a != [] {
      if b[0] == c[0] {
        if a[0] == b[0] {
          SubTransitive(a[1..], b[1..], c[1..]);
        } else {
          SubTransitive(a, b[1..], c[1..]);
        }
      } else {
        SubTransitive(a, b, c[1..]);
        SubSkip(a, c);
      }
    }
  }

  lemma {:induction false} SubInsert<T>(a: seq<T>, x: seq<T>, b: seq<T>)
    ensures Subsequence(a + b, a + x + b)
    decreases |a| + |x|
  {
    if a == [] {
      assert a + b == b && a + x + b == x + b;
      if x == [] {
        assert x + b == b;
        SubRefl(b);
      } else {
        assert (x + b)[1..] == x[1..] + b;
        SubInsert([], x[1..], b);
        assert [] + b == b && [] + x[1..] + b == x[1..] + b;
        SubSkip(b, x + b);
      }
    } else {
      SubInsert(a[1..], x, b);
      assert (a + b)[1..] == a[1..] + b && (a + x + b)[1..] == a[1..] + x + b;
    }
  }

  lemma {:induction false} CompletedAppend(a: seq<Todo>, b: seq<Todo>)
    ensures CompletedOf(a + b) == CompletedOf(a) + CompletedOf(b)
  {
    if a == [] {
      Empty(b);
    } else {
      Uncons(a, b);
      CompletedAppend(a[1..], b);
      Assoc(if a[0].status == COMPLETED then [a[0]] else [], CompletedOf(a[1..]), CompletedOf(b));
    }
  }

  /** Putting todos among others completes them at most, and never takes a completed one away. */
  lemma CompletedInsert(a: seq<Todo>, x: seq<Todo>, b: seq<Todo>)
    ensures Subsequence(CompletedOf(a + b), CompletedOf(a + x + b))
    ensures CompletedOf(x) == [] ==> CompletedOf(a + x + b) == CompletedOf(a + b)
  {
    hide *;
    CompletedAppend(a, b);
    CompletedAppend(a, x);
    CompletedAppend(a + x, b);
    SubInsert(CompletedOf(a), CompletedOf(x), CompletedOf(b));
    Empty(CompletedOf(a));
  }

  lemma CompletedOne(t: Todo)
    ensures CompletedOf([t]) == if t.status == COMPLETED then [t] else []
  {
    assert [t][1..] == [];
  }

  /** Another value for an open todo. */
  lemma CompletedUpdate(todos: seq<Todo>, i: nat, t: Todo)
    requires i < |todos| && todos[i].status != COMPLETED
    ensures Subsequence(CompletedOf(todos), CompletedOf(todos[i := t]))
    ensures t.status != COMPLETED ==> CompletedOf(todos[i := t]) == CompletedOf(todos)
  {
    var a, b := todos[..i], todos[i + 1..];
    assert todos == a + [todos[i]] + b && todos[i := t] == a + [t] + b;
    CompletedOne(todos[i]);
    CompletedOne(t);
    CompletedInsert(a, [todos[i]], b);
    CompletedInsert(a, [t], b);
  }

  lemma {:induction false} InsertsKeep(todos: seq<Todo>, adds: seq<Addition>)
    requires InsertAll(todos, adds).Some?
    ensures Subsequence(CompletedOf(todos), CompletedOf(InsertAll(todos, adds).value))
    decreases |adds|
  {
    if adds == [] {
      SubRefl(CompletedOf(todos));
    } else {
      var at := adds[0].order;
      var next := todos[..at] + [adds[0].todo] + todos[at..];
      InsertsKeep(next, adds[1..]);
      assert todos == todos[..at] + todos[at..];
      CompletedInsert(todos[..at], [adds[0].todo], todos[at..]);
      SubTransitive(CompletedOf(todos), CompletedOf(next), CompletedOf(InsertAll(todos, adds).value));
    }
  }

  lemma {:induction false} DeletesKeep(todos: seq<Todo>, titles: seq<string>)
    requires DeleteAll(todos, titles).Left?
    ensures CompletedOf(DeleteAll(todos, titles).todos) == CompletedOf(todos)
    decreases |titles|
  {
    if titles != [] {
      var i := IndexOf(todos, titles[0]);
      DeletesKeep(todos[..i] + todos[i + 1..], titles[1..]);
      assert todos == todos[..i] + [todos[i]] + todos[i + 1..];
      CompletedOne(todos[i]);
      CompletedInsert(todos[..i], [todos[i]], todos[i + 1..]);
    }
  }

  lemma ReplayKeepsCompleted(trim: Trim, op: PlanOp, b: Board)
    ensures Subsequence(CompletedIn(b), CompletedIn(Replay(trim, op, b)))
  {
    hide Subsequence, CompletedOf, InsertAll, DeleteAll, Started;
    var c := Change(trim, op, b);
    if c.Refused? {
      SubRefl(CompletedIn(b));
    } else {
      match op {
        case Create(_, _) => NoneCompleted(b, c.board);
        case Finish(title) =>
          var todos := b.todos.value;
          var i := IndexOf(todos, title);
          var t := todos[i].(status := COMPLETED);
          CompletedUpdate(todos, i, t);
          var j := FirstOpen(todos[i := t], i + 1);
          if j >= 0 { CompletedUpdate(todos[i := t], j, todos[i := t][j].(status := IN_PROGRESS)); }
        case Revise(toDelete, toAdd, _) =>
          InsertsKeep(b.todos.value, toAdd);
          DeletesKeep(InsertAll(b.todos.value, toAdd).value, toDelete);
      }
    }
  }

  lemma NoneCompleted(b: Board, after: Board)
    requires Length(b.todos) == 0
    ensures Subsequence(CompletedIn(b), CompletedIn(after))
  {
  }

  /** Over any run of plan operations, applied or not, the completed todos stay, in order, among the
      completed todos of every later plan. */
  lemma {:induction false} CompletedStay(trim: Trim, ops: seq<PlanOp>, b: Board)
    ensures Subsequence(CompletedIn(b), CompletedIn(ReplayAll(trim, ops, b)))
    decreases |ops|
  {
    hide Subsequence, CompletedIn, Replay;
    if ops == [] {
      SubRefl(CompletedIn(b));
    } else {
      var next := Replay(trim, ops[0], b);
      ReplayKeepsCompleted(trim, ops[0], b);
      CompletedStay(trim, ops[1..], next);
      SubTransitive(CompletedIn(b), CompletedIn(next), CompletedIn(ReplayAll(trim, ops, b)));
    }
  }

  predicate AllDone(todos: seq<Todo>) {
    forall k :: 0 <= k < |todos| ==> todos[k].status == COMPLETED
  }

  /** complete_todo looks for the next open todo only below the one it completes: what it says is
      true if and only if no todo above is open. */
  lemma SaysAllCompleted(trim: Trim, title: string, b: Board)
    requires Change(trim, Finish(title), b).Changed? && Change(trim, Finish(title), b).said == AllCompleted
    ensures var i := IndexOf(b.todos.value, title);
      AllDone(Change(trim, Finish(title), b).board.todos.value) <==>
      forall k :: 0 <= k < i ==> b.todos.value[k].status == COMPLETED
  {
    var todos := b.todos.value;
    var i := IndexOf(todos, title);
    var done := Change(trim, Finish(title), b).board.todos.value;
    assert done == todos[i := todos[i].(status := COMPLETED)];
    if AllDone(done) {
      forall k | 0 <= k < i ensures todos[k].status == COMPLETED { assert done[k].status == COMPLETED; }
    }
  }

  lemma SaysAllCompletedEarly(trim: Trim)
    ensures var b := Board(Some([Todo("a", PENDING, ""), Todo("b", IN_PROGRESS, "")]), "p");
      var c := Change(trim, Finish("b"), b);
      c.Changed? && c.said == AllCompleted && !AllDone(c.board.todos.value)
  {
    var todos := [Todo("a", PENDING, ""), Todo("b", IN_PROGRESS, "")];
    assert IndexOf(todos, "b") == 1;
    var c := Change(trim, Finish("b"), Board(Some(todos), "p"));
    assert c.board.todos.value[0].status == PENDING;
  }

  // ---------------------------------------------------------------------------------------------
  // The plan store
  // ---------------------------------------------------------------------------------------------

  class PlanStore {
    var board: Board
    var updated: bool

    constructor ()
      ensures board == Board(None, "") && !updated
    {
      board, updated := Board(None, ""), false;
    }

    /** A change that fails leaves the plan as it was. */
    method Apply(trim: Trim, op: PlanOp)
      modifies this
      ensures board == Replay(trim, op, old(board))
      ensures updated == (old(updated) || Change(trim, op, old(board)).Changed?)
    {
      var c := RunChange(trim, op, board);
      match c {
        case Changed(next, _, _) => board, updated := next, true;
        case Refused(_) =>
      }
    }

    /** The todos to stream when a change landed since the last time. */
    method ConsumeUpdated() returns (todos: Option<Option<seq<Todo>>>)
      modifies this
      ensures board == old(board) && !updated
      ensures todos == if old(updated) then Some(board.todos) else None
    {
      todos := if updated then Some(board.todos) else None;
      updated := false;
    }

    method Restore(todos: Option<seq<Todo>>, document: string)
      modifies this
      ensures board == Board(todos, document) && !updated
    {
      board, updated := Board(todos, document), false;
    }
  }

  method RunChange(trim: Trim, op: PlanOp, b: Board) returns (r: Changed)
    ensures r == Change(trim, op, b)
  {
    match op {
      case Create(document, todos) => r := CreateChange(document, todos, b);
      case Finish(title) => r := FinishChange(title, b);
      case Revise(toDelete, toAdd, document) => r := ReviseChange(trim, toDelete, toAdd, document, b);
    }
  }
}
