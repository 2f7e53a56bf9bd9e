/** What a plan change does, told todo by todo (builtins.go, createPlanChange, completeTodoChange,
    editPlanChange). */
module PlanExact {
  import opened Messages
  import opened Plan
  import opened Sequences

  /** a and b are the same but for the status. */
  predicate SameBut(a: Todo, b: Todo, status: string) {
    b.title == a.title && b.description == a.description && b.status == status
  }

  predicate NoneOpen(todos: seq<Todo>, from: nat, to: nat) {
    forall k :: from <= k < to && k < |todos| ==> todos[k].status == COMPLETED
  }

  // ---------------------------------------------------------------------------------------------
  // Creating
  // ---------------------------------------------------------------------------------------------

  /** The first open todo starts; an open one after it without a status waits; the rest stay. */
  predicate StartsAs(todos: seq<Todo>, out: seq<Todo>, i: nat)
    requires i < |todos| == |out|
  {
    var t := todos[i];
    if t.status == COMPLETED then out[i] == t
    else if NoneOpen(todos, 0, i) then SameBut(t, out[i], IN_PROGRESS)
    else SameBut(t, out[i], if t.status == "" then PENDING else t.status)
  }

  predicate HasTodos(b: Board) {
    b.todos.Some? && b.todos.value != []
  }

  ghost predicate CreatesAs(document: string, todos: Option<seq<Todo>>, b: Board, c: Changed) {
    if HasTodos(b) then c == Refused(ActivePlan)
    else
      c.Changed? && c.said == PlanCreated && c.effect == InstallPlan && c.board.document == document &&
      match todos
      case None => c.board.todos.None?
      case Some(ts) =>
        c.board.todos.Some? && |c.board.todos.value| == |ts| &&
        forall i: nat :: i < |ts| ==> StartsAs(ts, c.board.todos.value, i)
  }

  lemma {:induction false} StartedAt(todos: seq<Todo>, started: bool, i: nat)
    requires i < |todos|
    ensures var t, out := todos[i], Started(todos, started)[i];
      out == if t.status == COMPLETED then t
             else if !started && NoneOpen(todos, 0, i) then t.(status := IN_PROGRESS)
             else if t.status == "" then t.(status := PENDING) else t
    decreases i
  {
    if i > 0 {
      StartedAt(todos[1..], started || todos[0].status != COMPLETED, i - 1);
      if todos[0].status == COMPLETED {
        assert NoneOpen(todos, 0, i) <==> NoneOpen(todos[1..], 0, i - 1) by { NoneOpenTail(todos, i); }
      }
    }
  }

  lemma NoneOpenTail(todos: seq<Todo>, i: nat)
    requires 0 < i < |todos| && todos[0].status == COMPLETED
    ensures NoneOpen(todos, 0, i) <==> NoneOpen(todos[1..], 0, i - 1)
  {
    var rest := todos[1..];
    assert forall k :: 0 < k < |todos| ==> todos[k] == rest[k - 1];
    if NoneOpen(rest, 0, i - 1) {
      forall k | 0 <= k < i ensures todos[k].status == COMPLETED { if k > 0 { assert rest[k - 1].status == COMPLETED; } }
    }
  }

  lemma CreateExactly(document: string, todos: Option<seq<Todo>>, b: Board)
    ensures CreatesAs(document, todos, b, Created(document, todos, b))
  {
    hide Started, NoneOpen;
    if todos.Some? && !HasTodos(b) {
      var ts := todos.value;
      var out := Created(document, todos, b).board.todos.value;
      forall i: nat | i < |ts| ensures StartsAs(ts, out, i) { StartedAt(ts, false, i); }
    }
  }

  // ---------------------------------------------------------------------------------------------
  // Completing
  // ---------------------------------------------------------------------------------------------

  predicate FirstWith(todos: seq<Todo>, title: string, i: int) {
    0 <= i < |todos| && todos[i].title == title && forall k :: 0 <= k < i ==> todos[k].title != title
  }

  predicate SameExcept(todos: seq<Todo>, out: seq<Todo>, changed: set<int>) {
    |out| == |todos| && forall k :: 0 <= k < |todos| && k !in changed ==> out[k] == todos[k]
  }

  /** The first todo of the title is completed; the first open one below it, if there is one, starts. */
  predicate Completes(todos: seq<Todo>, i: nat, b: Board, c: Changed)
    requires i < |todos|
  {
    c.Changed? && c.board.document == b.document && c.board.todos.Some? &&
    var out := c.board.todos.value;
    |out| == |todos| && SameBut(todos[i], out[i], COMPLETED) &&
    if NoneOpen(todos, i + 1, |todos|) then
      SameExcept(todos, out, {i}) && c.said == AllCompleted && c.effect == NoEffect
    else
      exists j: nat :: i < j < |todos| && Starts(todos, out, i, j) &&
        c.said == NowStarting(todos[j].title, todos[j].description) && c.effect == HandOff
  }

  predicate Starts(todos: seq<Todo>, out: seq<Todo>, i: nat, j: nat)
    requires i < j < |todos| == |out|
  {
    NoneOpen(todos, i + 1, j) && todos[j].status != COMPLETED && SameBut(todos[j], out[j], IN_PROGRESS) &&
    SameExcept(todos, out, {i as int, j})
  }

  ghost predicate FinishesAs(title: string, b: Board, c: Changed) {
    match b.todos
    case None => c == Refused(NoPlan)
    case Some(todos) =>
      if forall k :: 0 <= k < |todos| ==> todos[k].title != title then c == Refused(NotFound)
      else
        exists i: nat :: i < |todos| && FirstWith(todos, title, i) &&
          if todos[i].status == COMPLETED then c == Refused(AlreadyCompleted) else Completes(todos, i, b, c)
  }

  lemma FinishExactly(title: string, b: Board)
    ensures FinishesAs(title, b, Finished(title, b))
  {
    hide Completes;
    if b.todos.Some? {
      var todos := b.todos.value;
      var i := IndexOf(todos, title);
      if i >= 0 {
        assert FirstWith(todos, title, i);
        if todos[i].status != COMPLETED { FinishCompletes(title, b, i); }
      }
    }
  }

  lemma FinishCompletes(title: string, b: Board, i: nat)
    requires b.todos.Some? && i == IndexOf(b.todos.value, title) && b.todos.value[i].status != COMPLETED
    ensures Completes(b.todos.value, i, b, Finished(title, b))
  {
    hide IndexOf, FirstOpen;
    var todos := b.todos.value;
    var done := todos[i := todos[i].(status := COMPLETED)];
    var j := FirstOpen(done, i + 1);
    assert forall k :: i < k < |todos| ==> done[k] == todos[k];
    if j >= 0 {
      var out := Finished(title, b).board.todos.value;
      assert Starts(todos, out, i, j);
      assert !NoneOpen(todos, i + 1, |todos|);
    }
  }

  // ---------------------------------------------------------------------------------------------
  // Editing
  // ---------------------------------------------------------------------------------------------

  /** out is todos with t put before position at. */
  predicate PutAt(todos: seq<Todo>, at: nat, t: Todo, out: seq<Todo>) {
    at <= |todos| && |out| == |todos| + 1 && out[at] == t &&
    (forall k :: 0 <= k < at ==> out[k] == todos[k]) && forall k :: at < k < |out| ==> out[k] == todos[k - 1]
  }

  /** The lists after each insertion, up to one whose order is out of bounds. */
  ghost predicate Inserts(lists: seq<seq<Todo>>, adds: seq<Addition>) {
    0 < |lists| <= |adds| + 1 &&
    forall k: nat :: k + 1 < |lists| ==> Inserted(lists, adds, k)
  }

  predicate Inserted(lists: seq<seq<Todo>>, adds: seq<Addition>, k: nat)
    requires k + 1 < |lists| <= |adds| + 1
  {
    0 <= adds[k].order <= |lists[k]| && PutAt(lists[k], adds[k].order, adds[k].todo, lists[k + 1])
  }

  /** The first addition that is out of bounds stops the edit. */
  predicate StopsInserting(lists: seq<seq<Todo>>, adds: seq<Addition>)
    requires 0 < |lists| <= |adds|
  {
    var n := |lists| - 1;
    adds[n].order < 0 || adds[n].order > |lists[n]|
  }

  /** out is todos without position at. */
  predicate Without(todos: seq<Todo>, at: nat, out: seq<Todo>) {
    at < |todos| && |out| == |todos| - 1 &&
    (forall k :: 0 <= k < at ==> out[k] == todos[k]) && forall k :: at <= k < |out| ==> out[k] == todos[k + 1]
  }

  ghost predicate Deletes(lists: seq<seq<Todo>>, titles: seq<string>) {
    0 < |lists| <= |titles| + 1 &&
    forall k: nat :: k + 1 < |lists| ==> Dropped(lists, titles, k)
  }

  ghost predicate Dropped(lists: seq<seq<Todo>>, titles: seq<string>, k: nat)
    requires k + 1 < |lists| <= |titles| + 1
  {
    exists at: nat :: FirstWith(lists[k], titles[k], at) && lists[k][at].status != COMPLETED && Without(lists[k], at, lists[k + 1])
  }

  /** What stops the deletions: a title that is not there, or whose todo is completed. */
  ghost predicate StopsDeleting(lists: seq<seq<Todo>>, titles: seq<string>, e: PlanError)
    requires 0 < |lists| <= |titles|
  {
    var last, title := lists[|lists| - 1], titles[|lists| - 1];
    if forall k :: 0 <= k < |last| ==> last[k].title != title then e == NotFound
    else e == CompletedDelete && exists at: nat :: FirstWith(last, title, at) && last[at].status == COMPLETED
  }

  lemma {:induction false} InsertLists(todos: seq<Todo>, adds: seq<Addition>) returns (lists: seq<seq<Todo>>)
    ensures Inserts(lists, adds) && lists[0] == todos
    ensures match InsertAll(todos, adds)
      case None => |lists| <= |adds| && StopsInserting(lists, adds)
      case Some(out) => |lists| == |adds| + 1 && lists[|adds|] == out
    decreases |adds|
  {
    if adds == [] || adds[0].order < 0 || adds[0].order > |todos| {
      lists := [todos];
    } else {
      var at := adds[0].order;
      var next := todos[..at] + [adds[0].todo] + todos[at..];
      assert PutAt(todos, at, adds[0].todo, next);
      var rest := InsertLists(next, adds[1..]);
      lists := [todos] + rest;
      forall k: nat | k + 1 < |lists| ensures Inserted(lists, adds, k) {
        if k > 0 { assert Inserted(rest, adds[1..], k - 1); }
      }
    }
  }

  lemma DropsFirst(todos: seq<Todo>, i: nat, next: seq<Todo>, rest: seq<seq<Todo>>, titles: seq<string>)
    requires titles != [] && FirstWith(todos, titles[0], i) && todos[i].status != COMPLETED
    requires next == todos[..i] + todos[i + 1..] && Deletes(rest, titles[1..]) && rest[0] == next
    ensures Deletes([todos] + rest, titles)
  {
    var lists := [todos] + rest;
    WithoutIs(todos, i);
    hide FirstWith, Without;
    forall k: nat | k + 1 < |lists| ensures Dropped(lists, titles, k) {
      if k > 0 {
        assert Dropped(rest, titles[1..], k - 1);
        assert lists[k] == rest[k - 1] && lists[k + 1] == rest[k] && titles[k] == titles[1..][k - 1];
      } else {
        assert lists[0] == todos && lists[1] == next;
      }
    }
  }

  lemma WithoutIs(todos: seq<Todo>, i: nat)
    requires i < |todos|
    ensures Without(todos, i, todos[..i] + todos[i + 1..])
  {
  }

  lemma StopsLater(todos: seq<Todo>, rest: seq<seq<Todo>>, titles: seq<string>, e: PlanError)
    requires 0 < |rest| < |titles| && StopsDeleting(rest, titles[1..], e)
    ensures StopsDeleting([todos] + rest, titles, e)
  {
    hide FirstWith;
    var lists := [todos] + rest;
    assert lists[|lists| - 1] == rest[|rest| - 1] && titles[|lists| - 1] == titles[1..][|rest| - 1];
  }

  lemma {:induction false} DeleteLists(todos: seq<Todo>, titles: seq<string>) returns (lists: seq<seq<Todo>>)
    ensures Deletes(lists, titles) && lists[0] == todos
    ensures match DeleteAll(todos, titles)
      case Bad(e) => |lists| <= |titles| && StopsDeleting(lists, titles, e)
      case Left(out) => |lists| == |titles| + 1 && lists[|titles|] == out
    decreases |titles|
  {
    lists := [todos];
    if titles != [] {
      var i := IndexOf(todos, titles[0]);
      if i >= 0 && todos[i].status != COMPLETED {
        var next := todos[..i] + todos[i + 1..];
        var rest := DeleteLists(next, titles[1..]);
        lists := [todos] + rest;
        DropsFirst(todos, i, next, rest, titles);
        var end := DeleteAll(next, titles[1..]);
        if end.Bad? { StopsLater(todos, rest, titles, end.error); }
      } else if i >= 0 {
        assert FirstWith(todos, titles[0], i);
      }
    }
  }

  /** An edit: nothing without a plan or with the same document; then the additions at their orders, and
      then the deletions by title, each of them on the list that those before it left. */
  ghost predicate EditsAs(trim: Trim, toDelete: seq<string>, toAdd: seq<Addition>, document: string, b: Board, c: Changed,
                          added: seq<seq<Todo>>, left: seq<seq<Todo>>) {
    if b.todos.None? then c == Refused(NoPlan)
    else if trim(document) != "" && trim(document) == trim(b.document) then c == Refused(Unchanged)
    else
      Inserts(added, toAdd) && added[0] == b.todos.value &&
      if |added| <= |toAdd| then StopsInserting(added, toAdd) && c == Refused(OutOfBounds)
      else
        Deletes(left, toDelete) && left[0] == added[|toAdd|] &&
        if |left| <= |toDelete| then c.Refused? && StopsDeleting(left, toDelete, c.error)
        else
          c.Changed? && c.board.todos == Some(left[|toDelete|]) && c.said == PlanEdited &&
          if trim(document) != "" then c.board.document == document && c.effect == HandOff
          else c.board.document == b.document && c.effect == NoEffect
  }

  lemma ReviseExactly(trim: Trim, toDelete: seq<string>, toAdd: seq<Addition>, document: string, b: Board)
    returns (added: seq<seq<Todo>>, left: seq<seq<Todo>>)
    ensures EditsAs(trim, toDelete, toAdd, document, b, Revised(trim, toDelete, toAdd, document, b), added, left)
  {
    hide Inserts, Deletes, StopsDeleting, StopsInserting;
    added, left := [], [];
    if b.todos.Some? {
      added := InsertLists(b.todos.value, toAdd);
      var all := InsertAll(b.todos.value, toAdd);
      if all.Some? { left := DeleteLists(all.value, toDelete); }
    }
  }
}
