/** Restoring a session from the rows of a checkpoint, in whatever order they come (checkpoint.go,
    RestoreCheckpoint; window.go, restore; validate.go). */
module CheckpointRestore {
  import opened Messages
  import opened Sequences
  import opened ContextWindow
  import opened SessionRows
  import opened Positions
  import opened Plan
  import opened Checkpoint

  // ---------------------------------------------------------------------------------------------
  // What the loop over the sorted rows gathers
  // ---------------------------------------------------------------------------------------------

  datatype Gathered<R, V> = Gathered(version: int, window: seq<Entry>, todos: seq<Todo>, document: string,
                                     permissions: map<string, int>, rests: map<string, R>, user: map<string, V>)

  function NothingYet<R, V>(): Gathered<R, V> {
    Gathered(0, [], [], "", map[], map[], map[])
  }

  /** One row; None is an unknown kind or a value that does not decode. */
  function GatherOne<R, V>(c: Codecs<R, V>, g: Gathered<R, V>, e: Entry): Option<Gathered<R, V>> {
    var kind, key, value := e.row.kind, e.row.key, e.value;
    if kind == VERSION_ROW then
      var v := c.version.dec(value);
      if v.None? then None else Some(g.(version := v.value))
    else if kind == MESSAGE_ROW || kind == COUNT_ROW then Some(g.(window := g.window + [e]))
    else if kind == TODO_ROW then
      var v := c.todo.dec(value);
      if v.None? then None else Some(g.(todos := g.todos + [v.value]))
    else if kind == PLAN_ROW then Some(g.(document := value))
    else if kind == PERMISSION_ROW then
      var v := c.permission.dec(value);
      if v.None? then None else Some(g.(permissions := g.permissions[key := v.value]))
    else if kind == REST_ROW then
      var v := c.rest.dec(value);
      if v.None? then None else Some(g.(rests := g.rests[key := v.value]))
    else if kind == STATE_ROW then
      var v := c.user.dec(value);
      if v.None? then None else Some(g.(user := g.user[key := v.value]))
    else None
  }

  function Gather<R, V>(c: Codecs<R, V>, g: Gathered<R, V>, rows: seq<Entry>): Option<Gathered<R, V>>
    decreases |rows|
  {
    if rows == [] then Some(g)
    else
      var next := GatherOne(c, g, rows[0]);
      if next.None? then None else Gather(c, next.value, rows[1..])
  }

  predicate ValidMessage(m: Message) {
    if m.role == Tool then m.toolCallId != "" else m.toolCallId == ""
  }

  predicate ValidMessages(msgs: seq<Message>) {
    forall m :: m in msgs ==> ValidMessage(m)
  }

  /** The window the rows hold, in their order. */
  function WindowOf<R, V>(c: Codecs<R, V>, rows: seq<Entry>, msgs: seq<Message>, count: Count): Option<(seq<Message>, Count)>
    decreases |rows|
  {
    if rows == [] then (if ValidMessages(msgs) then Some((msgs, count)) else None)
    else if rows[0].row.kind == COUNT_ROW then
      var v := c.count.dec(rows[0].value);
      if v.None? then None else WindowOf(c, rows[1..], msgs, v.value)
    else
      var v := c.message.dec(rows[0].value);
      if v.None? then None else WindowOf(c, rows[1..], msgs + [v.value], count)
  }

  function Finish<R, V>(c: Codecs<R, V>, g: Gathered<R, V>): Option<State<R, V>> {
    var w := WindowOf(c, g.window, [], NO_COUNT);
    if g.version != VERSION || w.None? then None
    else
      Some(State(w.value.0, w.value.1, if g.todos == [] then None else Some(g.todos), g.document,
                 g.permissions, g.rests, g.user))
  }

  function Restored<R, V>(c: Codecs<R, V>, rows: seq<Entry>): Option<State<R, V>> {
    var g := Gather(c, NothingYet(), SortEntries(rows));
    if g.None? then None else Finish(c, g.value)
  }

  class Harness<R(0), V(0)> {
    var state: State<R, V>

    constructor (s: State<R, V>)
      ensures state == s
    {
      state := s;
    }

    /** Replaces the committed state with the rows'; an error changes nothing. */
    method RestoreCheckpoint(c: Codecs<R, V>, rows: seq<Entry>) returns (ok: bool)
      modifies this
      ensures ok <==> Restored(c, rows).Some?
      ensures state == if ok then Restored(c, rows).value else old(state)
    {
      var sorted := SortEntries(rows);
      var g: Gathered<R, V> := NothingYet();
      for i := 0 to |sorted|
        invariant state == old(state)
        invariant Gather(c, NothingYet(), sorted) == Gather(c, g, sorted[i..])
      {
        assert sorted[i..][1..] == sorted[i + 1..];
        var next := GatherOne(c, g, sorted[i]);
        if next.None? {
          return false;
        }
        g := next.value;
      }
      if g.version != VERSION {
        return false;
      }
      var w := RestoreWindow(c, g.window);
      if w.None? {
        return false;
      }
      state := State(w.value.0, w.value.1, if g.todos == [] then None else Some(g.todos), g.document,
                     g.permissions, g.rests, g.user);
      ok := true;
    }
  }

  method RestoreWindow<R, V>(c: Codecs<R, V>, rows: seq<Entry>) returns (w: Option<(seq<Message>, Count)>)
    ensures w == WindowOf(c, rows, [], NO_COUNT)
  {
    var msgs: seq<Message>, count := [], NO_COUNT;
    for i := 0 to |rows|
      invariant WindowOf(c, rows, [], NO_COUNT) == WindowOf(c, rows[i..], msgs, count)
    {
      assert rows[i..][1..] == rows[i + 1..];
      if rows[i].row.kind == COUNT_ROW {
        var v := c.count.dec(rows[i].value);
        if v.None? {
          return None;
        }
        count := v.value;
      } else {
        var v := c.message.dec(rows[i].value);
        if v.None? {
          return None;
        }
        msgs := msgs + [v.value];
      }
    }
    for i := 0 to |msgs|
      invariant forall k :: 0 <= k < i ==> ValidMessage(msgs[k])
    {
      if !ValidMessage(msgs[i]) {
        assert msgs[i] in msgs;
        return None;
      }
    }
    w := Some((msgs, count));
  }

  // ---------------------------------------------------------------------------------------------
  // Each section, gathered
  // ---------------------------------------------------------------------------------------------

  lemma {:induction false} GatherAppend<R, V>(c: Codecs<R, V>, g: Gathered<R, V>, a: seq<Entry>, b: seq<Entry>)
    ensures Gather(c, g, a + b) ==
            var mid := Gather(c, g, a); if mid.None? then None else Gather(c, mid.value, b)
    decreases |a|
  {
    hide GatherOne;
    if a == [] {
      Empty(b);
    } else {
      Uncons(a, b);
      if GatherOne(c, g, a[0]).Some? { GatherAppend(c, GatherOne(c, g, a[0]).value, a[1..], b); }
    }
  }

  predicate Kind(rows: seq<Entry>, kind: string) {
    forall e :: e in rows ==> e.row.kind == kind
  }

  lemma {:induction false} GatherWindow<R, V>(c: Codecs<R, V>, g: Gathered<R, V>, rows: seq<Entry>)
    requires forall e :: e in rows ==> e.row.kind == MESSAGE_ROW || e.row.kind == COUNT_ROW
    ensures Gather(c, g, rows) == Some(g.(window := g.window + rows))
    decreases |rows|
  {
    if rows == [] {
      assert g.window + rows == g.window;
    } else {
      assert rows[0] in rows && forall e :: e in rows[1..] ==> e in rows;
      GatherWindow(c, g.(window := g.window + [rows[0]]), rows[1..]);
      assert g.window + [rows[0]] + rows[1..] == g.window + rows;
    }
  }

  lemma TodoOne<R, V>(c: Codecs<R, V>, g: Gathered<R, V>, todo: Todo, key: string)
    requires Faithful(c.todo)
    ensures GatherOne(c, g, Entry(Row(TODO_ROW, key), c.todo.enc(todo))) == Some(g.(todos := g.todos + [todo]))
  {
  }

  lemma GatherCons<R, V>(c: Codecs<R, V>, g: Gathered<R, V>, e: Entry, rest: seq<Entry>)
    ensures Gather(c, g, [e] + rest) == var next := GatherOne(c, g, e); if next.None? then None else Gather(c, next.value, rest)
  {
    hide GatherOne;
    assert ([e] + rest)[1..] == rest;
  }

  lemma TodoRows<T>(j: Json<T>, xs: seq<T>, from: nat)
    requires xs != []
    ensures ListRows(TODO_ROW, j, xs, from) == [Entry(Row(TODO_ROW, Position(from)), j.enc(xs[0]))] + ListRows(TODO_ROW, j, xs[1..], from + 1)
  {
    hide Position;
  }

  lemma {:induction false} GatherTodos<R, V>(c: Codecs<R, V>, g: Gathered<R, V>, todos: seq<Todo>, from: nat)
    requires Faithful(c.todo)
    ensures Gather(c, g, ListRows(TODO_ROW, c.todo, todos, from)) == Some(g.(todos := g.todos + todos))
    decreases |todos|
  {
    if todos == [] {
      Empty(g.todos);
    } else {
      hide Gather, GatherOne, ListRows, Position;
      var first, rest := Entry(Row(TODO_ROW, Position(from)), c.todo.enc(todos[0])), ListRows(TODO_ROW, c.todo, todos[1..], from + 1);
      TodoRows(c.todo, todos, from);
      TodoOne(c, g, todos[0], Position(from));
      GatherCons(c, g, first, rest);
      GatherTodos(c, g.(todos := g.todos + [todos[0]]), todos[1..], from + 1);
      Assoc(g.todos, [todos[0]], todos[1..]);
      assert [todos[0]] + todos[1..] == todos;
    }
  }

  /** The map that rows of one kind write, a later row over an earlier one. */
  function Written<T>(j: Json<T>, m: map<string, T>, rows: seq<Entry>): map<string, T>
    requires forall e :: e in rows ==> e.row.key in m
    decreases |rows|
  {
    if rows == [] then map[]
    else
      assert rows[0] in rows && forall e :: e in rows[1..] ==> e in rows;
      map[rows[0].row.key := m[rows[0].row.key]] + Written(j, m, rows[1..])
  }

  lemma {:induction false} WrittenMembers<T>(j: Json<T>, m: map<string, T>, rows: seq<Entry>, k: string)
    requires forall e :: e in rows ==> e.row.key in m
    ensures k in Written(j, m, rows) <==> exists e :: e in rows && e.row.key == k
    ensures k in Written(j, m, rows) ==> k in m && Written(j, m, rows)[k] == m[k]
    decreases |rows|
  {
    if rows != [] {
      assert rows[0] in rows && forall e :: e in rows <==> e == rows[0] || e in rows[1..];
      WrittenMembers(j, m, rows[1..], k);
    }
  }

  lemma WrittenAll<T>(kind: string, j: Json<T>, m: map<string, T>, rows: seq<Entry>)
    requires MapRows(kind, j, m, rows)
    ensures Written(j, m, rows) == m
  {
    forall k ensures k in Written(j, m, rows) <==> k in m
      ensures k in m ==> Written(j, m, rows)[k] == m[k]
    {
      WrittenMembers(j, m, rows, k);
      if k in m { assert Entry(Row(kind, k), j.enc(m[k])).row.key == k; }
    }
  }

  lemma MapStep<T>(base: map<string, T>, k: string, v: T, rest: map<string, T>)
    ensures base[k := v] + rest == base + (map[k := v] + rest)
  {
  }

  lemma GatherNone<R, V>(c: Codecs<R, V>, g: Gathered<R, V>, rows: seq<Entry>)
    requires rows == []
    ensures Gather(c, g, rows) == Some(g)
  {
  }

  lemma GatherStep<R, V>(c: Codecs<R, V>, g: Gathered<R, V>, rows: seq<Entry>, next: Gathered<R, V>)
    requires rows != [] && GatherOne(c, g, rows[0]) == Some(next)
    ensures Gather(c, g, rows) == Gather(c, next, rows[1..])
  {
  }

  lemma {:induction false} GatherPermissions<R, V>(c: Codecs<R, V>, g: Gathered<R, V>, m: map<string, int>, rows: seq<Entry>)
    requires Faithful(c.permission)
    requires forall e :: e in rows ==> e.row.kind == PERMISSION_ROW && e.row.key in m && e.value == c.permission.enc(m[e.row.key])
    ensures Gather(c, g, rows) == Some(g.(permissions := g.permissions + Written(c.permission, m, rows)))
    decreases |rows|
  {
    if rows == [] {
      assert g.permissions + Written(c.permission, m, rows) == g.permissions;
      GatherNone(c, g, rows);
    } else {
      hide Gather;
      assert rows[0] in rows && forall e :: e in rows[1..] ==> e in rows;
      var k := rows[0].row.key;
      GatherPermissions(c, g.(permissions := g.permissions[k := m[k]]), m, rows[1..]);
      MapStep(g.permissions, k, m[k], Written(c.permission, m, rows[1..]));
      GatherStep(c, g, rows, g.(permissions := g.permissions[k := m[k]]));
    }
  }

  lemma {:induction false} GatherRests<R, V>(c: Codecs<R, V>, g: Gathered<R, V>, m: map<string, R>, rows: seq<Entry>)
    requires forall e :: e in rows ==> e.row.kind == REST_ROW && e.row.key in m && e.value == c.rest.enc(m[e.row.key])
    requires forall e :: e in rows ==> c.rest.dec(e.value) == Some(m[e.row.key])
    ensures Gather(c, g, rows) == Some(g.(rests := g.rests + Written(c.rest, m, rows)))
    decreases |rows|
  {
    if rows == [] {
      assert g.rests + Written(c.rest, m, rows) == g.rests;
      GatherNone(c, g, rows);
    } else {
      hide Gather;
      assert rows[0] in rows && forall e :: e in rows[1..] ==> e in rows;
      var k := rows[0].row.key;
      GatherRests(c, g.(rests := g.rests[k := m[k]]), m, rows[1..]);
      MapStep(g.rests, k, m[k], Written(c.rest, m, rows[1..]));
      GatherStep(c, g, rows, g.(rests := g.rests[k := m[k]]));
    }
  }

  lemma {:induction false} GatherUser<R, V>(c: Codecs<R, V>, g: Gathered<R, V>, m: map<string, V>, rows: seq<Entry>)
    requires forall e :: e in rows ==> e.row.kind == STATE_ROW && e.row.key in m && e.value == c.user.enc(m[e.row.key])
    requires forall e :: e in rows ==> c.user.dec(e.value) == Some(m[e.row.key])
    ensures Gather(c, g, rows) == Some(g.(user := g.user + Written(c.user, m, rows)))
    decreases |rows|
  {
    if rows == [] {
      assert g.user + Written(c.user, m, rows) == g.user;
      GatherNone(c, g, rows);
    } else {
      hide Gather;
      assert rows[0] in rows && forall e :: e in rows[1..] ==> e in rows;
      var k := rows[0].row.key;
      GatherUser(c, g.(user := g.user[k := m[k]]), m, rows[1..]);
      MapStep(g.user, k, m[k], Written(c.user, m, rows[1..]));
      GatherStep(c, g, rows, g.(user := g.user[k := m[k]]));
    }
  }

  // ---------------------------------------------------------------------------------------------
  // The sorted rows of a checkpoint
  // ---------------------------------------------------------------------------------------------

  lemma StrictJoin(a: seq<Entry>, b: seq<Entry>)
    requires Strict(a) && Strict(b) && forall x, y :: x in a && y in b ==> RowLess(x.row, y.row)
    ensures Strict(a + b)
  {
    hide RowLess;
    forall i, j | 0 <= i < j < |a + b| ensures RowLess((a + b)[i].row, (a + b)[j].row) {
      if i < |a| <= j { assert a[i] in a && b[j - |a|] in b; }
    }
  }

  /** The sections in the order of their kinds. */
  function InKindOrder(parts: seq<seq<Entry>>): seq<Entry>
    requires |parts| == 8
  {
    parts[2] + parts[1] + parts[5] + parts[4] + parts[6] + parts[7] + parts[3] + parts[0]
  }

  lemma KindOrder()
    ensures Less(COUNT_ROW, MESSAGE_ROW) && Less(MESSAGE_ROW, PERMISSION_ROW) && Less(PERMISSION_ROW, PLAN_ROW) &&
            Less(PLAN_ROW, REST_ROW) && Less(REST_ROW, STATE_ROW) && Less(STATE_ROW, TODO_ROW) && Less(TODO_ROW, VERSION_ROW)
  {
    assert PERMISSION_ROW[1..] == "ermission" && PLAN_ROW[1..] == "lan";
  }

  /** Rows of a, in kind order, all of a kind up to `last`. */
  predicate UpTo(a: seq<Entry>, last: string) {
    Strict(a) && forall e :: e in a ==> e.row.kind == last || Less(e.row.kind, last)
  }

  lemma Extend(a: seq<Entry>, last: string, b: seq<Entry>, next: string)
    requires UpTo(a, last) && Strict(b) && Kind(b, next) && Less(last, next)
    ensures UpTo(a + b, next)
  {
    hide Less;
    forall x, y | x in a && y in b ensures RowLess(x.row, y.row) {
      if x.row.kind != last { LessTransitive(x.row.kind, last, next); }
    }
    StrictJoin(a, b);
    forall e | e in a + b ensures e.row.kind == next || Less(e.row.kind, next) {
      if e in a && e.row.kind != last { LessTransitive(e.row.kind, last, next); }
    }
  }

  lemma {:induction false} ListStrict<T>(kind: string, j: Json<T>, xs: seq<T>, from: nat)
    requires from + |xs| <= LIMIT
    ensures var rows := ListRows(kind, j, xs, from);
      Strict(rows) && forall e :: e in rows ==> e.row.kind == kind && exists i :: from <= i < from + |xs| && e.row.key == Position(i)
    decreases |xs|
  {
    hide Position, Less;
    if xs != [] {
      ListStrict(kind, j, xs[1..], from + 1);
      var first, rest := [Entry(Row(kind, Position(from)), j.enc(xs[0]))], ListRows(kind, j, xs[1..], from + 1);
      forall x, y | x in first && y in rest ensures RowLess(x.row, y.row) {
        var i :| from + 1 <= i < from + |xs| && y.row.key == Position(i);
        PositionOrder(from, i);
      }
      StrictJoin(first, rest);
    }
  }

  predicate Fits<R, V>(s: State<R, V>) {
    |s.msgs| <= LIMIT && |TodosOf(s)| <= LIMIT
  }

  lemma InKindOrderStrict<R, V>(c: Codecs<R, V>, s: State<R, V>, parts: seq<seq<Entry>>)
    requires Sections(c, s, parts) && Fits(s)
    ensures Strict(InKindOrder(parts))
  {
    hide Position, Less, ListRows;
    ListStrict(MESSAGE_ROW, c.message, s.msgs, 0);
    ListStrict(TODO_ROW, c.todo, TodosOf(s), 0);
    KindOrder();
    SectionsInOrder(parts);
  }

  lemma SectionsInOrder(parts: seq<seq<Entry>>)
    requires |parts| == 8 && forall i :: 0 <= i < 8 ==> Strict(parts[i]) && Kind(parts[i], KINDS[i])
    ensures Strict(InKindOrder(parts))
  {
    hide Less, Strict, Kind;
    KindOrder();
    assert UpTo(parts[2], COUNT_ROW) by { UpToKind(parts[2], COUNT_ROW); }
    Extend(parts[2], COUNT_ROW, parts[1], MESSAGE_ROW);
    var a := parts[2] + parts[1];
    Extend(a, MESSAGE_ROW, parts[5], PERMISSION_ROW);
    Extend(a + parts[5], PERMISSION_ROW, parts[4], PLAN_ROW);
    a := a + parts[5] + parts[4];
    Extend(a, PLAN_ROW, parts[6], REST_ROW);
    Extend(a + parts[6], REST_ROW, parts[7], STATE_ROW);
    a := a + parts[6] + parts[7];
    Extend(a, STATE_ROW, parts[3], TODO_ROW);
    Extend(a + parts[3], TODO_ROW, parts[0], VERSION_ROW);
  }

  lemma UpToKind(a: seq<Entry>, kind: string)
    requires Strict(a) && Kind(a, kind)
    ensures UpTo(a, kind)
  {
  }

  lemma SameBag(parts: seq<seq<Entry>>)
    requires |parts| == 8
    ensures multiset(Join(parts)) == multiset(InKindOrder(parts))
  {
    JoinEight(parts[0], parts[1], parts[2], parts[3], parts[4], parts[5], parts[6], parts[7]);
    assert parts == [parts[0], parts[1], parts[2], parts[3], parts[4], parts[5], parts[6], parts[7]];
  }

  /** Whatever order the rows come in, sorting them gives the sections in kind order. */
  lemma SortedRows<R, V>(c: Codecs<R, V>, s: State<R, V>, parts: seq<seq<Entry>>, rows: seq<Entry>)
    requires Sections(c, s, parts) && Fits(s) && multiset(rows) == multiset(Join(parts))
    ensures SortEntries(rows) == InKindOrder(parts)
  {
    hide Sections, InKindOrder, Join;
    assert |parts| == 8 by { PartsCount(c, s, parts); }
    SameBag(parts);
    InKindOrderStrict(c, s, parts);
    SortOrdered(rows);
    OrderedUnique(SortEntries(rows), InKindOrder(parts));
  }

  lemma PartsCount<R, V>(c: Codecs<R, V>, s: State<R, V>, parts: seq<seq<Entry>>)
    requires Sections(c, s, parts)
    ensures |parts| == 8
  {
  }

  // ---------------------------------------------------------------------------------------------
  // The state that comes back
  // ---------------------------------------------------------------------------------------------

  /** The state a checkpoint keeps: an emptied plan is no plan, and a zero count is none. */
  function Kept<R, V>(s: State<R, V>): State<R, V> {
    s.(todos := if TodosOf(s) == [] then None else s.todos, count := if s.count.tokens > 0 then s.count else NO_COUNT)
  }

  lemma GatherOneRow<R, V>(c: Codecs<R, V>, g: Gathered<R, V>, e: Entry)
    ensures Gather(c, g, [e]) == GatherOne(c, g, e)
  {
    assert [e][1..] == [];
  }

  lemma GatherPermissionsOn<R(!new), V(!new)>(c: Codecs<R, V>, s: State<R, V>, g: Gathered<R, V>, rows: seq<Entry>)
    requires AllFaithful(c) && g.permissions == map[] && MapRows(PERMISSION_ROW, c.permission, s.permissions, rows)
    ensures Gather(c, g, rows) == Some(g.(permissions := s.permissions))
  {
    hide Gather, Written;
    WrittenAll(PERMISSION_ROW, c.permission, s.permissions, rows);
    GatherPermissions(c, g, s.permissions, rows);
    assert g.permissions + s.permissions == s.permissions;
  }

  lemma GatherThen<R, V>(c: Codecs<R, V>, start: Gathered<R, V>, a: seq<Entry>, mid: Gathered<R, V>, b: seq<Entry>, end: Gathered<R, V>)
    requires Gather(c, start, a) == Some(mid) && Gather(c, mid, b) == Some(end)
    ensures Gather(c, start, a + b) == Some(end)
  {
    GatherAppend(c, start, a, b);
  }

  lemma GatherSections<R(!new), V(!new)>(c: Codecs<R, V>, s: State<R, V>, parts: seq<seq<Entry>>)
    requires AllFaithful(c) && Sections(c, s, parts)
    ensures Gather(c, NothingYet(), InKindOrder(parts)) ==
            Some(Gathered(VERSION, parts[2] + parts[1], TodosOf(s), s.document, s.permissions, s.rests, s.user))
  {
    hide Gather, ListRows, MapRows, Faithful;
    var g0: Gathered<R, V> := NothingYet();
    MessageKind(c, s);
    GatherWindow(c, g0, parts[2] + parts[1]);
    assert g0.window + (parts[2] + parts[1]) == parts[2] + parts[1];
    var g1 := g0.(window := parts[2] + parts[1]);
    var a := parts[2] + parts[1];
    GatherPermissionsOn(c, s, g1, parts[5]);
    var g2 := g1.(permissions := s.permissions);
    GatherThen(c, g0, a, g1, parts[5], g2);
    a := a + parts[5];
    var g3 := g2.(document := s.document);
    GatherDocument(c, g2, s.document, parts[4]);
    GatherThen(c, g0, a, g2, parts[4], g3);
    a := a + parts[4];
    var g4 := g3.(rests := s.rests);
    GatherRestsOn(c, s, g3, parts[6]);
    GatherThen(c, g0, a, g3, parts[6], g4);
    a := a + parts[6];
    var g5 := g4.(user := s.user);
    GatherUserOn(c, s, g4, parts[7]);
    GatherThen(c, g0, a, g4, parts[7], g5);
    a := a + parts[7];
    GatherTail(c, s, g0, a, g5, parts);
  }

  lemma GatherTail<R(!new), V(!new)>(c: Codecs<R, V>, s: State<R, V>, g0: Gathered<R, V>, a: seq<Entry>, g5: Gathered<R, V>, parts: seq<seq<Entry>>)
    requires AllFaithful(c) && Sections(c, s, parts) && g5.todos == [] && Gather(c, g0, a) == Some(g5)
    ensures Gather(c, g0, a + parts[3] + parts[0]) == Some(g5.(todos := TodosOf(s), version := VERSION))
  {
    hide Gather, ListRows, MapRows;
    GatherTodos(c, g5, TodosOf(s), 0);
    assert g5.todos + TodosOf(s) == TodosOf(s);
    var g6 := g5.(todos := TodosOf(s));
    GatherThen(c, g0, a, g5, parts[3], g6);
    GatherOneRow(c, g6, parts[0][0]);
    GatherThen(c, g0, a + parts[3], g6, parts[0], g6.(version := VERSION));
  }

  lemma GatherRestsOn<R(!new), V(!new)>(c: Codecs<R, V>, s: State<R, V>, g: Gathered<R, V>, rows: seq<Entry>)
    requires AllFaithful(c) && g.rests == map[] && MapRows(REST_ROW, c.rest, s.rests, rows)
    ensures Gather(c, g, rows) == Some(g.(rests := s.rests))
  {
    hide Gather, Written;
    WrittenAll(REST_ROW, c.rest, s.rests, rows);
    GatherRests(c, g, s.rests, rows);
    assert g.rests + s.rests == s.rests;
  }

  lemma GatherUserOn<R(!new), V(!new)>(c: Codecs<R, V>, s: State<R, V>, g: Gathered<R, V>, rows: seq<Entry>)
    requires AllFaithful(c) && g.user == map[] && MapRows(STATE_ROW, c.user, s.user, rows)
    ensures Gather(c, g, rows) == Some(g.(user := s.user))
  {
    hide Gather, Written;
    WrittenAll(STATE_ROW, c.user, s.user, rows);
    GatherUser(c, g, s.user, rows);
    assert g.user + s.user == s.user;
  }

  lemma GatherDocument<R, V>(c: Codecs<R, V>, g: Gathered<R, V>, document: string, rows: seq<Entry>)
    requires rows == (if document == "" then [] else OneRow(PLAN_ROW, document)) && g.document == ""
    ensures Gather(c, g, rows) == Some(g.(document := document))
  {
    if document != "" { GatherOneRow(c, g, rows[0]); } else { GatherNone(c, g, rows); }
  }

  lemma {:induction false} ListKind<T>(kind: string, j: Json<T>, xs: seq<T>, from: nat)
    ensures Kind(ListRows(kind, j, xs, from), kind)
    decreases |xs|
  {
    if xs != [] { ListKind(kind, j, xs[1..], from + 1); }
  }

  lemma MessageKind<R, V>(c: Codecs<R, V>, s: State<R, V>)
    ensures forall e :: e in CountRows(c.count, s.count) + ListRows(MESSAGE_ROW, c.message, s.msgs, 0) ==>
              e.row.kind == MESSAGE_ROW || e.row.kind == COUNT_ROW
  {
    hide ListRows;
    ListKind(MESSAGE_ROW, c.message, s.msgs, 0);
  }

  lemma {:induction false} WindowBack<R, V>(c: Codecs<R, V>, msgs: seq<Message>, done: seq<Message>, count: Count, from: nat)
    requires Faithful(c.message)
    ensures WindowOf(c, ListRows(MESSAGE_ROW, c.message, msgs, from), done, count) ==
            if ValidMessages(done + msgs) then Some((done + msgs, count)) else None
    decreases |msgs|
  {
    hide Position;
    if msgs == [] {
      assert done + msgs == done;
    } else {
      var rows := ListRows(MESSAGE_ROW, c.message, msgs, from);
      assert rows[1..] == ListRows(MESSAGE_ROW, c.message, msgs[1..], from + 1);
      WindowBack(c, msgs[1..], done + [msgs[0]], count, from + 1);
      assert done + [msgs[0]] + msgs[1..] == done + msgs;
    }
  }

  lemma WindowComesBack<R, V>(c: Codecs<R, V>, msgs: seq<Message>, count: Count)
    requires Faithful(c.message) && Faithful(c.count)
    ensures WindowOf(c, CountRows(c.count, count) + ListRows(MESSAGE_ROW, c.message, msgs, 0), [], NO_COUNT) ==
            if ValidMessages(msgs) then Some((msgs, if count.tokens > 0 then count else NO_COUNT)) else None
  {
    hide ListRows, ValidMessages;
    var rows := ListRows(MESSAGE_ROW, c.message, msgs, 0);
    WindowBack(c, msgs, [], if count.tokens > 0 then count else NO_COUNT, 0);
    assert [] + msgs == msgs;
    if count.tokens > 0 {
      assert (CountRows(c.count, count) + rows)[1..] == rows;
    } else {
      assert CountRows(c.count, count) + rows == rows;
    }
  }

  /** Main result: the rows of a checkpoint, in any order, restore the state they were taken of,
      but for an emptied plan; they fail to restore exactly when a message of the window is not
      valid. */
  lemma RestoreOfCheckpoint<R(!new), V(!new)>(c: Codecs<R, V>, s: State<R, V>, checkpoint: seq<Entry>, rows: seq<Entry>)
    requires AllFaithful(c) && IsCheckpoint(c, s, checkpoint) && Fits(s)
    requires multiset(rows) == multiset(checkpoint)
    ensures Restored(c, rows) == if ValidMessages(s.msgs) then Some(Kept(s)) else None
  {
    hide Gather, WindowOf, InKindOrder, ListRows, MapRows, ValidMessages, Join;
    var parts :| Sections(c, s, parts) && checkpoint == Join(parts);
    SortedRows(c, s, parts, rows);
    GatherSections(c, s, parts);
    WindowComesBack(c, s.msgs, s.count);
  }

  /** The state comes back unchanged if and only if exactly its tool messages have a call id, its plan has todos or was
      never made, and its count is of some tokens or is no count. */
  lemma RestoresExactly<R(!new), V(!new)>(c: Codecs<R, V>, s: State<R, V>, checkpoint: seq<Entry>, rows: seq<Entry>)
    requires AllFaithful(c) && IsCheckpoint(c, s, checkpoint) && Fits(s)
    requires multiset(rows) == multiset(checkpoint)
    ensures Restored(c, rows) == Some(s) <==>
            (forall m :: m in s.msgs ==> (m.role == Tool <==> m.toolCallId != "")) && s.todos != Some([]) &&
            (s.count.tokens > 0 || s.count == NO_COUNT)
  {
    hide Restored, IsCheckpoint;
    RestoreOfCheckpoint(c, s, checkpoint, rows);
  }

  /** End to end: rows a store gives back after a commit of the checkpoint restore its state. */
  lemma LoadRestores<R(!new), V(!new)>(c: Codecs<R, V>, s: State<R, V>, checkpoint: seq<Entry>, loaded: seq<Entry>)
    requires AllFaithful(c) && IsCheckpoint(c, s, checkpoint) && Fits(s)
    requires Distinct(loaded) && RowsOf(loaded) == RowsOf(checkpoint)
    ensures Restored(c, loaded) == if ValidMessages(s.msgs) then Some(Kept(s)) else None
  {
    hide Restored, Join, InKindOrder, Sections;
    var parts :| Sections(c, s, parts) && checkpoint == Join(parts);
    PartsCount(c, s, parts);
    SameBag(parts);
    InKindOrderStrict(c, s, parts);
    BagDistinct(checkpoint, InKindOrder(parts));
    SameRowsSameBag(loaded, checkpoint);
    RestoreOfCheckpoint(c, s, checkpoint, loaded);
  }
}
