/** A session's committed state as checkpoint rows, and back (checkpoint.go; window.go, rows and
    restore; validate.go). */
module Checkpoint {
  import opened Messages
  import opened ContextWindow
  import opened SessionRows
  import opened Positions
  import opened Plan

  /** A JSON encoding. */
  datatype Json<!T> = Json(enc: T -> Bytes, dec: Bytes -> Option<T>)

  ghost predicate Faithful<T(!new)>(j: Json<T>) {
    forall x: T :: j.dec(j.enc(x)) == Some(x)
  }

  /** The encodings of the row values. A user-state value may fail to encode; `fits` says it does
      not. The version is written by strconv. */
  datatype Codecs<!R, !V> = Codecs(message: Json<Message>, count: Json<Count>, todo: Json<Todo>,
                                   permission: Json<int>, rest: Json<R>, user: Json<V>, fits: V -> bool,
                                   version: Json<int>)

  ghost predicate AllFaithful<R(!new), V(!new)>(c: Codecs<R, V>) {
    Faithful(c.message) && Faithful(c.count) && Faithful(c.todo) && Faithful(c.permission) && Faithful(c.rest) &&
    Faithful(c.user) && Faithful(c.version)
  }

  /** The committed state. No todos at all is no plan, which an emptied plan is not. */
  datatype State<R, V> = State(msgs: seq<Message>, count: Count, todos: Option<seq<Todo>>, document: string,
                               permissions: map<string, int>, rests: map<string, R>, user: map<string, V>)

  const VERSION := 7

  const VERSION_ROW := "version"
  const MESSAGE_ROW := "message"
  const COUNT_ROW := "count"
  const TODO_ROW := "todo"
  const PLAN_ROW := "plan"
  const STATE_ROW := "state"
  const PERMISSION_ROW := "permission"
  const REST_ROW := "rest"

  /** The kinds in the order a checkpoint writes them. */
  const KINDS: seq<string> :=
    [VERSION_ROW, MESSAGE_ROW, COUNT_ROW, TODO_ROW, PLAN_ROW, PERMISSION_ROW, REST_ROW, STATE_ROW]

  // ---------------------------------------------------------------------------------------------
  // Rows
  // ---------------------------------------------------------------------------------------------

  /** The rows of an ordered kind, the first of them at position `from`. */
  function ListRows<T>(kind: string, j: Json<T>, xs: seq<T>, from: nat): (rows: seq<Entry>)
    decreases |xs|
  {
    if xs == [] then [] else [Entry(Row(kind, Position(from)), j.enc(xs[0]))] + ListRows(kind, j, xs[1..], from + 1)
  }

  function OneRow(kind: string, value: Bytes): seq<Entry> {
    [Entry(Row(kind, ""), value)]
  }

  /** The rows of a map, in key order. */
  ghost predicate MapRows<T>(kind: string, j: Json<T>, m: map<string, T>, rows: seq<Entry>) {
    Strict(rows) &&
    (forall e :: e in rows ==> e.row.kind == kind && e.row.key in m && e.value == j.enc(m[e.row.key])) &&
    forall k :: k in m ==> Entry(Row(kind, k), j.enc(m[k])) in rows
  }

  method SortedMap<T>(kind: string, j: Json<T>, m: map<string, T>) returns (rows: seq<Entry>)
    ensures MapRows(kind, j, m, rows)
  {
    var keys := SortedKeys(set k | k in m :: Row(kind, k));
    rows := [];
    for i := 0 to |keys|
      invariant |rows| == i && forall x :: 0 <= x < i ==>
        rows[x].row == keys[x].row && keys[x].row.kind == kind && keys[x].row.key in m &&
        rows[x].value == j.enc(m[keys[x].row.key])
    {
      assert keys[i] in keys && keys[i] == Entry(keys[i].row, "");
      rows := rows + [Entry(keys[i].row, j.enc(m[keys[i].row.key]))];
    }
    forall k | k in m ensures Entry(Row(kind, k), j.enc(m[k])) in rows {
      var x :| 0 <= x < |keys| && keys[x] == Entry(Row(kind, k), "");
      assert rows[x] == Entry(Row(kind, k), j.enc(m[k]));
    }
  }

  method WindowRows(j: Json<Message>, jc: Json<Count>, msgs: seq<Message>, count: Count) returns (rows: seq<Entry>)
    ensures rows == ListRows(MESSAGE_ROW, j, msgs, 0) + CountRows(jc, count)
  {
    hide Position;
    rows := [];
    for i := 0 to |msgs|
      invariant ListRows(MESSAGE_ROW, j, msgs, 0) == rows + ListRows(MESSAGE_ROW, j, msgs[i..], i)
    {
      assert msgs[i..][1..] == msgs[i + 1..];
      rows := rows + [Entry(Row(MESSAGE_ROW, Position(i)), j.enc(msgs[i]))];
    }
    if count.tokens > 0 {
      rows := rows + [Entry(Row(COUNT_ROW, ""), jc.enc(count))];
    }
  }

  function CountRows(j: Json<Count>, count: Count): seq<Entry> {
    if count.tokens > 0 then OneRow(COUNT_ROW, j.enc(count)) else []
  }

  function TodosOf<R, V>(s: State<R, V>): seq<Todo> {
    if s.todos.Some? then s.todos.value else []
  }

  /** The rows of each kind, in the order of KINDS. */
  ghost predicate Sections<R, V>(c: Codecs<R, V>, s: State<R, V>, parts: seq<seq<Entry>>) {
    |parts| == |KINDS| &&
    parts[0] == OneRow(VERSION_ROW, c.version.enc(VERSION)) &&
    parts[1] == ListRows(MESSAGE_ROW, c.message, s.msgs, 0) &&
    parts[2] == CountRows(c.count, s.count) &&
    parts[3] == ListRows(TODO_ROW, c.todo, TodosOf(s), 0) &&
    parts[4] == (if s.document == "" then [] else OneRow(PLAN_ROW, s.document)) &&
    MapRows(PERMISSION_ROW, c.permission, s.permissions, parts[5]) &&
    MapRows(REST_ROW, c.rest, s.rests, parts[6]) &&
    MapRows(STATE_ROW, c.user, s.user, parts[7])
  }

  function Join(parts: seq<seq<Entry>>): seq<Entry> {
    if parts == [] then [] else parts[0] + Join(parts[1..])
  }

  ghost predicate IsCheckpoint<R, V>(c: Codecs<R, V>, s: State<R, V>, rows: seq<Entry>) {
    exists parts :: Sections(c, s, parts) && rows == Join(parts)
  }

  predicate Encodable<R, V>(c: Codecs<R, V>, s: State<R, V>) {
    forall k :: k in s.user ==> c.fits(s.user[k])
  }

  method TodoRows(j: Json<Todo>, todos: seq<Todo>) returns (rows: seq<Entry>)
    ensures rows == ListRows(TODO_ROW, j, todos, 0)
  {
    hide Position;
    rows := [];
    for i := 0 to |todos|
      invariant ListRows(TODO_ROW, j, todos, 0) == rows + ListRows(TODO_ROW, j, todos[i..], i)
    {
      assert todos[i..][1..] == todos[i + 1..];
      rows := rows + [Entry(Row(TODO_ROW, Position(i)), j.enc(todos[i]))];
    }
  }

  lemma JoinEight(a: seq<Entry>, b: seq<Entry>, c: seq<Entry>, d: seq<Entry>, e: seq<Entry>, f: seq<Entry>, g: seq<Entry>, h: seq<Entry>)
    ensures Join([a, b, c, d, e, f, g, h]) == a + (b + c) + d + e + f + g + h
  {
    assert Join([h]) == h by { assert [h][1..] == []; }
    assert Join([g, h]) == g + h by { assert [g, h][1..] == [h]; }
    assert Join([f, g, h]) == f + g + h by { assert [f, g, h][1..] == [g, h]; }
    assert Join([e, f, g, h]) == e + f + g + h by { assert [e, f, g, h][1..] == [f, g, h]; }
    assert Join([d, e, f, g, h]) == d + e + f + g + h by { assert [d, e, f, g, h][1..] == [e, f, g, h]; }
    assert Join([c, d, e, f, g, h]) == c + d + e + f + g + h by { assert [c, d, e, f, g, h][1..] == [d, e, f, g, h]; }
    assert Join([b, c, d, e, f, g, h]) == b + c + d + e + f + g + h by { assert [b, c, d, e, f, g, h][1..] == [c, d, e, f, g, h]; }
    assert [a, b, c, d, e, f, g, h][1..] == [b, c, d, e, f, g, h];
  }

  /** None when a user-state value does not encode. */
  method Checkpoint<R, V>(c: Codecs<R, V>, s: State<R, V>) returns (r: Option<seq<Entry>>)
    ensures r.Some? <==> Encodable(c, s)
    ensures r.Some? ==> IsCheckpoint(c, s, r.value)
  {
    hide ListRows, MapRows, CountRows, TodosOf, IsCheckpoint;
    var rows := [Entry(Row(VERSION_ROW, ""), c.version.enc(VERSION))];
    ghost var version := rows;
    var window := WindowRows(c.message, c.count, s.msgs, s.count);
    var todos := TodoRows(c.todo, TodosOf(s));
    rows := rows + window + todos;
    ghost var document := if s.document == "" then [] else OneRow(PLAN_ROW, s.document);
    if s.document != "" {
      rows := rows + [Entry(Row(PLAN_ROW, ""), s.document)];
    }
    var permissions := SortedMap(PERMISSION_ROW, c.permission, s.permissions);
    var rests := SortedMap(REST_ROW, c.rest, s.rests);
    if exists k :: k in s.user && !c.fits(s.user[k]) {
      return None;
    }
    var user := SortedMap(STATE_ROW, c.user, s.user);
    rows := rows + permissions + rests + user;
    r := Some(rows);
    RowsOfParts(c, s, window, todos, document, permissions, rests, user);
    assert rows == version + window + todos + document + permissions + rests + user;
  }

  lemma RowsOfParts<R, V>(c: Codecs<R, V>, s: State<R, V>, window: seq<Entry>, todos: seq<Entry>, document: seq<Entry>,
                          permissions: seq<Entry>, rests: seq<Entry>, user: seq<Entry>)
    requires window == ListRows(MESSAGE_ROW, c.message, s.msgs, 0) + CountRows(c.count, s.count)
    requires todos == ListRows(TODO_ROW, c.todo, TodosOf(s), 0)
    requires document == if s.document == "" then [] else OneRow(PLAN_ROW, s.document)
    requires MapRows(PERMISSION_ROW, c.permission, s.permissions, permissions)
    requires MapRows(REST_ROW, c.rest, s.rests, rests)
    requires MapRows(STATE_ROW, c.user, s.user, user)
    ensures IsCheckpoint(c, s, OneRow(VERSION_ROW, c.version.enc(VERSION)) + window + todos + document + permissions + rests + user)
  {
    hide ListRows, MapRows, CountRows, TodosOf, Join;
    var version := OneRow(VERSION_ROW, c.version.enc(VERSION));
    var messages, count := ListRows(MESSAGE_ROW, c.message, s.msgs, 0), CountRows(c.count, s.count);
    var parts := [version, messages, count, todos, document, permissions, rests, user];
    JoinEight(version, messages, count, todos, document, permissions, rests, user);
    assert Sections(c, s, parts);
  }
}
