/** A session's checkpoint as rows, and how one checkpoint is taken to the next by the rows that
    changed (session/checkpoint.go). */
module SessionRows {
  import opened Messages
  import opened Sequences

  // ---------------------------------------------------------------------------------------------
  // The order of rows
  // ---------------------------------------------------------------------------------------------

  /** The byte order of strings. */
  predicate Less(a: string, b: string) {
    b != "" && (a == "" || a[0] < b[0] || (a[0] == b[0] && Less(a[1..], b[1..])))
  }

  lemma {:induction false} LessTotal(a: string, b: string)
    ensures a == b || Less(a, b) || Less(b, a)
    ensures !(Less(a, b) && Less(b, a)) && !Less(a, a)
  {
    if a != "" && b != "" {
      LessTotal(a[1..], b[1..]);
      LessTotal(a[1..], a[1..]);
      if a[0] == b[0] && a[1..] == b[1..] { assert a == [a[0]] + a[1..] == b; }
    } else if a != "" {
      LessTotal(a[1..], a[1..]);
    }
  }

  lemma {:induction false} LessTransitive(a: string, b: string, c: string)
    requires Less(a, b) && Less(b, c)
    ensures Less(a, c)
  {
    if a != "" && a[0] == b[0] && b[0] == c[0] { LessTransitive(a[1..], b[1..], c[1..]); }
  }

  datatype Row = Row(kind: string, key: string)

  predicate RowLess(a: Row, b: Row) {
    Less(a.kind, b.kind) || (a.kind == b.kind && Less(a.key, b.key))
  }

  lemma RowTotal(a: Row, b: Row)
    ensures a == b || RowLess(a, b) || RowLess(b, a)
    ensures !(RowLess(a, b) && RowLess(b, a)) && !RowLess(a, a)
  {
    LessTotal(a.kind, b.kind);
    LessTotal(a.key, b.key);
  }

  lemma RowTransitive(a: Row, b: Row, c: Row)
    requires RowLess(a, b) && RowLess(b, c)
    ensures RowLess(a, c)
  {
    if Less(a.kind, b.kind) && Less(b.kind, c.kind) {
      LessTransitive(a.kind, b.kind, c.kind);
    } else if a.kind == b.kind == c.kind {
      LessTransitive(a.key, b.key, c.key);
    }
  }

  // ---------------------------------------------------------------------------------------------
  // Entries and sorting
  // ---------------------------------------------------------------------------------------------

  datatype Entry = Entry(row: Row, value: Bytes)

  /** Entries in row order, no row twice. */
  predicate Strict(es: seq<Entry>) {
    forall i, j :: 0 <= i < j < |es| ==> RowLess(es[i].row, es[j].row)
  }

  predicate Distinct(es: seq<Entry>) {
    forall i, j :: 0 <= i < j < |es| ==> es[i].row != es[j].row
  }

  function InsertEntry(e: Entry, es: seq<Entry>): (r: seq<Entry>)
    ensures multiset(r) == multiset(es) + multiset{e}
  {
    if es == [] || !RowLess(es[0].row, e.row) then [e] + es
    else
      assert es == [es[0]] + es[1..];
      [es[0]] + InsertEntry(e, es[1..])
  }

  function SortEntries(es: seq<Entry>): (r: seq<Entry>)
    ensures multiset(r) == multiset(es)
  {
    if es == [] then []
    else
      assert es == [es[0]] + es[1..];
      InsertEntry(es[0], SortEntries(es[1..]))
  }

  lemma InsertStep(e: Entry, es: seq<Entry>)
    ensures InsertEntry(e, es) ==
      if es == [] || !RowLess(es[0].row, e.row) then [e] + es else [es[0]] + InsertEntry(e, es[1..])
  {
  }

  lemma InsertMembers(e: Entry, es: seq<Entry>)
    ensures forall x :: x in InsertEntry(e, es) ==> x == e || x in es
  {
    hide *;
    forall x | x in InsertEntry(e, es) ensures x == e || x in es {
      assert x in multiset(InsertEntry(e, es));
    }
  }

  lemma HeadTail(es: seq<Entry>)
    requires es != []
    ensures forall x :: x in es <==> x == es[0] || x in es[1..]
  {
    assert es == [es[0]] + es[1..];
  }

  lemma StrictCons(e: Entry, es: seq<Entry>)
    requires Strict(es) && forall x :: x in es ==> RowLess(e.row, x.row)
    ensures Strict([e] + es)
  {
    hide RowLess;
  }

  lemma StrictTail(es: seq<Entry>)
    requires es != [] && Strict(es)
    ensures Strict(es[1..]) && forall x :: x in es[1..] ==> RowLess(es[0].row, x.row)
  {
    hide RowLess;
  }

  lemma {:induction false} InsertStrict(e: Entry, es: seq<Entry>)
    requires Strict(es) && forall x :: x in es ==> x.row != e.row
    ensures Strict(InsertEntry(e, es))
  {
    hide *;
    InsertStep(e, es);
    if es == [] {
      StrictCons(e, es);
    } else {
      var rest := InsertEntry(e, es[1..]);
      StrictTail(es);
      HeadTail(es);
      RowTotal(es[0].row, e.row);
      if RowLess(es[0].row, e.row) {
        InsertStrict(e, es[1..]);
        InsertMembers(e, es[1..]);
        StrictCons(es[0], rest);
      } else {
        forall x | x in es ensures RowLess(e.row, x.row) {
          if x in es[1..] { RowTransitive(e.row, es[0].row, x.row); }
        }
        StrictCons(e, es);
      }
    }
  }

  lemma {:induction false} SortStrict(es: seq<Entry>)
    requires Distinct(es)
    ensures Strict(SortEntries(es))
  {
    if es != [] {
      SortStrict(es[1..]);
      var rest := SortEntries(es[1..]);
      forall x | x in rest ensures x.row != es[0].row {
        assert x in multiset(rest) && x in multiset(es[1..]);
        var j :| 0 <= j < |es[1..]| && es[1..][j] == x;
        assert x == es[j + 1];
      }
      InsertStrict(es[0], rest);
    }
  }

  /** Entries in row order, a row perhaps more than once. */
  predicate Ordered(es: seq<Entry>) {
    forall i, j :: 0 <= i < j < |es| ==> !RowLess(es[j].row, es[i].row)
  }

  lemma OrderedCons(e: Entry, es: seq<Entry>)
    requires Ordered(es) && forall x :: x in es ==> !RowLess(x.row, e.row)
    ensures Ordered([e] + es)
  {
    hide RowLess;
  }

  lemma OrderedTail(es: seq<Entry>)
    requires es != [] && Ordered(es)
    ensures Ordered(es[1..]) && forall x :: x in es[1..] ==> !RowLess(x.row, es[0].row)
  {
    hide RowLess;
  }

  lemma {:induction false} InsertOrdered(e: Entry, es: seq<Entry>)
    requires Ordered(es)
    ensures Ordered(InsertEntry(e, es))
  {
    hide *;
    InsertStep(e, es);
    if es == [] {
      OrderedCons(e, es);
    } else {
      var rest := InsertEntry(e, es[1..]);
      OrderedTail(es);
      HeadTail(es);
      RowTotal(es[0].row, e.row);
      if RowLess(es[0].row, e.row) {
        InsertOrdered(e, es[1..]);
        InsertMembers(e, es[1..]);
        OrderedCons(es[0], rest);
      } else {
        forall x | x in es ensures !RowLess(x.row, e.row) {
          RowTotal(es[0].row, x.row);
          if RowLess(x.row, e.row) && es[0].row != x.row { RowTransitive(es[0].row, x.row, e.row); }
        }
        OrderedCons(e, es);
      }
    }
  }

  lemma {:induction false} SortOrdered(es: seq<Entry>)
    ensures Ordered(SortEntries(es))
  {
    if es != [] {
      SortOrdered(es[1..]);
      InsertOrdered(es[0], SortEntries(es[1..]));
    }
  }

  lemma SameHead(a: seq<Entry>, b: seq<Entry>)
    requires a != [] && b != [] && Ordered(a) && Strict(b) && a[0] in b && b[0] in a
    ensures a[0] == b[0]
  {
    var i :| 0 <= i < |b| && b[i] == a[0];
    var j :| 0 <= j < |a| && a[j] == b[0];
    RowTotal(a[0].row, b[0].row);
  }

  lemma TailBag(a: seq<Entry>)
    requires a != []
    ensures multiset(a[1..]) == multiset(a) - multiset{a[0]} && a == [a[0]] + a[1..]
  {
    assert a == [a[0]] + a[1..];
  }

  /** Row order leaves no choice when no row repeats. */
  lemma {:induction false} OrderedUnique(a: seq<Entry>, b: seq<Entry>)
    requires Ordered(a) && Strict(b) && multiset(a) == multiset(b)
    ensures a == b
  {
    hide RowLess;
    assert |a| == |multiset(a)| == |multiset(b)| == |b|;
    if a != [] {
      assert a[0] in multiset(b) && b[0] in multiset(a);
      SameHead(a, b);
      TailBag(a);
      TailBag(b);
      Tails(a, b);
      OrderedUnique(a[1..], b[1..]);
    }
  }

  lemma Tails(a: seq<Entry>, b: seq<Entry>)
    requires a != [] && b != [] && Ordered(a) && Strict(b)
    ensures Ordered(a[1..]) && Strict(b[1..])
  {
    hide RowLess;
  }

  // ---------------------------------------------------------------------------------------------
  // Rows as a map
  // ---------------------------------------------------------------------------------------------

  /** The rows of a checkpoint; the last entry of a row counts. */
  function RowsOf(es: seq<Entry>): map<Row, Bytes> {
    if es == [] then map[] else RowsOf(es[..|es| - 1])[es[|es| - 1].row := es[|es| - 1].value]
  }

  lemma {:induction false} RowsMembers(es: seq<Entry>, r: Row)
    ensures r in RowsOf(es) <==> exists e :: e in es && e.row == r
    ensures r in RowsOf(es) ==> Entry(r, RowsOf(es)[r]) in es
    decreases |es|
  {
    if es != [] {
      var init, last := es[..|es| - 1], es[|es| - 1];
      RowsMembers(init, r);
      assert es == init + [last];
    }
  }

  lemma DistinctRows(es: seq<Entry>, e: Entry)
    requires Distinct(es) && e in es
    ensures e.row in RowsOf(es) && RowsOf(es)[e.row] == e.value
  {
    RowsMembers(es, e.row);
    var x := Entry(e.row, RowsOf(es)[e.row]);
    var i :| 0 <= i < |es| && es[i] == e;
    var j :| 0 <= j < |es| && es[j] == x;
    assert i == j;
  }

  lemma {:induction false} DistinctOnce(es: seq<Entry>, e: Entry)
    requires Distinct(es)
    ensures multiset(es)[e] == if e in es then 1 else 0
  {
    if es != [] {
      assert es == [es[0]] + es[1..];
      DistinctOnce(es[1..], e);
      forall x | x in es[1..] ensures x.row != es[0].row {
        var j :| 0 <= j < |es[1..]| && es[1..][j] == x;
        assert x == es[j + 1];
      }
    }
  }

  /** A list of rows without repetition is its map, in some order. */
  lemma SameRowsSameBag(a: seq<Entry>, b: seq<Entry>)
    requires Distinct(a) && Distinct(b) && RowsOf(a) == RowsOf(b)
    ensures multiset(a) == multiset(b)
  {
    forall e ensures multiset(a)[e] == multiset(b)[e] {
      DistinctOnce(a, e);
      DistinctOnce(b, e);
      if e in a { DistinctRows(a, e); RowsMembers(b, e.row); }
      if e in b { DistinctRows(b, e); RowsMembers(a, e.row); }
    }
  }

  lemma {:induction false} BagDistinct(a: seq<Entry>, b: seq<Entry>)
    requires Strict(b) && multiset(a) == multiset(b)
    ensures Distinct(a)
  {
    forall i, j | 0 <= i < j < |a| ensures a[i].row != a[j].row {
      if a[i].row == a[j].row {
        assert a[i] in multiset(b) && a[j] in multiset(b);
        var x :| 0 <= x < |b| && b[x] == a[i];
        var y :| 0 <= y < |b| && b[y] == a[j];
        RowTotal(a[i].row, a[j].row);
        assert x == y;
        assert a == a[..j] + a[j..] && a[i] in a[..j] && a[i] in a[j..];
        assert multiset(a)[a[i]] == multiset(a[..j])[a[i]] + multiset(a[j..])[a[i]] >= 2;
        StrictDistinct(b);
        DistinctOnce(b, a[i]);
      }
    }
  }

  lemma StrictDistinct(b: seq<Entry>)
    requires Strict(b)
    ensures Distinct(b)
  {
    forall i, j | 0 <= i < j < |b| ensures b[i].row != b[j].row { RowTotal(b[i].row, b[j].row); }
  }

  // ---------------------------------------------------------------------------------------------
  // Digests and differences
  // ---------------------------------------------------------------------------------------------

  datatype Change = Put(entry: Entry) | Remove(row: Row)

  ghost predicate Injective<D(!new)>(hash: Bytes -> D) {
    forall a: Bytes, b: Bytes :: hash(a) == hash(b) ==> a == b
  }

  function Digest<D>(hash: Bytes -> D, rows: map<Row, Bytes>): map<Row, D> {
    map r | r in rows :: hash(rows[r])
  }

  /** The puts of the entries from i on whose row is new or has another digest. */
  function Puts<D(==)>(prev: map<Row, D>, digest: map<Row, D>, next: seq<Entry>): seq<Change>
    requires forall e :: e in next ==> e.row in digest
  {
    if next == [] then []
    else
      (if next[0].row !in prev || prev[next[0].row] != digest[next[0].row] then [Put(next[0])] else [])
      + Puts(prev, digest, next[1..])
  }

  /** The removals of the rows gone, in row order, each once. */
  predicate Removals(cs: seq<Change>, gone: set<Row>) {
    (forall c :: c in cs ==> c.Remove? && c.row in gone) &&
    (forall r :: r in gone ==> Remove(r) in cs) &&
    forall i, j :: 0 <= i < j < |cs| ==> cs[i].Remove? && cs[j].Remove? && RowLess(cs[i].row, cs[j].row)
  }

  method DigestOf<D>(hash: Bytes -> D, entries: seq<Entry>) returns (d: map<Row, D>)
    ensures d == Digest(hash, RowsOf(entries))
  {
    d := map[];
    for i := 0 to |entries|
      invariant d == Digest(hash, RowsOf(entries[..i]))
    {
      assert entries[..i + 1][..i] == entries[..i];
      d := d[entries[i].row := hash(entries[i].value)];
    }
    assert entries[..|entries|] == entries;
  }

  /** The keys of a map, in row order. */
  method SortedKeys(keys: set<Row>) returns (s: seq<Entry>)
    ensures Strict(s) && (forall r :: r in keys <==> Entry(r, "") in s) && forall e :: e in s ==> e.value == ""
  {
    var left, es: seq<Entry> := keys, [];
    while left != {}
      invariant left <= keys && Distinct(es)
      invariant forall e :: e in es ==> e.value == "" && e.row in keys - left
      invariant forall r :: r in keys - left ==> Entry(r, "") in es
      decreases |left|
    {
      var r: Row :| r in left;
      left := left - {r};
      es := es + [Entry(r, "")];
    }
    s := SortEntries(es);
    SortStrict(es);
    forall e ensures e in s <==> e in es {
      assert e in s <==> e in multiset(s);
      assert e in es <==> e in multiset(es);
    }
  }

  method Diff<D(==)>(hash: Bytes -> D, prev: map<Row, D>, next: seq<Entry>)
    returns (changes: seq<Change>, digest: map<Row, D>)
    ensures digest == Digest(hash, RowsOf(next))
    ensures IsDiff(prev, digest, next, changes)
  {
    digest := DigestOf(hash, next);
    forall e | e in next ensures e.row in digest { RowsMembers(next, e.row); }
    changes := PutChanged(prev, digest, next);
    var removals := RemoveGone(prev.Keys, digest.Keys);
    changes := changes + removals;
  }

  /** The puts that begin a diff: of each row that is new or changed, in next's order. */
  method PutChanged<D(==)>(prev: map<Row, D>, digest: map<Row, D>, next: seq<Entry>) returns (changes: seq<Change>)
    requires forall e :: e in next ==> e.row in digest
    ensures changes == Puts(prev, digest, next)
  {
    hide Puts;
    changes := [];
    assert next[0..] == next;
    for i := 0 to |next|
      invariant Puts(prev, digest, next) == changes + Puts(prev, digest, next[i..])
    {
      var e := next[i];
      PutsStep(prev, digest, next, i);
      Assoc(changes, if Differs(prev, digest, e.row) then [Put(e)] else [], Puts(prev, digest, next[i + 1..]));
      Empty(changes);
      if e.row !in prev || prev[e.row] != digest[e.row] {
        changes := changes + [Put(e)];
      }
    }
    PutsNone(prev, digest, next);
    Empty(changes);
  }

  predicate Differs<D(==)>(prev: map<Row, D>, digest: map<Row, D>, r: Row)
    requires r in digest
  {
    r !in prev || prev[r] != digest[r]
  }

  lemma PutsStep<D>(prev: map<Row, D>, digest: map<Row, D>, next: seq<Entry>, i: nat)
    requires i < |next| && forall e :: e in next ==> e.row in digest
    ensures Puts(prev, digest, next[i..]) ==
            (if Differs(prev, digest, next[i].row) then [Put(next[i])] else []) + Puts(prev, digest, next[i + 1..])
  {
    Suffix(next, i);
  }

  lemma PutsNone<D>(prev: map<Row, D>, digest: map<Row, D>, next: seq<Entry>)
    ensures Puts(prev, digest, next[|next|..]) == []
  {
  }

  /** The deletes that end a diff: of each row of prev that digest does not have. */
  method RemoveGone(prev: set<Row>, digest: set<Row>) returns (cs: seq<Change>)
    ensures Removals(cs, prev - digest)
  {
    var gone := SortedKeys(prev);
    cs := [];
    for i := 0 to |gone|
      invariant forall c :: c in cs ==> c.Remove? && c.row !in digest && c.row in prev
      invariant forall k :: 0 <= k < i && gone[k].row !in digest ==> Remove(gone[k].row) in cs
      invariant forall j, k :: 0 <= j < |cs| && i <= k < |gone| ==> cs[j].Remove? && RowLess(cs[j].row, gone[k].row)
      invariant forall j, k :: 0 <= j < k < |cs| ==> cs[j].Remove? && cs[k].Remove? && RowLess(cs[j].row, cs[k].row)
    {
      assert gone[i] in gone && gone[i] == Entry(gone[i].row, "");
      if gone[i].row !in digest {
        cs := cs + [Remove(gone[i].row)];
      }
    }
    forall r | r in prev - digest ensures Remove(r) in cs {
      assert Entry(r, "") in gone;
    }
  }

  ghost predicate IsDiff<D>(prev: map<Row, D>, digest: map<Row, D>, next: seq<Entry>, changes: seq<Change>) {
    (forall e :: e in next ==> e.row in digest) &&
    exists removals: seq<Change> ::
      Removals(removals, prev.Keys - digest.Keys) && changes == Puts(prev, digest, next) + removals
  }

  // ---------------------------------------------------------------------------------------------
  // What a diff does
  // ---------------------------------------------------------------------------------------------

  function ApplyOne(rows: map<Row, Bytes>, c: Change): map<Row, Bytes> {
    match c
    case Put(e) => rows[e.row := e.value]
    case Remove(r) => rows - {r}
  }

  function ApplyAll(rows: map<Row, Bytes>, cs: seq<Change>): map<Row, Bytes>
    decreases |cs|
  {
    if cs == [] then rows else ApplyAll(ApplyOne(rows, cs[0]), cs[1..])
  }

  lemma {:induction false} ApplyAppend(rows: map<Row, Bytes>, a: seq<Change>, b: seq<Change>)
    ensures ApplyAll(rows, a + b) == ApplyAll(ApplyAll(rows, a), b)
    decreases |a|
  {
    if a == [] {
      Empty(b);
    } else {
      Uncons(a, b);
      ApplyAppend(ApplyOne(rows, a[0]), a[1..], b);
    }
  }

  lemma {:induction false} ApplyRemovals(rows: map<Row, Bytes>, cs: seq<Change>)
    requires forall c :: c in cs ==> c.Remove?
    ensures ApplyAll(rows, cs) == rows - set c | c in cs :: c.row
    decreases |cs|
  {
    if cs != [] {
      assert cs[0] in cs;
      assert forall c :: c in cs <==> c == cs[0] || c in cs[1..];
      ApplyRemovals(ApplyOne(rows, cs[0]), cs[1..]);
    }
  }

  /** The last put of a row is of its last entry; a row without a put is as it was. */
  lemma {:induction false} ApplyPuts<D>(rows: map<Row, Bytes>, prev: map<Row, D>, digest: map<Row, D>, next: seq<Entry>, r: Row)
    requires forall e :: e in next ==> e.row in digest
    ensures var out := ApplyAll(rows, Puts(prev, digest, next));
      if r in RowsOf(next) && r in digest && (r !in prev || prev[r] != digest[r]) then r in out && out[r] == RowsOf(next)[r]
      else (r in out <==> r in rows) && (r in rows ==> out[r] == rows[r])
    decreases |next|
  {
    if next != [] {
      var init, last := next[..|next| - 1], next[|next| - 1];
      assert next == init + [last];
      ApplyPuts(rows, prev, digest, init, r);
      PutsLast(prev, digest, init, last);
      var one := if last.row !in prev || prev[last.row] != digest[last.row] then [Put(last)] else [];
      ApplyAppend(rows, Puts(prev, digest, init), one);
      ApplyFew(ApplyAll(rows, Puts(prev, digest, init)), last);
    }
  }

  lemma ApplyFew(rows: map<Row, Bytes>, e: Entry)
    ensures ApplyAll(rows, [Put(e)]) == rows[e.row := e.value] && ApplyAll(rows, []) == rows
  {
    assert [Put(e)][1..] == [];
  }

  lemma {:induction false} PutsLast<D>(prev: map<Row, D>, digest: map<Row, D>, init: seq<Entry>, last: Entry)
    requires forall e :: e in init + [last] ==> e.row in digest
    ensures Puts(prev, digest, init + [last]) == Puts(prev, digest, init) +
      if last.row !in prev || prev[last.row] != digest[last.row] then [Put(last)] else []
  {
    hide Puts;
    PutsNone(prev, digest, init);
    PutsStep(prev, digest, init + [last], 0);
    assert (init + [last])[0..] == init + [last];
    if init == [] {
      PutsNone(prev, digest, init + [last]);
      assert init + [last] == [last] && init[|init|..] == init;
      Empty(if Differs(prev, digest, last.row) then [Put(last)] else []);
    } else {
      Uncons(init, [last]);
      assert forall e :: e in init[1..] + [last] ==> e in init + [last];
      PutsStep(prev, digest, init, 0);
      assert init[0..] == init;
      PutsLast(prev, digest, init[1..], last);
      Assoc(if Differs(prev, digest, init[0].row) then [Put(init[0])] else [], Puts(prev, digest, init[1..]),
            if Differs(prev, digest, last.row) then [Put(last)] else []);
    }
  }

  /** Main result: applied to the rows the digest was taken of, a diff gives exactly next's rows.
      Neither list need be free of repeated rows. */
  lemma DiffApplies<D(!new)>(hash: Bytes -> D, prev: map<Row, Bytes>, next: seq<Entry>, changes: seq<Change>)
    requires Injective(hash)
    requires IsDiff(Digest(hash, prev), Digest(hash, RowsOf(next)), next, changes)
    ensures ApplyAll(prev, changes) == RowsOf(next)
  {
    hide ApplyAll, Puts, RowsOf, Digest, Removals, Injective, SameAt;
    var dp, dn := Digest(hash, prev), Digest(hash, RowsOf(next));
    var removals: seq<Change> :| Removals(removals, dp.Keys - dn.Keys) && changes == Puts(dp, dn, next) + removals;
    var mid := ApplyAll(prev, Puts(dp, dn, next));
    ApplyAppend(prev, Puts(dp, dn, next), removals);
    RemovalsRemove(mid, removals, dp.Keys - dn.Keys);
    forall r ensures SameAt(mid - (dp.Keys - dn.Keys), RowsOf(next), r) {
      DiffRow(hash, prev, next, r);
    }
    SameMaps(mid - (dp.Keys - dn.Keys), RowsOf(next));
  }

  predicate SameAt(a: map<Row, Bytes>, b: map<Row, Bytes>, r: Row) {
    (r in a <==> r in b) && (r in a ==> a[r] == b[r])
  }

  lemma RemovalsRemove(rows: map<Row, Bytes>, cs: seq<Change>, gone: set<Row>)
    requires Removals(cs, gone)
    ensures ApplyAll(rows, cs) == rows - gone
  {
    hide ApplyAll;
    ApplyRemovals(rows, cs);
    assert (set c | c in cs :: c.row) == gone;
  }

  lemma DiffRow<D(!new)>(hash: Bytes -> D, prev: map<Row, Bytes>, next: seq<Entry>, r: Row)
    requires Injective(hash) && forall e :: e in next ==> e.row in Digest(hash, RowsOf(next))
    ensures var dp, dn := Digest(hash, prev), Digest(hash, RowsOf(next));
      SameAt(ApplyAll(prev, Puts(dp, dn, next)) - (dp.Keys - dn.Keys), RowsOf(next), r)
  {
    hide ApplyAll, Puts, RowsOf;
    ApplyPuts(prev, Digest(hash, prev), Digest(hash, RowsOf(next)), next, r);
  }

  ghost predicate Writes(cs: seq<Change>, r: Row) {
    exists c :: c in cs && RowOf(c) == r
  }

  /** What changes write does not depend on what they are applied to; the rest stays. */
  lemma {:induction false} ApplyAt(a: map<Row, Bytes>, b: map<Row, Bytes>, cs: seq<Change>, r: Row)
    ensures if Writes(cs, r) then SameAt(ApplyAll(a, cs), ApplyAll(b, cs), r)
            else SameAt(ApplyAll(a, cs), a, r) && SameAt(ApplyAll(b, cs), b, r)
    decreases |cs|
  {
    if cs != [] {
      assert cs[0] in cs && forall c :: c in cs <==> c == cs[0] || c in cs[1..];
      assert Writes(cs, r) <==> RowOf(cs[0]) == r || Writes(cs[1..], r);
      ApplyAt(ApplyOne(a, cs[0]), ApplyOne(b, cs[0]), cs[1..], r);
    }
  }

  /** The rows agree outside what the changes write. */
  ghost predicate Agree(a: map<Row, Bytes>, b: map<Row, Bytes>, cs: seq<Change>) {
    forall r :: !Writes(cs, r) ==> SameAt(a, b, r)
  }

  /** Applied to other rows than those its digest was taken of, a diff gives next's rows if and only
      if the two agree on every row it does not write. */
  lemma DiffAppliesTo(prev: map<Row, Bytes>, now: map<Row, Bytes>, next: seq<Entry>, changes: seq<Change>)
    requires ApplyAll(prev, changes) == RowsOf(next)
    ensures ApplyAll(now, changes) == RowsOf(next) <==> Agree(now, prev, changes)
  {
    hide ApplyAll, RowsOf, Writes;
    forall r
      ensures if Writes(changes, r) then SameAt(ApplyAll(now, changes), RowsOf(next), r)
              else SameAt(ApplyAll(now, changes), now, r) && SameAt(RowsOf(next), prev, r)
    {
      ApplyAt(now, prev, changes, r);
    }
    SameMaps(ApplyAll(now, changes), RowsOf(next));
  }

  lemma SameMaps(a: map<Row, Bytes>, b: map<Row, Bytes>)
    ensures a == b <==> forall r :: SameAt(a, b, r)
  {
    if forall r :: SameAt(a, b, r) {
      forall r ensures r in a <==> r in b { assert SameAt(a, b, r); }
      forall r | r in a ensures a[r] == b[r] { assert SameAt(a, b, r); }
      assert a == b;
    }
  }

  /** The rows two checkpoints do not share. */
  ghost function Differing(a: map<Row, Bytes>, b: map<Row, Bytes>): set<Row> {
    set r | r in a.Keys + b.Keys && !(r in a && r in b && a[r] == b[r])
  }

  function RowOf(c: Change): Row {
    if c.Put? then c.entry.row else c.row
  }

  lemma {:induction false} PutsOnce<D>(prev: map<Row, D>, digest: map<Row, D>, next: seq<Entry>)
    requires Distinct(next) && forall e :: e in next ==> e.row in digest
    ensures forall c :: c in Puts(prev, digest, next) <==>
      c.Put? && c.entry in next && (c.entry.row !in prev || prev[c.entry.row] != digest[c.entry.row])
    ensures forall i, j :: 0 <= i < j < |Puts(prev, digest, next)| ==>
      RowOf(Puts(prev, digest, next)[i]) != RowOf(Puts(prev, digest, next)[j])
  {
    if next != [] {
      var e, cs := next[0], Puts(prev, digest, next);
      PutsOnce(prev, digest, next[1..]);
      assert forall x :: x in next <==> x == e || x in next[1..];
      if e.row !in prev || prev[e.row] != digest[e.row] {
        forall j | 0 < j < |cs| ensures RowOf(cs[j]) != e.row {
          assert cs[j] == Puts(prev, digest, next[1..])[j - 1];
          assert cs[j].entry in next[1..];
        }
      }
    }
  }

  /** A commit writes only what it changed: one change for each row that differs, and no other. */
  lemma DiffIsMinimal<D(!new)>(hash: Bytes -> D, prev: map<Row, Bytes>, next: seq<Entry>, changes: seq<Change>)
    requires Injective(hash) && Distinct(next)
    requires IsDiff(Digest(hash, prev), Digest(hash, RowsOf(next)), next, changes)
    ensures forall i, j :: 0 <= i < j < |changes| ==> RowOf(changes[i]) != RowOf(changes[j])
    ensures forall r :: r in Differing(prev, RowsOf(next)) <==> exists c :: c in changes && RowOf(c) == r
  {
    var rows := RowsOf(next);
    var dp, dn := Digest(hash, prev), Digest(hash, rows);
    var puts := Puts(dp, dn, next);
    var removals: seq<Change> :| Removals(removals, dp.Keys - dn.Keys) && changes == puts + removals;
    PutsOnce(dp, dn, next);
    forall i, j | 0 <= i < j < |changes| ensures RowOf(changes[i]) != RowOf(changes[j]) {
      if i < |puts| <= j {
        assert changes[i] in puts && changes[j] in removals;
      } else if |puts| <= i {
        RowTotal(changes[i].row, changes[j].row);
        assert RowLess(removals[i - |puts|].row, removals[j - |puts|].row);
      }
    }
    forall r ensures r in Differing(prev, rows) <==> exists c :: c in changes && RowOf(c) == r {
      RowsMembers(next, r);
      if r in Differing(prev, rows) {
        if r in rows {
          var c := Put(Entry(r, rows[r]));
          assert c in puts;
          assert c in changes && RowOf(c) == r;
        } else {
          assert Remove(r) in removals;
          assert Remove(r) in changes && RowOf(Remove(r)) == r;
        }
      }
      forall c | c in changes && RowOf(c) == r ensures r in Differing(prev, rows) {
        if c in puts {
          DistinctRows(next, c.entry);
        } else {
          assert c in removals;
        }
      }
    }
  }
}
