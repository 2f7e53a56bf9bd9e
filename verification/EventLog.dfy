/** A session's event log and its tails (session/eventlog.go). Events are numbered from 1; a trimmed
    log keeps the numbers. */
module EventLog {
  import opened Messages

  /** A retry entry is kept but never sent. */
  datatype Entry = Entry(retry: bool, data: Bytes)

  function Clamp(n: int, hi: nat): nat {
    var m := if n < 0 then 0 else n;
    if m < hi then m else hi
  }

  class SessionLog {
    /** entries[0] is event base + 1. */
    var entries: seq<Entry>
    var base: nat
    var closed: bool
    /** How often the log changed: a tail waits until it does. */
    var changes: nat
    ghost var all: seq<Entry>

    ghost predicate Valid()
      reads this
    {
      base <= |all| && (!closed ==> entries == all[base..])
    }

    constructor ()
      ensures Valid() && all == [] && base == 0 && !closed
    {
      entries, base, closed, changes := [], 0, false, 0;
      all := [];
    }

    /** The k-th append is event k. */
    method Append(e: Entry)
      requires Valid() && !closed
      modifies this
      ensures Valid() && all == old(all) + [e] && base == old(base) && changes == old(changes) + 1 && !closed
    {
      entries := entries + [e];
      changes := changes + 1;
      all := all + [e];
    }

    method Head() returns (n: nat)
      requires Valid() && !closed
      ensures n == |all|
    {
      n := base + |entries|;
    }

    /** Drops the events up to `through`; the head stays where it is. */
    method Trim(through: nat)
      requires Valid() && !closed
      modifies this
      ensures Valid() && all == old(all) && changes == old(changes) && !closed
      ensures base == TrimTo(old(base), |all|, through)
    {
      var n := Clamp(through - base, |entries|);
      entries := entries[n..];
      base := base + n;
    }

    /** What a tail reads under the lock: the entries it has not read, and the change to wait for. */
    method Read(next: nat) returns (unread: seq<Entry>, now: nat, seen: nat)
      requires Valid() && !closed
      ensures now == |all| && seen == changes
      ensures ReadFrom(base, |all|, next) <= |all| && unread == all[ReadFrom(base, |all|, next)..]
    {
      var start := Clamp(next - base, |entries|);
      unread := entries[start..];
      now := base + |entries|;
      seen := changes;
    }

    method Close()
      requires Valid() && !closed
      modifies this
      ensures Valid() && closed && all == old(all) && base == old(base) && changes == old(changes) + 1
    {
      closed, entries, changes := true, [], changes + 1;
    }
  }

  function TrimTo(base: nat, head: nat, through: nat): nat
    requires base <= head
  {
    base + Clamp(through - base, head - base)
  }

  /** The number of the last event before the ones a tail at next reads. */
  function ReadFrom(base: nat, head: nat, next: nat): nat
    requires base <= head
  {
    base + Clamp(next - base, head - base)
  }

  // ---------------------------------------------------------------------------------------------
  // Appends, trims and tails, in any interleaving
  // ---------------------------------------------------------------------------------------------

  datatype Phase = Reading | Sending | Waiting

  /** A tail: where it is, the numbers it read and has not sent, those it sent, those that were
      trimmed before it read them, and the change it waits for. */
  datatype Tail = Tail(after: nat, next: nat, phase: Phase, pending: seq<nat>, sent: seq<nat>, missed: set<nat>, seen: nat)

  datatype World = World(all: seq<Entry>, base: nat, changes: nat, tails: map<nat, Tail>)

  datatype Step =
    | Append(e: Entry)
    | Trim(through: nat)
    | Subscribe(t: nat, after: nat)
    | Read(t: nat)
    | Send(t: nat)
    | Wake(t: nat)

  function Numbers(lo: nat, hi: nat): (ns: seq<nat>)
    requires lo <= hi
    ensures |ns| == hi - lo && forall i :: 0 <= i < |ns| ==> ns[i] == lo + i + 1
  {
    seq(hi - lo, i requires 0 <= i < hi - lo => lo + i + 1)
  }

  /** The numbers in (lo, hi]. */
  function Between(lo: nat, hi: nat): set<nat> {
    set n: nat | n < hi + 1 && InRange(lo, n)
  }

  predicate InRange(lo: nat, n: nat) {
    lo < n
  }

  predicate Can(w: World, step: Step) {
    match step
    case Append(_) => true
    case Trim(_) => true
    case Subscribe(t, _) => t !in w.tails
    case Read(t) => t in w.tails && w.tails[t].phase == Reading && w.base <= |w.all|
    case Send(t) => t in w.tails && w.tails[t].phase == Sending
    case Wake(t) => t in w.tails && w.tails[t].phase == Waiting && w.tails[t].seen != w.changes
  }

  function AfterRead(w: World, t: Tail): Tail
    requires w.base <= |w.all|
  {
    var start := ReadFrom(w.base, |w.all|, t.next);
    Tail(t.after, |w.all|, Sending, Numbers(start, |w.all|), t.sent, t.missed + Between(t.next, start), w.changes)
  }

  function AfterSend(w: World, t: Tail): Tail {
    if t.pending == [] then t.(phase := Waiting)
    else
      var n, rest := t.pending[0], t.pending[1..];
      if 0 < n <= |w.all| && w.all[n - 1].retry then t.(pending := rest) else t.(pending := rest, sent := t.sent + [n])
  }

  function Next(w: World, step: Step): World {
    match step
    case Append(e) => w.(all := w.all + [e], changes := w.changes + 1)
    case Trim(through) => if w.base <= |w.all| then w.(base := TrimTo(w.base, |w.all|, through)) else w
    case Subscribe(t, after) => w.(tails := w.tails[t := Tail(after, after, Reading, [], [], {}, 0)])
    case Read(t) => if t in w.tails && w.base <= |w.all| then w.(tails := w.tails[t := AfterRead(w, w.tails[t])]) else w
    case Send(t) => if t in w.tails then w.(tails := w.tails[t := AfterSend(w, w.tails[t])]) else w
    case Wake(t) => if t in w.tails then w.(tails := w.tails[t := w.tails[t].(phase := Reading)]) else w
  }

  // ---------------------------------------------------------------------------------------------
  // What a tail sends
  // ---------------------------------------------------------------------------------------------

  predicate Retry(all: seq<Entry>, n: nat) {
    0 < n <= |all| && all[n - 1].retry
  }

  predicate Rising(ns: seq<nat>, lo: nat) {
    (forall i :: 0 <= i < |ns| ==> lo < ns[i]) && forall i, j :: 0 <= i < j < |ns| ==> ns[i] < ns[j]
  }

  /** Every event up to where the tail is was sent, is about to be, is a retry entry, or was trimmed
      first; what is sent rises, and what is pending follows it. */
  predicate Follows(all: seq<Entry>, base: nat, t: Tail) {
    t.after <= t.next <= |all| &&
    Rising(t.sent + t.pending, t.after) &&
    (forall n :: n in t.sent ==> n <= t.next && !Retry(all, n)) &&
    (forall n :: n in t.pending ==> n <= t.next) &&
    (forall n :: n in t.missed ==> t.after < n <= base) &&
    (forall n :: t.after < n <= t.next ==> n in t.sent || n in t.pending || Retry(all, n) || n in t.missed) &&
    (t.phase != Sending ==> t.pending == [])
  }

  /** A tail that waits has read all there was at the change it saw. */
  predicate Caught(w: World, t: Tail) {
    t.phase != Reading ==> t.seen <= w.changes && (t.seen == w.changes ==> t.next == |w.all|)
  }

  /** A tail that has read, in a log that had reached `after` when it first did. */
  predicate Following(w: World, t: nat) {
    w.base <= |w.all| && t in w.tails && Follows(w.all, w.base, w.tails[t]) && Caught(w, w.tails[t])
  }

  /** A tail that has not read. */
  predicate Fresh(w: World, t: nat) {
    w.base <= |w.all| && t in w.tails && w.tails[t] == Tail(w.tails[t].after, w.tails[t].after, Reading, [], [], {}, 0)
  }

  lemma RetrySame(all: seq<Entry>, e: Entry, n: nat)
    requires n <= |all|
    ensures Retry(all + [e], n) <==> Retry(all, n)
  {
  }

  lemma AppendFollows(all: seq<Entry>, base: nat, e: Entry, t: Tail)
    requires Follows(all, base, t)
    ensures Follows(all + [e], base, t)
  {
    forall n | n in t.sent ensures !Retry(all + [e], n) { RetrySame(all, e, n); }
    forall n | t.after < n <= t.next ensures n in t.sent || n in t.pending || Retry(all + [e], n) || n in t.missed {
      RetrySame(all, e, n);
    }
  }

  lemma ReadFollows(w: World, t: Tail)
    requires w.base <= |w.all| && Follows(w.all, w.base, t) && t.phase == Reading
    ensures Follows(w.all, w.base, AfterRead(w, t))
  {
    var r := AfterRead(w, t);
    var start := ReadFrom(w.base, |w.all|, t.next);
    assert t.next <= start || t.next <= w.base;
    assert t.sent + t.pending == t.sent;
    assert forall i :: 0 <= i < |t.sent| ==> t.sent[i] in t.sent;
    assert Rising(r.sent + r.pending, r.after);
    forall n | t.after < n <= r.next ensures n in r.sent || n in r.pending || Retry(w.all, n) || n in r.missed {
      if n > t.next {
        if n <= start { assert InRange(t.next, n) && n in Between(t.next, start); } else { assert r.pending[n - start - 1] == n; }
      }
    }
    assert start == t.next || start == w.base;
  }

  lemma SendFollows(w: World, t: Tail)
    requires Follows(w.all, w.base, t) && t.phase == Sending
    ensures Follows(w.all, w.base, AfterSend(w, t))
  {
    var r := AfterSend(w, t);
    if t.pending != [] {
      var n := t.pending[0];
      assert n in t.pending;
      assert t.sent + t.pending == (t.sent + [n]) + t.pending[1..];
      assert forall m :: m in t.pending <==> m == n || m in t.pending[1..];
      if Retry(w.all, n) {
        RisingWithout(t.sent, n, t.pending[1..], t.after);
      }
    }
  }

  lemma RisingWithout(a: seq<nat>, n: nat, b: seq<nat>, lo: nat)
    requires Rising(a + [n] + b, lo)
    ensures Rising(a + b, lo)
  {
    var all := a + [n] + b;
    forall i | 0 <= i < |a + b| ensures (a + b)[i] == all[if i < |a| then i else i + 1] { }
  }

  /** No step, of this tail or of another, makes a tail lose its place. */
  lemma StepKeeps(w: World, step: Step, t: nat)
    requires Following(w, t) && Can(w, step)
    ensures Following(Next(w, step), t)
  {
    hide Follows;
    var tail := w.tails[t];
    match step {
      case Append(e) => AppendFollows(w.all, w.base, e, tail);
      case Trim(through) => TrimFollows(w.all, w.base, TrimTo(w.base, |w.all|, through), tail);
      case Subscribe(_, _) =>
      case Read(u) => if u == t { ReadFollows(w, tail); }
      case Send(u) => if u == t { SendFollows(w, tail); SendCaught(w, tail); }
      case Wake(u) => if u == t { WakeFollows(w.all, w.base, tail); }
    }
  }

  lemma SendCaught(w: World, t: Tail)
    requires Caught(w, t) && t.phase == Sending
    ensures Caught(w, AfterSend(w, t))
  {
  }

  lemma StepFresh(w: World, step: Step, t: nat)
    requires Fresh(w, t) && Can(w, step) && step != Read(t)
    ensures Fresh(Next(w, step), t)
  {
  }

  /** The first read, when the log has reached `after`. */
  lemma FirstRead(w: World, t: nat)
    requires Fresh(w, t) && w.tails[t].after <= |w.all|
    ensures Following(Next(w, Read(t)), t)
  {
    NewFollows(w.all, w.base, w.tails[t].after);
    ReadFollows(w, w.tails[t]);
  }

  lemma TrimFollows(all: seq<Entry>, base: nat, more: nat, t: Tail)
    requires Follows(all, base, t) && base <= more
    ensures Follows(all, more, t)
  {
  }

  lemma NewFollows(all: seq<Entry>, base: nat, after: nat)
    requires after <= |all|
    ensures Follows(all, base, Tail(after, after, Reading, [], [], {}, 0))
  {
  }

  lemma WakeFollows(all: seq<Entry>, base: nat, t: Tail)
    requires Follows(all, base, t) && t.phase == Waiting
    ensures Follows(all, base, t.(phase := Reading))
  {
  }

  function Run(steps: seq<Step>): World {
    if steps == [] then World([], 0, 0, map[]) else Next(Run(steps[..|steps| - 1]), steps[|steps| - 1])
  }

  /** Every step can happen. */
  predicate Runs(steps: seq<Step>) {
    steps == [] || (Runs(steps[..|steps| - 1]) && Can(Run(steps[..|steps| - 1]), steps[|steps| - 1]))
  }

  /** When tail t first reads, the log has reached the number it is to start after. */
  predicate StartsInTime(steps: seq<Step>, t: nat) {
    forall i :: 0 <= i < |steps| && steps[i] == Read(t) && Read(t) !in steps[..i] ==>
      t in Run(steps[..i]).tails && Run(steps[..i]).tails[t].after <= |Run(steps[..i]).all|
  }

  lemma {:induction false} RunBase(steps: seq<Step>)
    requires Runs(steps)
    ensures Run(steps).base <= |Run(steps).all|
    decreases |steps|
  {
    if steps != [] { RunBase(steps[..|steps| - 1]); }
  }

  /** A tail that has not read is fresh, however the log moves. */
  lemma {:induction false} RunFresh(steps: seq<Step>, t: nat)
    requires Runs(steps) && Read(t) !in steps && t in Run(steps).tails
    ensures Fresh(Run(steps), t)
    decreases |steps|
  {
    hide Next;
    RunBase(steps);
    if steps != [] {
      var before, step := steps[..|steps| - 1], steps[|steps| - 1];
      assert forall s :: s in before ==> s in steps;
      assert step in steps;
      RunBase(before);
      if t in Run(before).tails {
        RunFresh(before, t);
        StepFresh(Run(before), step, t);
      } else {
        NewFresh(Run(before), step, t);
      }
    }
  }

  lemma NewFresh(w: World, step: Step, t: nat)
    requires w.base <= |w.all| && Can(w, step) && t !in w.tails && t in Next(w, step).tails
    ensures Fresh(Next(w, step), t)
  {
  }

  lemma StartsBefore(steps: seq<Step>, t: nat)
    requires steps != [] && StartsInTime(steps, t)
    ensures StartsInTime(steps[..|steps| - 1], t)
  {
    hide Run;
    forall i | 0 <= i < |steps| - 1 ensures steps[..|steps| - 1][..i] == steps[..i] { }
  }

  lemma RunParts(steps: seq<Step>)
    requires steps != [] && Runs(steps)
    ensures var before, step := steps[..|steps| - 1], steps[|steps| - 1];
      Runs(before) && Can(Run(before), step) && Run(steps) == Next(Run(before), step)
  {
  }

  lemma FirstReadTime(before: seq<Step>, t: nat)
    requires StartsInTime(before + [Read(t)], t) && Read(t) !in before
    ensures t in Run(before).tails && Run(before).tails[t].after <= |Run(before).all|
  {
    var steps := before + [Read(t)];
    assert steps[..|before|] == before && steps[|before|] == Read(t);
  }

  lemma {:induction false} RunKeeps(steps: seq<Step>, t: nat)
    requires Runs(steps) && StartsInTime(steps, t) && t in Run(steps).tails
    ensures Read(t) in steps ==> Following(Run(steps), t)
    decreases |steps|
  {
    hide Following, Fresh, Next, Can, Run, Runs, StartsInTime;
    if Read(t) in steps {
      var before, step := steps[..|steps| - 1], steps[|steps| - 1];
      assert steps == before + [step];
      RunParts(steps);
      StartsBefore(steps, t);
      if Read(t) in before {
        TailsStay(before, t);
        RunKeeps(before, t);
        StepKeeps(Run(before), step, t);
      } else {
        FirstReadTime(before, t);
        RunFresh(before, t);
        FirstRead(Run(before), t);
      }
    }
  }

  lemma {:induction false} TailsStay(steps: seq<Step>, t: nat)
    requires Runs(steps) && Read(t) in steps
    ensures t in Run(steps).tails
    decreases |steps|
  {
    var before := steps[..|steps| - 1];
    if Read(t) in before { TailsStay(before, t); } else { assert steps[|steps| - 1] == Read(t); }
  }

  /** Main result: over every interleaving, a tail that starts in time sends numbers that rise from
      above `after` and are of no retry entry; and when it waits for a change that has not come it has
      nothing unread: it sent every event above `after` but retry entries and those trimmed before it
      read them. */
  lemma TailsMissNothing(steps: seq<Step>, t: nat)
    requires Runs(steps) && StartsInTime(steps, t) && t in Run(steps).tails
    ensures var w := Run(steps); var tail := w.tails[t];
      Rising(tail.sent, tail.after) && (forall n :: n in tail.sent ==> n <= |w.all| && !Retry(w.all, n)) &&
      (forall n :: n in tail.missed ==> n <= w.base) &&
      (tail.phase == Waiting && tail.seen == w.changes ==>
         (forall n :: tail.after < n <= |w.all| ==> n in tail.sent || Retry(w.all, n) || n in tail.missed))
  {
    var w := Run(steps);
    var tail := w.tails[t];
    if Read(t) in steps {
      RunKeeps(steps, t);
      assert Follows(w.all, w.base, tail);
      assert forall i :: 0 <= i < |tail.sent| ==> (tail.sent + tail.pending)[i] == tail.sent[i];
    } else {
      RunFresh(steps, t);
    }
  }

  lemma RunLast(steps: seq<Step>, step: Step)
    ensures Run(steps + [step]) == Next(Run(steps), step)
  {
    assert (steps + [step])[..|steps|] == steps;
  }

  // ---------------------------------------------------------------------------------------------
  // A tail that starts above the head
  // ---------------------------------------------------------------------------------------------

  /** Tail t sent an event it was to skip. */
  predicate SentBelow(w: World, t: nat) {
    t in w.tails && exists n :: n in w.tails[t].sent && n <= w.tails[t].after
  }

  lemma {:induction false} KeepsFollowing(steps: seq<Step>, more: seq<Step>, t: nat)
    requires Runs(steps + more) && Following(Run(steps), t)
    ensures Following(Run(steps + more), t)
    decreases |more|
  {
    hide Following, Next, Can;
    if more == [] {
      assert steps + more == steps;
    } else {
      var init := more[..|more| - 1];
      assert (steps + more)[..|steps + more| - 1] == steps + init;
      KeepsFollowing(steps, init, t);
      StepKeeps(Run(steps + init), more[|more| - 1], t);
    }
  }

  lemma FollowingSentAbove(w: World, t: nat)
    requires Following(w, t)
    ensures !SentBelow(w, t)
  {
    var tail := w.tails[t];
    forall n | n in tail.sent ensures n > tail.after {
      var i :| 0 <= i < |tail.sent| && tail.sent[i] == n;
      assert (tail.sent + tail.pending)[i] == n;
    }
  }

  lemma RunMore(steps: seq<Step>, step: Step, now: World)
    requires Runs(steps) && Run(steps) == now && Can(now, step)
    ensures Runs(steps + [step]) && Run(steps + [step]) == Next(now, step)
  {
    assert (steps + [step])[..|steps|] == steps;
  }

  /** Taken back to the head, a tail sends the next event, whose number is not above `after`. */
  lemma AboveHeadSends(steps: seq<Step>, t: nat, e: Entry) returns (more: seq<Step>)
    requires Runs(steps) && Fresh(Run(steps), t) && Run(steps).tails[t].after > |Run(steps).all| && !e.retry
    ensures Runs(steps + [Read(t)] + more) && SentBelow(Run(steps + [Read(t)] + more), t)
  {
    hide Run, Runs, Next, Can, SentBelow;
    var w := Run(steps);
    var n, after := |w.all|, w.tails[t].after;
    AboveHeadSteps(w, t, e);
    var s1 := steps + [Read(t)];
    more := [Send(t), Append(e), Wake(t), Read(t), Send(t)];
    var w1 := Next(w, Read(t));
    RunMore(steps, Read(t), w);
    var w2 := Next(w1, Send(t));
    RunMore(s1, Send(t), w1);
    var w3 := Next(w2, Append(e));
    RunMore(s1 + [Send(t)], Append(e), w2);
    var w4 := Next(w3, Wake(t));
    RunMore(s1 + [Send(t)] + [Append(e)], Wake(t), w3);
    var w5 := Next(w4, Read(t));
    RunMore(s1 + [Send(t)] + [Append(e)] + [Wake(t)], Read(t), w4);
    RunMore(s1 + [Send(t)] + [Append(e)] + [Wake(t)] + [Read(t)], Send(t), w5);
    assert s1 + [Send(t)] + [Append(e)] + [Wake(t)] + [Read(t)] + [Send(t)] == s1 + more;
  }

  lemma BetweenNone(lo: nat, hi: nat)
    requires lo >= hi
    ensures Between(lo, hi) == {}
  {
  }

  lemma AboveHeadSteps(w: World, t: nat, e: Entry)
    requires Fresh(w, t) && w.tails[t].after > |w.all| && !e.retry
    ensures var w1 := Next(w, Read(t)); var w2 := Next(w1, Send(t)); var w3 := Next(w2, Append(e));
      var w4 := Next(w3, Wake(t)); var w5 := Next(w4, Read(t));
      Can(w, Read(t)) && Can(w1, Send(t)) && Can(w2, Append(e)) && Can(w3, Wake(t)) && Can(w4, Read(t)) && Can(w5, Send(t)) &&
      SentBelow(Next(w5, Send(t)), t)
  {
    var n, after, seen := |w.all|, w.tails[t].after, w.changes;
    var w1 := Next(w, Read(t));
    BetweenNone(after, n);
    assert ReadFrom(w.base, n, after) == n && Numbers(n, n) == [] && {} + Between(after, n) == {};
    assert AfterRead(w, w.tails[t]) == Tail(after, n, Sending, [], [], {}, seen);
    assert w1 == w.(tails := w.tails[t := Tail(after, n, Sending, [], [], {}, seen)]);
    var w2 := Next(w1, Send(t));
    assert w2 == w.(tails := w.tails[t := Tail(after, n, Waiting, [], [], {}, seen)]);
    var w3 := Next(w2, Append(e));
    var w4 := Next(w3, Wake(t));
    assert w4 == World(w.all + [e], w.base, seen + 1, w.tails[t := Tail(after, n, Reading, [], [], {}, seen)]);
    var w5 := Next(w4, Read(t));
    assert w5.tails[t].pending == [n + 1] && w5.tails[t].sent == [];
    assert Next(w5, Send(t)).tails[t].sent == [] + [n + 1] == [n + 1];
    assert n + 1 in Next(w5, Send(t)).tails[t].sent;
  }

  /** For every tail about to read first: the run can go on until the tail sends an event it was to
      skip if and only if the log has not reached `after`. */
  lemma FirstReadExactly(steps: seq<Step>, t: nat)
    requires Runs(steps) && Read(t) !in steps && t in Run(steps).tails
    ensures Run(steps).tails[t].after > |Run(steps).all| <==>
            exists more: seq<Step> :: Runs(steps + [Read(t)] + more) && SentBelow(Run(steps + [Read(t)] + more), t)
  {
    hide Runs, Next, Can, Following, SentBelow;
    RunFresh(steps, t);
    if Run(steps).tails[t].after > |Run(steps).all| {
      var more := AboveHeadSends(steps, t, Entry(false, ""));
    } else {
      forall more: seq<Step> | Runs(steps + [Read(t)] + more) ensures !SentBelow(Run(steps + [Read(t)] + more), t) {
        FirstRead(Run(steps), t);
        RunLast(steps, Read(t));
        KeepsFollowing(steps + [Read(t)], more, t);
        FollowingSentAbove(Run(steps + [Read(t)] + more), t);
      }
    }
  }
}
