/** The window object and its operations (window.go), over a host and a provider that may fail. */
module Window {
  import opened Messages
  import opened ContextWindow
  import opened WindowTrim

  datatype CountResult = Counted(n: nat) | CannotCount | CountError

  /** What the window uses that the harness and the provider own. Every call may fail, and every
      text it returns is arbitrary; the host remembers what it was given. */
  class Host {
    ghost var archived: seq<seq<Message>>
    /** Whether each archived batch can be searched. */
    ghost var searchable: seq<bool>
    /** What the model was asked to write from, and what it wrote. */
    ghost var written: seq<(seq<Message>, Bytes)>
    ghost var kept: seq<Kept>
    /** Some call failed. */
    ghost var failed: bool

    method CountTokens(meter: Meter, msgs: seq<Message>) returns (r: CountResult)
      modifies this`failed
      ensures r.Counted? ==> r.n == meter.tokens(msgs)
      ensures failed == (old(failed) || r.CountError?)
    {
      var answer: int := *;
      failed := failed || answer == 1;
      r := if answer == 0 then CannotCount else if answer == 1 then CountError else Counted(meter.tokens(msgs));
    }

    /** Saves msgs for search, and reports whether they are kept. */
    method Archive(msgs: seq<Message>) returns (r: Result<bool>)
      modifies this`archived, this`searchable, this`failed
      ensures r.Ok? ==> archived == old(archived) + [msgs] && searchable == old(searchable) + [r.value]
      ensures r.Err? ==> r.error == ArchiveFailed && archived == old(archived) && searchable == old(searchable)
      ensures failed == (old(failed) || r.Err?)
    {
      var fails: bool := *;
      var keeps: bool := *;
      failed := failed || fails;
      if fails {
        return Err(ArchiveFailed);
      }
      archived, searchable := archived + [msgs], searchable + [keeps];
      r := Ok(keeps);
    }

    /** A text the model writes from msgs: a summary, or a handoff. */
    method Write(msgs: seq<Message>) returns (r: Result<Bytes>)
      modifies this`written, this`failed
      ensures r.Ok? ==> written == old(written) + [(msgs, r.value)]
      ensures r.Err? ==> r.error == SummaryFailed && written == old(written)
      ensures failed == (old(failed) || r.Err?)
    {
      var fails: bool := *;
      var text: Bytes := *;
      failed := failed || fails;
      if fails {
        return Err(SummaryFailed);
      }
      written := written + [(msgs, text)];
      r := Ok(text);
    }

    /** Stores a cut result's full text, and returns where it is, or "" when nothing keeps it. */
    method Keep(callId: string, text: Bytes) returns (r: Result<Bytes>)
      modifies this`kept, this`failed
      ensures r.Ok? ==> kept == old(kept) + [Kept(callId, text, r.value)]
      ensures r.Err? ==> r.error == KeepFailed && kept == old(kept)
      ensures failed == (old(failed) || r.Err?)
    {
      var fails: bool := *;
      var path: Bytes := *;
      failed := failed || fails;
      if fails {
        return Err(KeepFailed);
      }
      kept := kept + [Kept(callId, text, path)];
      r := Ok(path);
    }

    constructor ()
      ensures archived == [] && searchable == [] && written == [] && kept == [] && !failed
    {
      archived, searchable, written, kept, failed := [], [], [], [], false;
    }

    /** m is the summary of what the model wrote last, from msgs, with a note when the last batch that
        was archived can be searched. */
    ghost predicate Summarizes(m: Message, msgs: seq<Message>)
      reads this`written, this`searchable
    {
      written != [] && searchable != [] && written[|written| - 1].0 == msgs && m.role == Developer &&
      m.content == SUMMARY_PREFIX + written[|written| - 1].1 + if searchable[|searchable| - 1] then "\n\n" + HISTORY_NOTE else ""
    }
  }

  /** after is what a collapse of before[..end] leaves: the protected prefix, one summary, and the
      messages from end on without their reasoning. */
  ghost predicate Collapsed(before: seq<Message>, end: nat, after: seq<Message>) {
    Protected(before) <= end <= |before| &&
    exists text: Bytes, kept: bool ::
      after == before[..Protected(before)] + [Summary(text, kept)] + WithoutReasoning(before[end..])
  }

  /** A collapse at a round boundary leaves complete rounds if and only if what it keeps is not a reply
      that reads as a plan document and has calls. */
  lemma CollapsedExactly(before: seq<Message>, end: nat, after: seq<Message>)
    requires Complete(before) && StartsWithUser(before) && before != []
    requires Collapsed(before, end, after) && Complete(before[..end])
    ensures Complete(after) <==> !PlanCalls(before)
    ensures !PlanCalls(before) ==> Sound(after)
  {
    var text: Bytes, kept: bool :|
      after == before[..Protected(before)] + [Summary(text, kept)] + WithoutReasoning(before[end..]);
    var head, sum, tail := before[..Protected(before)], [Summary(text, kept)], WithoutReasoning(before[end..]);
    if PlanCalls(before) {
      SplitRound(before, sum + tail);
      assert after == before[..2] + (sum + tail);
    } else {
      CollapsedSound(before, end, text, kept);
    }
  }

  /** Nothing completes a reply with calls that its summary follows. */
  lemma SplitRound(before: seq<Message>, rest: seq<Message>)
    requires StartsWithUser(before) && PlanCalls(before) && rest != [] && rest[0].role == Developer
    ensures !Complete(before[..2] + rest)
  {
    var st := Scan(WireIds(before[1].calls), false);
    assert before[..2] == [before[0]] + [before[1]];
    CompleteHead(before[0]);
    ScanAppend(IDLE, [before[0]], [before[1]]);
    CallsPending(before[1]);
    ScanAppend(IDLE, before[..2], rest);
    assert |st.pending| == |before[1].calls| && ScanOne(st, rest[0]).None?;
  }

  lemma CollapsedSound(before: seq<Message>, end: nat, text: Bytes, kept: bool)
    requires Sound(before) && before != [] && Protected(before) <= end <= |before| && Complete(before[..end])
    ensures Sound(before[..Protected(before)] + [Summary(text, kept)] + WithoutReasoning(before[end..]))
  {
    hide IsPlanDocument;
    var head, sum, tail := before[..Protected(before)], [Summary(text, kept)], WithoutReasoning(before[end..]);
    ProtectedExactly(before);
    CompleteOne(Summary(text, kept));
    CompleteAppend(head, sum);
    CompleteSuffix(before, end);
    ScanWithoutReasoning(IDLE, before[end..]);
    CompleteAppend(head + sum, tail);
    var after := head + sum + tail;
    assert after[0] == before[0] && after[1] == if Protected(before) == 2 then before[1] else Summary(text, kept);
  }

  /** A round, cut or not, keeps a window sound when it is appended. */
  lemma AppendKeeps(before: seq<Message>, round: seq<Message>, fitted: seq<Message>, cuts: map<nat, Cut>, log: seq<Kept>)
    requires Complete(before) && Sound(before + round) && Trimmed(round, fitted, cuts, log)
    ensures Sound(before + fitted)
  {
    hide Trimmed;
    TrimmedFrame(round, fitted, cuts, log);
    CutsAreResults(round, fitted, cuts, log);
    CompleteAppend(before, round);
    ScanSame(IDLE, round, fitted);
    CompleteAppend(before, fitted);
    var a, b := before + round, before + fitted;
    forall i | 0 <= i < |b| ensures SameFrame(a[i], b[i]) && (a[i].role != Tool ==> b[i] == a[i]) {
      if i >= |before| { assert SameFrame(round[i - |before|], fitted[i - |before|]); }
    }
  }

  lemma CountsAppend(meter: Meter, count: Count, before: seq<Message>, round: seq<Message>)
    requires Counts(meter, count, before)
    ensures Counts(meter, count, before + round) && (before + round)[..count.messages] == before[..count.messages]
  {
    assert (before + round)[..count.messages] == before[..count.messages];
  }

  lemma CutsAreResults(round: seq<Message>, after: seq<Message>, cuts: map<nat, Cut>, log: seq<Kept>)
    requires Trimmed(round, after, cuts, log)
    ensures |after| == |round| && forall i :: 0 <= i < |round| && round[i].role != Tool ==> after[i] == round[i]
  {
  }

  /** A collapse of the whole window leaves a window to which the round, without its reasoning, may
      be appended. */
  lemma CollapsedThenRound(before: seq<Message>, base: seq<Message>, round: seq<Message>)
    requires before != [] && Sound(before) && Complete(round) && Collapsed(before, |before|, base)
    ensures Complete(base) && Sound(base + WithoutReasoning(round))
  {
    assert before[..|before|] == before;
    CollapsedExactly(before, |before|, base);
    ScanWithoutReasoning(IDLE, round);
    CompleteAppend(base, WithoutReasoning(round));
    assert |base| >= 2 && (base + WithoutReasoning(round))[0] == base[0] && (base + WithoutReasoning(round))[1] == base[1];
  }

  function NextCount(count: Count, counted: nat, messages: nat): Count {
    if counted > 0 then Count(counted, messages) else count
  }

  /** after is what a commit of round leaves of before: appended as it is, or appended without its
      reasoning to the collapsed window, and in both cases with its results trimmed. */
  ghost predicate Fitted(before: seq<Message>, round: seq<Message>, after: seq<Message>,
                         batches: seq<seq<Message>>, cuts: map<nat, Cut>, log: seq<Kept>) {
    exists base: seq<Message> ::
      base <= after &&
      if batches == [] then base == before && Trimmed(round, after[|base|..], cuts, log)
      else batches == [before[Protected(before)..]] && Collapsed(before, |before|, base) &&
           Trimmed(WithoutReasoning(round), after[|base|..], cuts, log)
  }

  class Window {
    const host: Host
    const meter: Meter
    const size: nat
    var msgs: seq<Message>
    var count: Count
    /** Set once the provider said that it cannot count. */
    var cannotCount: bool

    /** What every operation keeps: the count bounds what it counted. */
    ghost predicate Valid()
      reads this
    {
      Bounded(meter) && Counts(meter, count, msgs)
    }

    /** Complete rounds, cut by the count at a round boundary: what every operation keeps unless what
        a collapse keeps becomes a reply that reads as a plan document and has calls. */
    ghost predicate Whole()
      reads this
      requires count.messages <= |msgs|
    {
      Sound(msgs) && Complete(msgs[..count.messages])
    }

    constructor (host: Host, meter: Meter, size: nat)
      requires Bounded(meter)
      ensures Valid() && Whole() && this.host == host && this.meter == meter && this.size == size
      ensures msgs == [] && count == NO_COUNT && !cannotCount
    {
      this.host, this.meter, this.size := host, meter, size;
      msgs, count, cannotCount := [], NO_COUNT, false;
    }

    /** What Measure answers: the provider's count, or the bound when the provider cannot count. */
    ghost function Measured(cannot: bool, count: Count, msgs: seq<Message>, round: seq<Message>): nat
      requires count.messages <= |msgs|
    {
      if cannot then Bound(meter, count, msgs, round) else meter.tokens(msgs + round)
    }

    method Measure(count: Count, msgs: seq<Message>, round: seq<Message>) returns (r: Result<nat>)
      requires Bounded(meter) && Counts(meter, count, msgs)
      modifies this`cannotCount, host`failed
      ensures old(cannotCount) ==> cannotCount
      ensures r.Ok? ==> r.value == Measured(cannotCount, count, msgs, round) >= meter.tokens(msgs + round)
      ensures r.Err? ==> r.error == CountFailed && cannotCount == old(cannotCount)
      ensures host.failed == (old(host.failed) || r.Err?)
    {
      BoundIsUpper(meter, count, msgs, round);
      if !cannotCount {
        var c := host.CountTokens(meter, msgs + round);
        match c {
          case Counted(n) => return Ok(n);
          case CountError => return Err(CountFailed);
          case CannotCount => cannotCount := true;
        }
      }
      r := Ok(Bound(meter, count, msgs, round));
    }

    /** The tool result with the most left of it, the first of several, or -1 when all are empty. */
    method Largest(round: seq<Message>, cuts: map<nat, Cut>) returns (i: int)
      ensures i == -1 || 0 <= i < |round|
      ensures if i < 0 then NothingLeft(round, cuts) else IsLargest(round, cuts, i)
    {
      i := -1;
      for j := 0 to |round|
        invariant -1 <= i < j
        invariant i >= 0 ==> round[i].role == Tool && Left(round, cuts, i) > 0
        invariant forall k :: 0 <= k < j && round[k].role == Tool ==>
          if i < 0 then Left(round, cuts, k) == 0 else Left(round, cuts, k) <= Left(round, cuts, i)
        invariant forall k :: 0 <= k < i && round[k].role == Tool ==> Left(round, cuts, k) < Left(round, cuts, i)
      {
        if round[j].role == Tool && Left(round, cuts, j) > 0 && (i < 0 || Left(round, cuts, j) > Left(round, cuts, i)) {
          i := j;
        }
      }
    }

    /** The next cut of result i: it scales what is left by how far over the window is. Before the
        first cut the full text is stored. */
    method NextCut(round: seq<Message>, cuts: map<nat, Cut>, i: nat, n: nat)
      returns (c: Result<Cut>, ghost stored: seq<Kept>)
      requires i < |round| && 0 < Left(round, cuts, i) <= |round[i].content| && n > size
      modifies host`kept, host`failed
      ensures host.kept == old(host.kept) + stored && host.failed == (old(host.failed) || c.Err?)
      ensures c.Err? ==> c.error == KeepFailed && stored == []
      ensures c.Ok? ==> c.value.keep < Left(round, cuts, i) && Nearest(round[i].content, Left(round, cuts, i) * size / n, c.value.keep)
      ensures c.Ok? ==> if i in cuts then c.value.path == cuts[i].path && stored == []
                        else stored == [Kept(round[i].toolCallId, round[i].content, c.value.path)]
    {
      stored := [];
      var where := "";
      if i in cuts {
        where := cuts[i].path;
      } else {
        var w := host.Keep(round[i].toolCallId, round[i].content);
        if w.Err? {
          return Err(w.error), [];
        }
        where, stored := w.value, [Kept(round[i].toolCallId, round[i].content, w.value)];
      }
      Shrinks(Left(round, cuts, i), size, n);
      var keep := AlignDown(round[i].content, Left(round, cuts, i) * size / n);
      c := Ok(Cut(keep, where));
    }

    /** n is the provider's count of the request when it can still count afterwards, the bound when it
        could not count before, and one of the two otherwise. */
    ghost predicate SizeIs(before: bool, after: bool, count: Count, msgs: seq<Message>, round: seq<Message>, n: nat)
      requires count.messages <= |msgs|
    {
      (before ==> n == Bound(meter, count, msgs, round)) && (!after ==> n == meter.tokens(msgs + round)) &&
      (n == meter.tokens(msgs + round) || n == Bound(meter, count, msgs, round))
    }

    /** t leads from no cuts to these, pass by pass, and its sizes are of the request with each. */
    ghost predicate Traced(before: bool, after: bool, count: Count, msgs: seq<Message>, round: seq<Message>, t: Trace, cuts: map<nat, Cut>)
      requires count.messages <= |msgs|
    {
      Passes(round, size, t, cuts) &&
      forall k :: 0 <= k < |t.sizes| ==>
        ValidCuts(round, t.cuts[k]) && SizeIs(before, after, count, msgs, CutAll(round, t.cuts[k]), t.sizes[k])
    }

    lemma TracedNone(before: bool, after: bool, count: Count, msgs: seq<Message>, round: seq<Message>, n: nat)
      requires count.messages <= |msgs| && SizeIs(before, after, count, msgs, round, n)
      ensures Traced(before, after, count, msgs, round, Trace([map[]], [n], []), map[])
    {
      hide SizeIs, Passes;
      PassesNone(round, size, n);
      assert CutAll(round, map[]) == round;
    }

    lemma TracedMore(before: bool, could: bool, after: bool, count: Count, msgs: seq<Message>, round: seq<Message>,
                     t: Trace, cuts: map<nat, Cut>, i: nat, next: map<nat, Cut>, n: nat)
      requires count.messages <= |msgs| && Traced(before, could, count, msgs, round, t, cuts) && (could ==> after)
      requires Pass(round, cuts, i, t.sizes[|t.at|], size, next)
      requires ValidCuts(round, next) && SizeIs(before, after, count, msgs, CutAll(round, next), n)
      ensures Traced(before, after, count, msgs, round, Trace(t.cuts + [next], t.sizes + [n], t.at + [i]), next)
    {
      hide Passes, Pass, CutAll, ValidCuts, Bound;
      PassesMore(round, size, t, cuts, i, next, n);
      PassesSizes(round, size, t, cuts);
      var u := Trace(t.cuts + [next], t.sizes + [n], t.at + [i]);
      forall k | 0 <= k < |u.sizes|
        ensures ValidCuts(round, u.cuts[k]) && SizeIs(before, after, count, msgs, CutAll(round, u.cuts[k]), u.sizes[k])
      {
        if k < |t.sizes| {
          assert u.cuts[k] == t.cuts[k] && u.sizes[k] == t.sizes[k];
          assert SizeIs(before, could, count, msgs, CutAll(round, t.cuts[k]), t.sizes[k]);
        }
      }
    }

    /** Cuts the round's largest results until the window and the round fit. What is left of the
        results falls in every pass, although the note of a cut can make the request larger. `before` is
        whether the provider could not count when `needed` was measured. */
    method Trim(count: Count, msgs: seq<Message>, round: seq<Message>, needed: nat, ghost before: bool)
      returns (r: Result<seq<Message>>, cuts: map<nat, Cut>, ghost log: seq<Kept>, ghost t: Trace)
      requires Bounded(meter) && Counts(meter, count, msgs)
      requires needed == Measured(cannotCount, count, msgs, round) > size && (before ==> cannotCount)
      requires SizeIs(before, cannotCount, count, msgs, round, needed)
      modifies this`cannotCount, host`kept, host`failed
      ensures old(cannotCount) ==> cannotCount
      ensures ValidCuts(round, cuts) && Trimmed(round, CutAll(round, cuts), cuts, log)
      ensures host.kept == old(host.kept) + log
      ensures r.Ok? ==> r.value == CutAll(round, cuts) && Measured(cannotCount, count, msgs, r.value) <= size
      ensures r.Ok? || r.error == RoundTooLarge ==>
        Traced(before, cannotCount, count, msgs, round, t, cuts) && t.sizes[0] == needed
      ensures r.Ok? ==> t.sizes[|t.at|] <= size
      ensures r == Err(RoundTooLarge) ==> NothingLeft(round, cuts) && t.sizes[|t.at|] > size
      ensures r.Err? ==> r.error == KeepFailed || r.error == CountFailed || r.error == RoundTooLarge
      ensures host.failed == (old(host.failed) || (r.Err? && r.error != RoundTooLarge))
    {
      hide CutAll, CutTo, Trimmed, ValidCuts, Measured, Bounded, Traced, SizeIs, Bound, NothingLeft, IsLargest, Nearest;
      hide Left, TotalLeft, Pass;
      var out, n := round, needed;
      cuts, log, t := map[], [], Trace([map[]], [needed], []);
      TrimmedNone(round);
      TrimmedFrame(round, out, cuts, log);
      TracedNone(before, cannotCount, count, msgs, round, needed);
      while n > size
        invariant old(cannotCount) ==> cannotCount
        invariant ValidCuts(round, cuts) && out == CutAll(round, cuts)
        invariant Trimmed(round, out, cuts, log) && host.kept == old(host.kept) + log
        invariant n == Measured(cannotCount, count, msgs, out)
        invariant Traced(before, cannotCount, count, msgs, round, t, cuts)
        invariant |t.sizes| == |t.at| + 1 && t.sizes[0] == needed && t.sizes[|t.at|] == n
        invariant host.failed == old(host.failed)
        decreases TotalLeft(round, cuts, 0)
      {
        var i := Largest(round, cuts);
        if i < 0 {
          return Err(RoundTooLarge), cuts, log, t;
        }
        LargestLeft(round, out, cuts, log, i);
        var cut, stored := NextCut(round, cuts, i, n);
        if cut.Err? {
          return Err(cut.error), cuts, log, t;
        }
        PassDone(round, out, cuts, log, i, cut.value, stored, n, size);
        log := log + stored;
        ghost var was, could := cuts, cannotCount;
        out, cuts := out[i := CutTo(round[i], cut.value)], cuts[i := cut.value];
        var next := Measure(count, msgs, out);
        if next.Err? {
          return Err(next.error), cuts, log, t;
        }
        MeasuredIs(before, cannotCount, count, msgs, out);
        TracedMore(before, could, cannotCount, count, msgs, round, t, was, i, cuts, next.value);
        t := Trace(t.cuts + [cuts], t.sizes + [next.value], t.at + [i]);
        n := next.value;
      }
      r := Ok(out);
    }

    lemma MeasuredIs(before: bool, cannot: bool, count: Count, msgs: seq<Message>, round: seq<Message>)
      requires count.messages <= |msgs| && (before ==> cannot)
      ensures SizeIs(before, cannot, count, msgs, round, Measured(cannot, count, msgs, round))
    {
    }

    /** Archives what lies between the protected prefix and end, and puts one summary in its place. */
    method Collapse(msgs: seq<Message>, end: nat) returns (r: Result<seq<Message>>)
      requires Protected(msgs) <= end <= |msgs|
      modifies host`archived, host`searchable, host`written, host`failed
      ensures r.Ok? ==> Collapsed(msgs, end, r.value) && host.archived == old(host.archived) + [msgs[Protected(msgs)..end]]
      ensures r.Ok? ==> |host.written| == |old(host.written)| + 1 && host.Summarizes(r.value[Protected(msgs)], msgs[..end])
      ensures r.Err? ==> r.error == ArchiveFailed || r.error == SummaryFailed
      ensures host.failed == (old(host.failed) || r.Err?)
    {
      var keep := Protected(msgs);
      var kept := host.Archive(msgs[keep..end]);
      if kept.Err? {
        return Err(kept.error);
      }
      var text := host.Write(msgs[..end]);
      if text.Err? {
        return Err(text.error);
      }
      r := Ok(msgs[..keep] + [Summary(text.value, kept.value)] + WithoutReasoning(msgs[end..]));
    }

    /** Measures the request, and collapses the window when it is over the threshold: `left` is then the
        round without its reasoning, and the answer what the request takes with it. */
    method MakeRoom(count0: Count, base0: seq<Message>, round: seq<Message>)
      returns (r: Result<nat>, count: Count, base: seq<Message>, left: seq<Message>, ghost batches: seq<seq<Message>>, ghost first: nat)
      requires Bounded(meter) && Counts(meter, count0, base0)
      modifies this`cannotCount, host`archived, host`searchable, host`written, host`failed
      ensures old(cannotCount) ==> cannotCount
      ensures Counts(meter, count, base)
      ensures r.Ok? ==> SizeIs(old(cannotCount), cannotCount, count0, base0, round, first)
      ensures r.Ok? ==> (batches != [] <==> first > Threshold(size) && |base0| > Protected(base0))
      ensures batches == [] ==> base == base0 && count == count0 && left == round && (r.Ok? ==> r.value == first)
      ensures batches != [] ==>
        |base0| > Protected(base0) && batches == [base0[Protected(base0)..]] && Collapsed(base0, |base0|, base) &&
        host.Summarizes(base[Protected(base0)], base0) && count == NO_COUNT && left == WithoutReasoning(round)
      ensures r.Ok? ==> r.value == Measured(cannotCount, count, base, left)
      ensures r.Ok? ==> SizeIs(old(cannotCount), cannotCount, count, base, left, r.value)
      ensures r.Ok? ==> host.archived == old(host.archived) + batches
      ensures r.Err? ==> r.error != RoundTooLarge
      ensures host.failed == (old(host.failed) || r.Err?)
    {
      hide Bounded, Collapsed, Measured, Bound, SizeIs;
      base, count, left, batches, first := base0, count0, round, [], 0;
      r := Measure(count, base, left);
      if r.Err? {
        return;
      }
      first := r.value;
      MeasuredIs(old(cannotCount), cannotCount, count, base, left);
      ghost var could := cannotCount;
      if r.value > Threshold(size) && |base| > Protected(base) {
        var c := Collapse(base, |base|);
        if c.Err? {
          return Err(c.error), count, base, left, batches, first;
        }
        assert base[Protected(base)..|base|] == base[Protected(base)..] && base[..|base|] == base;
        batches := [base[Protected(base)..]];
        base, count, left := c.value, NO_COUNT, WithoutReasoning(round);
        r := Measure(count, base, left);
        if r.Err? {
          return;
        }
        MeasuredIs(old(cannotCount), cannotCount, count, base, left);
        SizeStays(old(cannotCount), could, cannotCount, count0, base0, round, first);
      }
    }

    /** The slow path of Fit: collapses the window when the request is over the threshold, and
        trims the round when it is still over the size. `first` is what the request takes, and `t` is the
        trim of the round, from what the request takes then. */
    method Squeeze(count0: Count, base0: seq<Message>, round: seq<Message>)
      returns (r: Result<seq<Message>>, count: Count, ghost base: seq<Message>, ghost batches: seq<seq<Message>>,
               ghost cuts: map<nat, Cut>, ghost log: seq<Kept>, ghost first: nat, ghost t: Trace)
      requires Bounded(meter) && Counts(meter, count0, base0)
      modifies this`cannotCount, host
      ensures r.Ok? ==> meter.tokens(r.value) <= size && base <= r.value
      ensures r.Ok? && batches == [] ==> base == base0 && count == count0 && Trimmed(round, r.value[|base|..], cuts, log)
      ensures r.Ok? && batches != [] ==>
        |base0| > Protected(base0) && batches == [base0[Protected(base0)..]] && Collapsed(base0, |base0|, base) &&
        count == NO_COUNT && Trimmed(WithoutReasoning(round), r.value[|base|..], cuts, log)
      ensures r.Ok? ==> host.archived == old(host.archived) + batches && host.kept == old(host.kept) + log
      ensures r.Ok? || r.error == RoundTooLarge ==>
        SizeIs(old(cannotCount), cannotCount, count0, base0, round, first) &&
        (batches != [] <==> first > Threshold(size) && |base0| > Protected(base0)) &&
        (batches == [] ==> base == base0 && Traced(old(cannotCount), cannotCount, count0, base, round, t, cuts) && t.sizes[0] == first) &&
        (batches != [] ==> Traced(old(cannotCount), cannotCount, NO_COUNT, base, WithoutReasoning(round), t, cuts) &&
                           Collapsed(base0, |base0|, base) && host.Summarizes(base[Protected(base0)], base0))
      ensures r.Ok? ==> t.sizes[|t.at|] <= size
      ensures r == Err(RoundTooLarge) ==>
        t.sizes[|t.at|] > size && NothingLeft(if batches == [] then round else WithoutReasoning(round), cuts)
      ensures host.failed == (old(host.failed) || (r.Err? && r.error != RoundTooLarge))
    {
      hide Bounded, Trimmed, Collapsed, Measured, Bound, SizeIs, Traced, NothingLeft, Threshold, Protected;
      cuts, log, t := map[], [], Trace([map[]], [0], []);
      var n, c, msgs, left, bs, f := MakeRoom(count0, base0, round);
      count, base, batches, first := c, msgs, bs, f;
      if n.Err? {
        return Err(n.error), count, base, batches, cuts, log, first, t;
      }
      ghost var could := cannotCount;
      TrimmedNone(left);
      TracedNone(old(cannotCount), cannotCount, count, msgs, left, n.value);
      t := Trace([map[]], [n.value], []);
      var fitted := left;
      if n.value > size {
        var trimmed, k, l, t' := Trim(count, msgs, left, n.value, old(cannotCount));
        cuts, log, t := k, l, t';
        SizeStays(old(cannotCount), could, cannotCount, count0, base0, round, first);
        if trimmed.Err? {
          return Err(trimmed.error), count, base, batches, cuts, log, first, t;
        }
        fitted := trimmed.value;
      }
      MeasuredIsUpper(count, msgs, fitted);
      assert (msgs + fitted)[|msgs|..] == fitted;
      r := Ok(msgs + fitted);
    }

    lemma SizeStays(before: bool, could: bool, after: bool, count: Count, msgs: seq<Message>, round: seq<Message>, n: nat)
      requires count.messages <= |msgs| && (could ==> after) && SizeIs(before, could, count, msgs, round, n)
      ensures SizeIs(before, after, count, msgs, round, n)
    {
    }

    lemma MeasuredIsUpper(count: Count, msgs: seq<Message>, round: seq<Message>)
      requires Bounded(meter) && Counts(meter, count, msgs)
      ensures meter.tokens(msgs + round) <= Measured(cannotCount, count, msgs, round)
    {
      BoundIsUpper(meter, count, msgs, round);
    }

    /** Appends a complete round. `counted` is the provider's count of the request that the round's
        reply answered, which carried the window as it is; zero is no count. `base` is the window the
        round went to, `batches` what was archived, `cuts` what was cut of the round's results and `log`
        their stored full texts; `first` is what the request took, and `t` the trim. */
    method Fit(round: seq<Message>, counted: nat)
      returns (r: Result<()>, ghost batches: seq<seq<Message>>, ghost cuts: map<nat, Cut>, ghost log: seq<Kept>,
               ghost base: seq<Message>, ghost first: nat, ghost t: Trace)
      requires Valid() && (counted > 0 ==> meter.tokens(msgs) <= counted)
      modifies this, host
      ensures Valid() && (old(Whole()) && Sound(old(msgs) + round) ==> Whole())
      ensures r.Err? ==> msgs == old(msgs) && count == old(count)
      ensures r.Ok? ==> meter.tokens(msgs) <= size
      ensures r.Ok? ==> Fitted(old(msgs), round, msgs, batches, cuts, log)
      ensures r.Ok? ==> host.archived == old(host.archived) + batches && host.kept == old(host.kept) + log
      ensures var next := if counted > 0 then Count(counted, |old(msgs)|) else old(count);
        (r.Ok? ==> count == if batches != [] then NO_COUNT else next) &&
        if Bound(meter, next, old(msgs), round) < Threshold(size) then
          r.Ok? && msgs == old(msgs) + round && batches == [] && cuts == map[] && log == []
        else
          r.Ok? || r.error == RoundTooLarge ==>
            SizeIs(old(cannotCount), cannotCount, next, old(msgs), round, first) &&
            (batches != [] <==> first > Threshold(size) && |old(msgs)| > Protected(old(msgs))) &&
            (batches == [] ==> Traced(old(cannotCount), cannotCount, next, old(msgs), round, t, cuts) && t.sizes[0] == first) &&
            (batches != [] ==> Traced(old(cannotCount), cannotCount, NO_COUNT, base, WithoutReasoning(round), t, cuts) &&
                               Collapsed(old(msgs), |old(msgs)|, base) && host.Summarizes(base[Protected(old(msgs))], old(msgs))) &&
            (r.Ok? <==> t.sizes[|t.at|] <= size) && (cuts == map[] <==> t.at == [])
      ensures r == Err(RoundTooLarge) ==> NothingLeft(if batches == [] then round else WithoutReasoning(round), cuts)
      ensures host.failed == (old(host.failed) || (r.Err? && r.error != RoundTooLarge))
    {
      hide Bounded, Trimmed, Sound, Collapsed, Bound, SizeIs, NothingLeft, Traced, Fitted, Threshold, Protected;
      batches, cuts, log, base, first, t := [], map[], [], msgs, 0, Trace([map[]], [0], []);
      ghost var before := msgs;
      var next := NextCount(count, counted, |msgs|);
      NextCountKeeps(counted);
      if Bound(meter, next, msgs, round) < Threshold(size) {
        FitsWhole(before, round, cuts, log);
        FitKeeps(before, round, msgs + round, batches, cuts, log, next);
        BoundIsUpper(meter, next, msgs, round);
        msgs, count := msgs + round, next;
        return Ok(()), batches, cuts, log, base, first, t;
      }
      var s, c, b, bs, k, l, f, t' := Squeeze(next, msgs, round);
      base, batches, cuts, log, first, t := b, bs, k, l, f, t';
      if s.Ok? || s.error == RoundTooLarge {
        TracedCut(old(cannotCount), cannotCount, if batches == [] then next else NO_COUNT, base,
                  if batches == [] then round else WithoutReasoning(round), t, cuts);
      }
      if s.Err? {
        return Err(s.error), batches, cuts, log, base, first, t;
      }
      SqueezedFits(before, round, s.value, base, batches, cuts, log);
      FitKeeps(before, round, s.value, batches, cuts, log, next);
      msgs, count := s.value, c;
      r := Ok(());
    }

    lemma FitsWhole(before: seq<Message>, round: seq<Message>, cuts: map<nat, Cut>, log: seq<Kept>)
      requires cuts == map[] && log == []
      ensures Fitted(before, round, before + round, [], cuts, log)
    {
      hide Trimmed;
      TrimmedNone(round);
      assert (before + round)[|before|..] == round;
    }

    lemma SqueezedFits(before: seq<Message>, round: seq<Message>, after: seq<Message>, base: seq<Message>,
                       batches: seq<seq<Message>>, cuts: map<nat, Cut>, log: seq<Kept>)
      requires base <= after
      requires batches == [] ==> base == before && Trimmed(round, after[|base|..], cuts, log)
      requires batches != [] ==> batches == [before[Protected(before)..]] && Collapsed(before, |before|, base) &&
                                 Trimmed(WithoutReasoning(round), after[|base|..], cuts, log)
      ensures Fitted(before, round, after, batches, cuts, log)
    {
      hide Trimmed, Collapsed;
    }

    lemma TracedCut(before: bool, after: bool, count: Count, msgs: seq<Message>, round: seq<Message>, t: Trace, cuts: map<nat, Cut>)
      requires count.messages <= |msgs| && Traced(before, after, count, msgs, round, t, cuts)
      ensures |t.sizes| == |t.at| + 1 && (cuts == map[] <==> t.at == [])
    {
      hide SizeIs;
      PassesSizes(round, size, t, cuts);
      PassesCut(round, size, t, cuts);
    }

    lemma NextCountKeeps(counted: nat)
      requires Valid() && (counted > 0 ==> meter.tokens(msgs) <= counted)
      ensures Counts(meter, NextCount(count, counted, |msgs|), msgs)
      ensures Whole() ==> Complete(msgs[..NextCount(count, counted, |msgs|).messages])
    {
      assert msgs[..|msgs|] == msgs;
    }

    /** What a commit of a round leaves is counted as it says, and sound when it was. */
    lemma FitKeeps(before: seq<Message>, round: seq<Message>, after: seq<Message>, batches: seq<seq<Message>>,
                   cuts: map<nat, Cut>, log: seq<Kept>, next: Count)
      requires Fitted(before, round, after, batches, cuts, log) && Counts(meter, next, before)
      requires batches != [] ==> before != []
      ensures batches == [] ==> Counts(meter, next, after) && after[..next.messages] == before[..next.messages]
      ensures Sound(before) && Sound(before + round) ==> Sound(after)
    {
      hide Trimmed, Sound, Collapsed, Counts;
      var base: seq<Message> :| base <= after &&
        if batches == [] then base == before && Trimmed(round, after[|base|..], cuts, log)
        else batches == [before[Protected(before)..]] && Collapsed(before, |before|, base) &&
             Trimmed(WithoutReasoning(round), after[|base|..], cuts, log);
      assert after == base + after[|base|..];
      if batches == [] { CountsAppend(meter, next, before, after[|base|..]); }
      if Sound(before) && Sound(before + round) {
        SoundParts(before, round);
        if batches == [] {
          AppendKeeps(before, round, after[|base|..], cuts, log);
        } else {
          CollapsedThenRound(before, base, round);
          AppendKeeps(base, WithoutReasoning(round), after[|base|..], cuts, log);
        }
      }
    }

    lemma SoundParts(before: seq<Message>, round: seq<Message>)
      requires Sound(before) && Sound(before + round)
      ensures Complete(before) && Complete(round)
    {
      CompleteAppend(before, round);
    }

    /** Collapses after the provider refused a request: what the last counted request carried, or
        everything when that is no more than the protected prefix. */
    method Refit() returns (r: Result<()>)
      requires Valid()
      modifies this, host`archived, host`searchable, host`written, host`failed
      ensures Valid() && (old(Whole()) ==> Whole())
      ensures r.Err? ==> msgs == old(msgs) && count == old(count)
      ensures host.failed == (old(host.failed) || (r.Err? && r.error != NothingToCollapse))
      ensures r == Err(NothingToCollapse) <==> |old(msgs)| == Protected(old(msgs))
      ensures r.Ok? ==>
        count == NO_COUNT && Collapsed(old(msgs), RefitEnd(old(msgs), old(count)), msgs) &&
        host.Summarizes(msgs[Protected(old(msgs))], old(msgs)[..RefitEnd(old(msgs), old(count))])
      ensures r.Ok? ==>
        host.archived == old(host.archived) +
          [old(msgs)[Protected(old(msgs))..
             if old(count).messages > Protected(old(msgs)) then old(count).messages else |old(msgs)|]]
    {
      var end := RefitEnd(msgs, count);
      if end <= Protected(msgs) {
        return Err(NothingToCollapse);
      }
      var c := Collapse(msgs, end);
      if c.Err? {
        return Err(c.error);
      }
      assert msgs[..|msgs|] == msgs;
      if Whole() { CollapsedExactly(msgs, end, c.value); }
      msgs, count := c.value, NO_COUNT;
      r := Ok(());
    }

    /** Appends a round as it is, for a round whose effect replaces the window next. */
    method Add(round: seq<Message>)
      requires Valid()
      modifies this`msgs
      ensures Valid() && msgs == old(msgs) + round
      ensures old(Whole()) && Sound(old(msgs) + round) ==> Whole()
    {
      CountsAppend(meter, count, msgs, round);
      msgs := msgs + round;
    }

    /** Sets the window to the first user message and the plan document. */
    method InstallPlan(plan: Bytes) returns (r: Result<()>)
      requires Valid() && msgs != []
      modifies this`msgs, this`count
      ensures Valid() && (StartsWithUser(old(msgs)) && r.Ok? ==> Whole())
      ensures r.Err? <==> plan == ""
      ensures r.Err? ==> r.error == NoPlan && msgs == old(msgs) && count == old(count)
      ensures r.Ok? ==> |msgs| == 2 && msgs[0] == old(msgs)[0] && msgs[1].role == Developer && msgs[1].content == PLAN_PREFIX + plan
      ensures r.Ok? ==> msgs[1] == PlanDocument(plan) && count == NO_COUNT
    {
      if plan == "" {
        return Err(NoPlan);
      }
      if StartsWithUser(msgs) { DevelopersSound(msgs[0], [PlanDocument(plan)]); }
      msgs, count := [msgs[0], PlanDocument(plan)], NO_COUNT;
      r := Ok(());
    }

    /** Archives the window after the first user message, and replaces it with that message, the
        plan document, the handoff the model writes and, while todos are open, a nudge. */
    method HandOff(plan: Bytes, open: bool) returns (r: Result<()>)
      requires Valid() && msgs != []
      modifies this`msgs, this`count, host`archived, host`searchable, host`written, host`failed
      ensures Valid() && (StartsWithUser(old(msgs)) && r.Ok? ==> Whole())
      ensures r.Err? ==> msgs == old(msgs) && count == old(count)
      ensures host.failed == (old(host.failed) || r.Err?)
      ensures r.Ok? ==> host.archived == old(host.archived) + [old(msgs)[1..]] && count == NO_COUNT
      ensures r.Ok? ==> |host.written| == |old(host.written)| + 1 && host.written[|old(host.written)|].0 == old(msgs)
      ensures r.Ok? ==> var text := host.written[|old(host.written)|].1;
        msgs == [old(msgs)[0]] + (if plan != "" then [PlanDocument(plan)] else []) + [Plain(Developer, text)] +
                (if open then [Plain(Developer, NUDGE)] else [])
    {
      hide Sound, Complete, Bounded, PlanDocument;
      var kept := host.Archive(msgs[1..]);
      if kept.Err? {
        return Err(kept.error);
      }
      var handoff := host.Write(msgs);
      if handoff.Err? {
        return Err(handoff.error);
      }
      var rest := (if plan != "" then [PlanDocument(plan)] else []) + [Plain(Developer, handoff.value)] +
                  (if open then [Plain(Developer, NUDGE)] else []);
      RoleOfPlan(plan);
      if StartsWithUser(msgs) { DevelopersSound(msgs[0], rest); }
      msgs, count := [msgs[0]] + rest, NO_COUNT;
      r := Ok(());
    }
  }

  /** Where Refit cuts: the end of the last counted request, or the whole window. */
  function RefitEnd(msgs: seq<Message>, count: Count): (end: nat)
    requires count.messages <= |msgs|
    ensures Protected(msgs) <= end <= |msgs|
  {
    if count.messages <= Protected(msgs) then |msgs| else count.messages
  }

  lemma {:induction false} DevelopersComplete(rest: seq<Message>)
    requires forall m :: m in rest ==> m.role == Developer
    ensures Complete(rest)
  {
    if rest != [] {
      CompleteHead(rest[0]);
      DevelopersComplete(rest[1..]);
      assert rest == [rest[0]] + rest[1..];
      CompleteAppend([rest[0]], rest[1..]);
    }
  }

  lemma RoleOfPlan(plan: Bytes)
    ensures PlanDocument(plan).role == Developer
  {
  }

  lemma DevelopersSound(first: Message, rest: seq<Message>)
    requires first.role == User && forall m :: m in rest ==> m.role == Developer
    ensures Sound([first] + rest) && Complete(([first] + rest)[..0])
  {
    CompleteHead(first);
    DevelopersComplete(rest);
    CompleteAppend([first], rest);
  }

  // ---------------------------------------------------------------------------------------------
  // Nothing is lost
  // ---------------------------------------------------------------------------------------------

  /** m is in after, as it was or with its result cut and its full text stored. */
  ghost predicate Survives(m: Message, after: seq<Message>, log: seq<Kept>) {
    m in after ||
    exists cut: Cut, k: Kept :: k in log && k == Kept(m.toolCallId, m.content, cut.path) &&
      cut.keep <= |m.content| && CutTo(m, cut) in after
  }

  lemma TrimmedConserves(round: seq<Message>, after: seq<Message>, cuts: map<nat, Cut>, log: seq<Kept>, m: Message)
    requires Trimmed(round, after, cuts, log) && m in round
    ensures Survives(m, after, log)
  {
    var i :| 0 <= i < |round| && round[i] == m;
    assert |after| == |round|;
    if i in cuts {
      var order :| Orders(order, cuts) && log == KeptOf(round, cuts, order);
      var j :| 0 <= j < |order| && order[j] == i;
      assert log[j] == Kept(m.toolCallId, m.content, cuts[i].path) && log[j] in log;
      assert after[i] == CutTo(m, cuts[i]) && after[i] in after;
    } else {
      assert after[i] == m;
    }
  }

  /** After a commit, every message of the old window and of the round that is not reasoning is in
      the new window (whole, or cut with its full text stored) or was handed to the archive. */
  lemma FitConserves(before: seq<Message>, round: seq<Message>, after: seq<Message>,
                     batches: seq<seq<Message>>, cuts: map<nat, Cut>, log: seq<Kept>, m: Message)
    requires Fitted(before, round, after, batches, cuts, log) && m in before + round && m.role != Reasoning
    ensures Survives(m, after, log) || (batches != [] && m in batches[0])
  {
    hide Trimmed, Survives, Collapsed, Protected, WithoutReasoning;
    var base: seq<Message> :| base <= after &&
      if batches == [] then base == before && Trimmed(round, after[|base|..], cuts, log)
      else batches == [before[Protected(before)..]] && Collapsed(before, |before|, base) &&
           Trimmed(WithoutReasoning(round), after[|base|..], cuts, log);
    var tail := after[|base|..];
    assert after == base + tail;
    if m in round {
      TrimmedConserves(if batches == [] then round else WithoutReasoning(round), tail, cuts, log, m);
      SurvivesIn(m, tail, base, log);
    } else if batches == [] {
      SurvivesWhole(m, after, log);
    } else {
      assert before[Protected(before)..|before|] == before[Protected(before)..];
      RefitConserves(before, |before|, base, m);
      if m in base {
        assert m in after;
        SurvivesWhole(m, after, log);
      }
    }
  }

  lemma SurvivesIn(m: Message, tail: seq<Message>, base: seq<Message>, log: seq<Kept>)
    requires Survives(m, tail, log)
    ensures Survives(m, base + tail, log)
  {
  }

  lemma SurvivesWhole(m: Message, after: seq<Message>, log: seq<Kept>)
    requires m in after
    ensures Survives(m, after, log)
  {
  }

  /** v is m, or m with its result cut and its full text in log. */
  ghost predicate Version(m: Message, v: Message, log: seq<Kept>) {
    v == m || exists cut: Cut, k: Kept :: k in log && k == Kept(m.toolCallId, m.content, cut.path) && cut.keep <= |m.content| && v == CutTo(m, cut)
  }

  /** m, whole or cut, is in msgs or in a batch that was archived. */
  ghost predicate Saved(m: Message, msgs: seq<Message>, batches: seq<seq<Message>>, log: seq<Kept>) {
    exists v: Message :: Version(m, v, log) && InEither(v, msgs, batches)
  }

  ghost predicate InEither(v: Message, msgs: seq<Message>, batches: seq<seq<Message>>) {
    v in msgs || exists b :: b in batches && v in b
  }

  /** No message of before but reasoning is neither in after nor in a batch. */
  ghost predicate NoneLost(before: seq<Message>, after: seq<Message>, batches: seq<seq<Message>>) {
    forall m :: m in before && m.role != Reasoning ==> InEither(m, after, batches)
  }

  ghost predicate AllSaved(ms: seq<Message>, after: seq<Message>, batches: seq<seq<Message>>, log: seq<Kept>) {
    forall m :: m in ms && m.role != Reasoning ==> Saved(m, after, batches, log)
  }

  lemma FitSaves(before: seq<Message>, round: seq<Message>, after: seq<Message>,
                 batches: seq<seq<Message>>, cuts: map<nat, Cut>, log: seq<Kept>)
    requires Fitted(before, round, after, batches, cuts, log)
    ensures NoneLost(before, after, batches) && AllSaved(round, after, batches, log)
  {
    hide Fitted, Survives;
    forall m | m in round && m.role != Reasoning ensures Saved(m, after, batches, log) {
      FitConserves(before, round, after, batches, cuts, log, m);
      SurvivesSaved(m, after, batches, log);
    }
    forall m | m in before && m.role != Reasoning ensures InEither(m, after, batches) {
      FitKeepsOld(before, round, after, batches, cuts, log, m);
    }
  }

  lemma SurvivesSaved(m: Message, after: seq<Message>, batches: seq<seq<Message>>, log: seq<Kept>)
    requires Survives(m, after, log) || (batches != [] && m in batches[0])
    ensures Saved(m, after, batches, log)
  {
    assert Version(m, m, log);
    if m in after || (batches != [] && m in batches[0]) {
      assert InEither(m, after, batches);
    } else {
      var cut: Cut, k: Kept :| k in log && k == Kept(m.toolCallId, m.content, cut.path) && cut.keep <= |m.content| && CutTo(m, cut) in after;
      assert Version(m, CutTo(m, cut), log) && InEither(CutTo(m, cut), after, batches);
    }
  }

  lemma FitKeepsOld(before: seq<Message>, round: seq<Message>, after: seq<Message>,
                    batches: seq<seq<Message>>, cuts: map<nat, Cut>, log: seq<Kept>, m: Message)
    requires Fitted(before, round, after, batches, cuts, log) && m in before && m.role != Reasoning
    ensures InEither(m, after, batches)
  {
    hide Trimmed, Collapsed;
    var base: seq<Message> :| base <= after &&
      if batches == [] then base == before && Trimmed(round, after[|base|..], cuts, log)
      else batches == [before[Protected(before)..]] && Collapsed(before, |before|, base) &&
           Trimmed(WithoutReasoning(round), after[|base|..], cuts, log);
    if batches != [] {
      assert before[Protected(before)..|before|] == before[Protected(before)..] && batches[0] in batches;
      RefitConserves(before, |before|, base, m);
    }
  }

  /** What was saved stays saved through a step that loses nothing. */
  lemma SavedOn(m: Message, before: seq<Message>, after: seq<Message>, b1: seq<seq<Message>>, l1: seq<Kept>,
                b2: seq<seq<Message>>, l2: seq<Kept>)
    requires Saved(m, before, b1, l1) && m.role != Reasoning && NoneLost(before, after, b2)
    ensures Saved(m, after, b1 + b2, l1 + l2)
  {
    hide Version;
    var v: Message :| Version(m, v, l1) && InEither(v, before, b1);
    VersionMore(m, v, l1, l2);
    assert InEither(v, after, b1 + b2) by {
      if v in before {
        assert v.role != Reasoning by { VersionRole(m, v, l1); }
        if v !in after {
          var b :| b in b2 && v in b;
          assert b in b1 + b2;
        }
      } else {
        var b :| b in b1 && v in b;
        assert b in b1 + b2;
      }
    }
  }

  lemma VersionMore(m: Message, v: Message, l1: seq<Kept>, l2: seq<Kept>)
    requires Version(m, v, l1) || Version(m, v, l2)
    ensures Version(m, v, l1 + l2)
  {
    if v != m {
      var cut: Cut, k: Kept :| (k in l1 || k in l2) && k == Kept(m.toolCallId, m.content, cut.path) && cut.keep <= |m.content| && v == CutTo(m, cut);
      assert k in l1 + l2;
    }
  }

  lemma VersionRole(m: Message, v: Message, log: seq<Kept>)
    requires Version(m, v, log)
    ensures v.role == m.role
  {
  }

  lemma AllSavedOn(ms: seq<Message>, before: seq<Message>, after: seq<Message>, b1: seq<seq<Message>>, l1: seq<Kept>,
                   b2: seq<seq<Message>>, l2: seq<Kept>)
    requires AllSaved(ms, before, b1, l1) && NoneLost(before, after, b2)
    ensures AllSaved(ms, after, b1 + b2, l1 + l2)
  {
    hide Saved, NoneLost;
    forall m | m in ms && m.role != Reasoning ensures Saved(m, after, b1 + b2, l1 + l2) {
      SavedOn(m, before, after, b1, l1, b2, l2);
    }
  }

  lemma SavedHere(ms: seq<Message>, after: seq<Message>, batches: seq<seq<Message>>, log: seq<Kept>)
    requires NoneLost(ms, after, batches)
    ensures AllSaved(ms, after, batches, log)
  {
    forall m | m in ms && m.role != Reasoning ensures Saved(m, after, batches, log) {
      assert Version(m, m, log);
    }
  }

  /** A handoff archives everything after the first message, which stays. */
  lemma HandOffSaves(before: seq<Message>, after: seq<Message>)
    requires before != [] && after != [] && after[0] == before[0]
    ensures NoneLost(before, after, [before[1..]])
  {
    assert before == [before[0]] + before[1..] && before[1..] in [before[1..]];
  }

  lemma RefitSaves(before: seq<Message>, end: nat, after: seq<Message>)
    requires Protected(before) <= end <= |before| && Collapsed(before, end, after)
    ensures NoneLost(before, after, [before[Protected(before)..end]])
  {
    hide Collapsed;
    assert before[Protected(before)..end] in [before[Protected(before)..end]];
    forall m | m in before && m.role != Reasoning ensures InEither(m, after, [before[Protected(before)..end]]) {
      RefitConserves(before, end, after, m);
    }
  }

  /** The same for a collapse that keeps what follows the last counted request. */
  lemma RefitConserves(before: seq<Message>, end: nat, after: seq<Message>, m: Message)
    requires Collapsed(before, end, after) && m in before && m.role != Reasoning
    ensures m in after || m in before[Protected(before)..end]
  {
    var keep := Protected(before);
    assert before == before[..keep] + before[keep..end] + before[end..];
  }

  /** A cut never splits a character of a result that is well-formed UTF-8. */
  lemma CutsAreWellFormed(round: seq<Message>, cuts: map<nat, Cut>, i: nat)
    requires ValidCuts(round, cuts) && i in cuts && WellFormed(round[i].content)
    ensures WellFormed(round[i].content[..cuts[i].keep])
  {
    AlignedPrefix(round[i].content, cuts[i].keep);
  }

  lemma Shrinks(left: nat, size: nat, n: nat)
    requires left > 0 && n > size
    ensures left * size / n < left
  {
    assert left * size < left * n;
    DivisionBelow(left * size, left, n);
  }

  lemma DivisionBelow(x: nat, q: nat, n: nat)
    requires n > 0 && x < q * n
    ensures x / n < q
  {
    assert x == (x / n) * n + x % n;
    assert (x / n) * n < q * n;
    assert (x / n - q) * n < 0;
  }

  // ---------------------------------------------------------------------------------------------
  // What is never collapsed
  // ---------------------------------------------------------------------------------------------

  /** Two messages when the second one's content starts as a plan's does, whoever wrote it; else the first. */
  lemma ProtectedIs(msgs: seq<Message>)
    ensures Protected(msgs) ==
      if msgs == [] then 0
      else if |msgs| > 1 && |msgs[1].content| >= |PLAN_PREFIX| && msgs[1].content[..|PLAN_PREFIX|] == PLAN_PREFIX then 2 else 1
  {
  }

  /** A collapse keeps the first message and an installed plan in their places, and the summary comes next. */
  lemma CollapseKeepsPlan(before: seq<Message>, end: nat, after: seq<Message>, plan: Bytes)
    requires Collapsed(before, end, after) && before != []
    ensures |after| > 1 && after[0] == before[0]
    ensures |before| > 1 && before[1].role == Developer && before[1].content == PLAN_PREFIX + plan ==>
      |after| > 2 && after[1] == before[1] && SUMMARY_PREFIX <= after[2].content
    ensures |before| == 1 || |before[1].content| < |PLAN_PREFIX| || before[1].content[..|PLAN_PREFIX|] != PLAN_PREFIX ==>
      SUMMARY_PREFIX <= after[1].content
  {
    ProtectedIs(before);
    var text: Bytes, kept: bool :|
      after == before[..Protected(before)] + [Summary(text, kept)] + WithoutReasoning(before[end..]);
    if |before| > 1 && before[1].content == PLAN_PREFIX + plan {
      assert before[1].content[..|PLAN_PREFIX|] == PLAN_PREFIX;
    }
  }

  /** Whatever a commit of a round does to the window, an installed plan stays its second message. */
  lemma FitKeepsPlan(before: seq<Message>, round: seq<Message>, after: seq<Message>, batches: seq<seq<Message>>,
                     cuts: map<nat, Cut>, log: seq<Kept>, plan: Bytes)
    requires Fitted(before, round, after, batches, cuts, log)
    requires |before| > 1 && before[1].role == Developer && before[1].content == PLAN_PREFIX + plan
    ensures |after| > 1 && after[0] == before[0] && after[1] == before[1]
  {
    hide Trimmed, Collapsed;
    var base: seq<Message> :| base <= after &&
      if batches == [] then base == before && Trimmed(round, after[|base|..], cuts, log)
      else batches == [before[Protected(before)..]] && Collapsed(before, |before|, base) &&
           Trimmed(WithoutReasoning(round), after[|base|..], cuts, log);
    if batches != [] { CollapseKeepsPlan(before, |before|, base, plan); }
  }
}
