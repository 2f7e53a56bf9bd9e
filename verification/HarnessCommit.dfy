/** The Commit step (durable_steps.go, Commit; agent.go, commitRound and applyEffect; model_tasks.go,
    handoff): the only step that changes a session, over its window and its committed state. */
module HarnessCommit {
  import opened Messages
  import opened Sequences
  import opened ContextWindow
  import opened WindowTrim
  import opened Window
  import opened Plan
  import opened CallState
  import opened RoundCommit

  /** What one Commit writes: host state, a round, then user messages, each a round of its own; and
      whether to collapse after that. */
  datatype CommitIn<V, R> = CommitIn(state: map<string, V>, round: Option<Round<R>>, users: seq<Message>, collapse: bool)

  datatype Outcome = Done | Cancelled | NoBody | Unsupported | Failed(error: Error)

  /** A message a user sends. */
  predicate FromUser(m: Message) {
    m.role == User && m.calls == []
  }

  /** A round's reply, as the model gives it. */
  predicate FromReply<R>(r: Round<R>) {
    OfReply(r) && FromModel(r.reply)
  }

  lemma UserSound(before: seq<Message>, user: Message)
    requires Sound(before) && FromUser(user)
    ensures Sound(before + [user])
  {
    CompleteOne(user);
    CompleteAppend(before, [user]);
    if before == [] { assert before + [user] == [user]; }
  }

  lemma SoundStarts(msgs: seq<Message>)
    ensures Sound(msgs) ==> StartsWithUser(msgs)
  {
  }

  /** A round of a reply, with its results, can follow any window, unless its reply becomes what a
      collapse keeps, reads as a plan document and has calls. */
  lemma ReplyRound<R>(before: seq<Message>, r: Round<R>)
    requires FromReply(r)
    ensures Complete(r.reply.messages + Results(r.calls))
    ensures before != [] && Sound(before) ==>
      (Sound(before + (r.reply.messages + Results(r.calls))) <==> !PlanCalls(before + r.reply.messages))
  {
    RoundIsComplete(r);
    var round := r.reply.messages + Results(r.calls);
    if before != [] && Sound(before) {
      CompleteAppend(before, round);
      assert (before + round)[0] == before[0];
      if |before| == 1 && round != [] {
        assert |WireIds(r.reply.calls)| == |r.calls| == |Results(r.calls)|;
        assert (before + round)[1] == round[0] == r.reply.messages[0] == (before + r.reply.messages)[1];
      } else if |before| > 1 {
        assert (before + round)[1] == before[1] == (before + r.reply.messages)[1];
      }
    }
  }

  lemma FittedSome(before: seq<Message>, round: seq<Message>, after: seq<Message>, batches: seq<seq<Message>>,
                   cuts: map<nat, Cut>, log: seq<Kept>)
    requires Fitted(before, round, after, batches, cuts, log) && before + round != []
    ensures after != []
  {
    var base: seq<Message> :| base <= after &&
      if batches == [] then base == before && Trimmed(round, after[|base|..], cuts, log)
      else batches == [before[Protected(before)..]] && Collapsed(before, |before|, base) &&
           Trimmed(WithoutReasoning(round), after[|base|..], cuts, log);
    if batches == [] { assert |after[|base|..]| == |round|; }
  }

  lemma AddedSaved(before: seq<Message>, round: seq<Message>, after: seq<Message>, batches: seq<seq<Message>>)
    requires NoneLost(before + round, after, batches)
    ensures NoneLost(before, after, batches) && AllSaved(round, after, batches, [])
  {
    SavedHere(round, after, batches, []);
  }

  lemma RoundIsSaved<R>(r: Round<R>, round: seq<Message>, msgs: seq<Message>, batches: seq<seq<Message>>, log: seq<Kept>)
    requires OfReply(r) && IsRound(r, round) && AllSaved(round, msgs, batches, log)
    ensures RoundSaved(r, msgs, batches, log)
  {
    hide Saved;
    var n := |r.reply.messages|;
    forall m | m in r.reply.messages ensures m in round { assert m in round[..n]; }
    forall i | 0 <= i < |r.calls| ensures CallSaved(r.calls[i], msgs, batches, log) {
      var m := round[n + i];
      assert m in round && Answers(r.calls[i], m) && Ran(r.calls[i]);
      assert m.role == Tool && Saved(m, msgs, batches, log);
    }
  }

  lemma RoundSavedOn<R>(r: Round<R>, before: seq<Message>, after: seq<Message>, b1: seq<seq<Message>>, l1: seq<Kept>,
                        b2: seq<seq<Message>>, l2: seq<Kept>)
    requires RoundSaved(r, before, b1, l1) && NoneLost(before, after, b2)
    ensures RoundSaved(r, after, b1 + b2, l1 + l2)
  {
    hide Saved, NoneLost, AllSaved, Answers, CallSaved;
    AllSavedOn(r.reply.messages, before, after, b1, l1, b2, l2);
    forall i | 0 <= i < |r.calls| ensures CallSaved(r.calls[i], after, b1 + b2, l1 + l2) {
      CallSavedOn(r.calls[i], before, after, b1, l1, b2, l2);
    }
  }

  lemma CallSavedOn<R>(c: Call<R>, before: seq<Message>, after: seq<Message>, b1: seq<seq<Message>>, l1: seq<Kept>,
                       b2: seq<seq<Message>>, l2: seq<Kept>)
    requires CallSaved(c, before, b1, l1) && NoneLost(before, after, b2)
    ensures CallSaved(c, after, b1 + b2, l1 + l2)
  {
    hide Saved, NoneLost, Answers;
    var m: Message :| m.role == Tool && Answers(c, m) && Saved(m, before, b1, l1);
    SavedOn(m, before, after, b1, l1, b2, l2);
  }

  lemma NothingLost(msgs: seq<Message>)
    ensures NoneLost(msgs, msgs, [])
  {
  }

  /** Two steps that lose nothing lose nothing together. */
  lemma NoneLostOn(a: seq<Message>, b: seq<Message>, c: seq<Message>, b1: seq<seq<Message>>, b2: seq<seq<Message>>)
    requires NoneLost(a, b, b1) && NoneLost(b, c, b2)
    ensures NoneLost(a, c, b1 + b2)
  {
    forall m | m in a && m.role != Reasoning ensures InEither(m, c, b1 + b2) {
      EitherOn(m, b, c, b1, b2);
    }
  }

  lemma EitherOn(m: Message, b: seq<Message>, c: seq<Message>, b1: seq<seq<Message>>, b2: seq<seq<Message>>)
    requires InEither(m, b, b1) && m.role != Reasoning && NoneLost(b, c, b2)
    ensures InEither(m, c, b1 + b2)
  {
    if m in b {
      assert InEither(m, c, b2);
      if m !in c {
        var x :| x in b2 && m in x;
        assert x in b1 + b2;
      }
    } else {
      var x :| x in b1 && m in x;
      assert x in b1 + b2;
    }
  }

  lemma NoUsersSaved(users: seq<Message>, msgs: seq<Message>, batches: seq<seq<Message>>, log: seq<Kept>)
    ensures AllSaved(users[..0], msgs, batches, log)
  {
  }

  lemma StepSaved(users: seq<Message>, i: nat, first: seq<Message>, before: seq<Message>, after: seq<Message>,
                  b1: seq<seq<Message>>, l1: seq<Kept>, b2: seq<seq<Message>>, l2: seq<Kept>)
    requires i < |users| && NoneLost(before, after, b2) && AllSaved([users[i]], after, b2, l2)
    requires NoneLost(first, before, b1) && AllSaved(users[..i], before, b1, l1)
    ensures NoneLost(first, after, b1 + b2) && AllSaved(users[..i + 1], after, b1 + b2, l1 + l2)
  {
    hide AllSaved, NoneLost;
    NoneLostOn(first, before, after, b1, b2);
    AllSavedOn(users[..i], before, after, b1, l1, b2, l2);
    MoreSaved([users[i]], after, b1, l1, b2, l2);
    BothSaved(users, i, after, b1 + b2, l1 + l2);
  }

  /** More batches and texts save no less. */
  lemma MoreSaved(ms: seq<Message>, msgs: seq<Message>, b1: seq<seq<Message>>, l1: seq<Kept>, b2: seq<seq<Message>>, l2: seq<Kept>)
    requires AllSaved(ms, msgs, b2, l2)
    ensures AllSaved(ms, msgs, b1 + b2, l1 + l2)
  {
    hide Saved;
    forall m | m in ms && m.role != Reasoning ensures Saved(m, msgs, b1 + b2, l1 + l2) {
      SavedMore(m, msgs, b1, l1, b2, l2);
    }
  }

  lemma SavedMore(m: Message, msgs: seq<Message>, b1: seq<seq<Message>>, l1: seq<Kept>, b2: seq<seq<Message>>, l2: seq<Kept>)
    requires Saved(m, msgs, b2, l2)
    ensures Saved(m, msgs, b1 + b2, l1 + l2)
  {
    hide Version;
    var v: Message :| Version(m, v, l2) && InEither(v, msgs, b2);
    VersionMore(m, v, l1, l2);
    if v !in msgs {
      var b :| b in b2 && v in b;
      assert b in b1 + b2;
    }
    assert InEither(v, msgs, b1 + b2);
  }

  lemma BothSaved(ms: seq<Message>, i: nat, msgs: seq<Message>, batches: seq<seq<Message>>, log: seq<Kept>)
    requires i < |ms| && AllSaved(ms[..i], msgs, batches, log) && AllSaved([ms[i]], msgs, batches, log)
    ensures AllSaved(ms[..i + 1], msgs, batches, log)
  {
    hide Saved;
    assert ms[..i + 1] == ms[..i] + [ms[i]];
  }

  class Harness<V(!new), R> {
    const window: Window
    const session: SessionManager<V, R>
    const env: Env<V, R>

    constructor (window: Window, session: SessionManager<V, R>, env: Env<V, R>)
      ensures this.window == window && this.session == session && this.env == env
    {
      this.window, this.session, this.env := window, session, env;
    }

    method CountOpen() returns (open: nat)
      ensures open > 0 <==> session.plan.board.todos.Some? && !AllDone(session.plan.board.todos.value)
    {
      open := 0;
      var todos := session.plan.board.todos;
      if todos.None? {
        return;
      }
      for i := 0 to |todos.value|
        invariant open > 0 <==> !AllDone(todos.value[..i])
      {
        assert todos.value[..i + 1] == todos.value[..i] + [todos.value[i]];
        assert AllDone(todos.value[..i + 1]) <==> AllDone(todos.value[..i]) && todos.value[i].status == COMPLETED by {
          if AllDone(todos.value[..i + 1]) {
            forall k | 0 <= k < i ensures todos.value[..i][k].status == COMPLETED { assert todos.value[..i + 1][k] == todos.value[..i][k]; }
            assert todos.value[..i + 1][i].status == COMPLETED;
          }
        }
        if todos.value[i].status != COMPLETED {
          open := open + 1;
        }
      }
      assert todos.value[..|todos.value|] == todos.value;
    }

    /** Replaces the window by the plan document, or by the handoff. */
    method ApplyEffect(effect: Effect) returns (r: Outcome, ghost batches: seq<seq<Message>>)
      requires window.Valid() && window.msgs != [] && effect != NoEffect
      modifies window, window.host
      ensures window.Valid() && window.msgs != [] && (old(window.Whole()) ==> window.Whole())
      ensures r == Done || r.Failed?
      ensures r.Failed? ==> window.msgs == old(window.msgs)
      ensures effect == InstallPlan && r == Done ==>
        |window.msgs| == 2 && window.msgs[0] == old(window.msgs)[0] && window.msgs[1].role == Developer &&
        window.msgs[1].content == PLAN_PREFIX + session.plan.board.document
      ensures effect == HandOff && r == Done ==>
        batches == [old(window.msgs)[1..]] && window.host.archived == old(window.host.archived) + batches &&
        window.host.kept == old(window.host.kept) && NoneLost(old(window.msgs), window.msgs, batches)
      ensures effect == HandOff && r == Done ==> IsHandOff(old(window.msgs)[0])
    {
      hide Bounded, Sound, Complete, PlanDocument;
      SoundStarts(window.msgs);
      batches := [];
      if effect == HandOff {
        batches := [window.msgs[1..]];
        var open := CountOpen();
        var h := window.HandOff(session.plan.board.document, open > 0);
        if h.Err? {
          return Failed(h.error), batches;
        }
        HandOffSaves(old(window.msgs), window.msgs);
        return Done, batches;
      }
      var p := window.InstallPlan(session.plan.board.document);
      r := if p.Err? then Failed(p.error) else Done;
    }

    /** The window is its first message, the plan document when there is one, the handoff the model
        wrote, and a nudge while a todo is open. */
    ghost predicate IsHandOff(first: Message)
      reads window, window.host, session, session.plan
    {
      var plan, todos, w := session.plan.board.document, session.plan.board.todos, window.host.written;
      w != [] &&
      window.msgs == [first] + (if plan != "" then [PlanDocument(plan)] else []) + [Plain(Developer, w[|w| - 1].1)] +
        if todos.Some? && exists t :: t in todos.value && t.status != COMPLETED then [Plain(Developer, NUDGE)] else []
    }

    /** Appends one complete round. A round without an effect is fitted, or changes nothing. A round
        with one goes in as it is, and the effect then replaces the window, or leaves it with the
        round. `batches` is what was archived and `log` the full texts of cut results. */
    method CommitRound(round: seq<Message>, effect: Effect, counted: nat)
      returns (r: Outcome, ghost batches: seq<seq<Message>>, ghost log: seq<Kept>)
      requires window.Valid() && window.msgs + round != []
      requires counted > 0 ==> window.meter.tokens(window.msgs) <= counted
      modifies window, window.host
      ensures window.Valid() && (old(window.Whole()) && Sound(old(window.msgs) + round) ==> window.Whole())
      ensures r == Cancelled ==> window.msgs == old(window.msgs)
      ensures r == Done ==> window.msgs != []
      ensures effect == NoEffect && r == Done ==> window.meter.tokens(window.msgs) <= window.size
      ensures effect == NoEffect && r != Done ==> window.msgs == old(window.msgs) && window.count == old(window.count)
      ensures effect != NoEffect && r != Done && r != Cancelled ==> window.msgs == old(window.msgs) + round
      ensures effect == InstallPlan && r == Done ==>
        |window.msgs| == 2 && window.msgs[0] == (old(window.msgs) + round)[0] && window.msgs[1].role == Developer &&
        window.msgs[1].content == PLAN_PREFIX + session.plan.board.document
      ensures effect == HandOff && r == Done ==>
        IsHandOff((old(window.msgs) + round)[0]) && batches == [(old(window.msgs) + round)[1..]]
      ensures r == Done && effect != InstallPlan ==>
        window.host.archived == old(window.host.archived) + batches && window.host.kept == old(window.host.kept) + log &&
        NoneLost(old(window.msgs), window.msgs, batches) && AllSaved(round, window.msgs, batches, log)
      ensures r != NoBody && r != Unsupported
    {
      hide Bounded, Fitted, Sound, Complete, IsHandOff, NoneLost, AllSaved;
      batches, log := [], [];
      var cancelled: bool := *;
      if cancelled {
        return Cancelled, batches, log;
      }
      if effect == NoEffect {
        var fit, bs, cuts, l, _, _, _ := window.Fit(round, counted);
        if fit.Err? {
          return Failed(fit.error), batches, log;
        }
        batches, log := bs, l;
        FittedSome(old(window.msgs), round, window.msgs, batches, cuts, log);
        FitSaves(old(window.msgs), round, window.msgs, batches, cuts, log);
        return Done, batches, log;
      }
      window.Add(round);
      ghost var added := window.msgs;
      r, batches := ApplyEffect(effect);
      if r == Done && effect == HandOff { AddedSaved(old(window.msgs), round, window.msgs, batches); }
    }

    /** Applies a reply's round: the calls' writes first, then its messages. When the messages do
        not go in, the writes stay applied: the harness is then ahead of what is stored. */
    method CommitReply(round: Round<R>) returns (r: Outcome, ghost batches: seq<seq<Message>>, ghost log: seq<Kept>)
      requires window.Valid() && window.msgs != [] && FromReply(round)
      requires round.reply.inputTokens > 0 ==> window.meter.tokens(window.msgs) <= round.reply.inputTokens
      modifies window, window.host, session, session.plan
      ensures window.Valid() && window.msgs != []
      ensures old(window.Whole()) && !PlanCalls(old(window.msgs) + round.reply.messages) ==> window.Whole()
      ensures session.Value() == Serial(env, old(session.Value()), round.calls[..FirstMissing(round.calls, 0)])
      ensures r == NoBody <==> FirstMissing(round.calls, 0) < |round.calls|
      ensures r == NoBody ==> window.msgs == old(window.msgs)
      ensures r == Done && EffectOf(round.calls) == NoEffect ==> window.meter.tokens(window.msgs) <= window.size
      ensures r != Done && window.msgs != old(window.msgs) ==>
        EffectOf(round.calls) != NoEffect && |old(window.msgs)| <= |window.msgs| &&
        window.msgs[..|old(window.msgs)|] == old(window.msgs) && IsRound(round, window.msgs[|old(window.msgs)|..])
      ensures r == Done && EffectOf(round.calls) != InstallPlan ==>
        window.host.archived == old(window.host.archived) + batches && window.host.kept == old(window.host.kept) + log &&
        NoneLost(old(window.msgs), window.msgs, batches) && RoundSaved(round, window.msgs, batches, log)
      ensures r != Unsupported
    {
      hide Serial, EffectOf, Bounded, Sound, NoneLost, AllSaved, IsRound, Results;
      batches, log := [], [];
      ReplyRound(window.msgs, round);
      var out := CommitReplyRound(session, env, round);
      if out.None? {
        return NoBody, batches, log;
      }
      r, batches, log := CommitRound(out.value.0, out.value.1, round.reply.inputTokens);
      if r == Done && out.value.1 != InstallPlan { RoundIsSaved(round, out.value.0, window.msgs, batches, log); }
      assert (old(window.msgs) + out.value.0)[|old(window.msgs)|..] == out.value.0;
    }

    /** Appends each user message as a round of its own. */
    method CommitUsers(users: seq<Message>, supported: Message -> bool)
      returns (r: Outcome, ghost batches: seq<seq<Message>>, ghost log: seq<Kept>)
      requires window.Valid() && forall m :: m in users ==> FromUser(m)
      modifies window, window.host
      ensures window.Valid() && (old(window.Whole()) ==> window.Whole()) && r != NoBody
      ensures r == Done && users != [] ==> window.meter.tokens(window.msgs) <= window.size
      ensures r == Done && users == [] ==> window.msgs == old(window.msgs)
      ensures r == Done ==>
        window.host.archived == old(window.host.archived) + batches && window.host.kept == old(window.host.kept) + log &&
        NoneLost(old(window.msgs), window.msgs, batches) && AllSaved(users, window.msgs, batches, log)
    {
      hide Bounded, Sound, Complete, NoneLost, AllSaved;
      batches, log := [], [];
      NothingLost(window.msgs);
      NoUsersSaved(users, window.msgs, batches, log);
      for i := 0 to |users|
        invariant window.Valid() && (old(window.Whole()) ==> window.Whole())
        invariant i > 0 ==> window.meter.tokens(window.msgs) <= window.size
        invariant i == 0 ==> window.msgs == old(window.msgs)
        invariant window.host.archived == old(window.host.archived) + batches && window.host.kept == old(window.host.kept) + log
        invariant NoneLost(old(window.msgs), window.msgs, batches) && AllSaved(users[..i], window.msgs, batches, log)
      {
        var user := users[i];
        assert user in users;
        if !supported(user) {
          return Unsupported, batches, log;
        }
        ghost var before := window.msgs;
        if window.Whole() { UserSound(window.msgs, user); }
        ghost var bs: seq<seq<Message>>, l: seq<Kept>;
        r, bs, l := CommitRound([user], NoEffect, 0);
        if r != Done {
          return;
        }
        StepSaved(users, i, old(window.msgs), before, window.msgs, batches, log, bs, l);
        Assoc(old(window.host.archived), batches, bs);
        Assoc(old(window.host.kept), log, l);
        batches, log := batches + bs, log + l;
      }
      assert users[..|users|] == users;
      r := Done;
    }

    /** Collapses the window when it is asked to. */
    method CommitCollapse(collapse: bool) returns (r: Outcome, ghost batches: seq<seq<Message>>)
      requires window.Valid()
      modifies window, window.host
      ensures window.Valid() && (old(window.Whole()) ==> window.Whole())
      ensures r == Done || r.Failed?
      ensures !collapse ==> r == Done && window.msgs == old(window.msgs)
      ensures collapse && r == Done ==> Collapsed(old(window.msgs), RefitEnd(old(window.msgs), old(window.count)), window.msgs)
      ensures r == Done ==>
        window.host.archived == old(window.host.archived) + batches && window.host.kept == old(window.host.kept) &&
        NoneLost(old(window.msgs), window.msgs, batches)
    {
      hide Bounded, Sound, Complete, NoneLost, Collapsed;
      batches := [];
      if !collapse {
        NothingLost(window.msgs);
        return Done, batches;
      }
      ghost var before, end := window.msgs, RefitEnd(window.msgs, window.count);
      var c := window.Refit();
      if c.Err? {
        return Failed(c.error), batches;
      }
      batches := [before[Protected(before)..end]];
      RefitSaves(before, end, window.msgs);
      r := Done;
    }

    /** The host state, then the round. */
    method CommitState(input: CommitIn<V, R>) returns (r: Outcome, ghost batches: seq<seq<Message>>, ghost log: seq<Kept>)
      requires window.Valid()
      requires input.round.Some? ==> window.msgs != [] && FromReply(input.round.value)
      requires input.round.Some? && input.round.value.reply.inputTokens > 0 ==>
                 window.meter.tokens(window.msgs) <= input.round.value.reply.inputTokens
      modifies window, window.host, session, session.plan
      ensures window.Valid()
      ensures old(window.Whole()) && (input.round.Some? ==> !PlanCalls(old(window.msgs) + input.round.value.reply.messages)) ==>
                window.Whole()
      ensures session.Value() == StateAfter(env, old(session.Value()), input)
      ensures r == Done && input.round.Some? && EffectOf(input.round.value.calls) == NoEffect ==>
                window.meter.tokens(window.msgs) <= window.size
      ensures r == NoBody <==> input.round.Some? && FirstMissing(input.round.value.calls, 0) < |input.round.value.calls|
      ensures r == Done && !Installs(input) ==>
        window.host.archived == old(window.host.archived) + batches && window.host.kept == old(window.host.kept) + log &&
        InputSaved(old(window.msgs), input.(users := []), window.msgs, batches, log)
    {
      hide Serial, EffectOf, Bounded, Sound, Complete, FromReply, NoneLost, AllSaved, RoundSaved, InputSaved, PlanCalls, FirstMissing;
      batches, log := [], [];
      session.SetState(input.state);
      if input.round.None? {
        RoundlessSaved(window.msgs, input);
        return Done, batches, log;
      }
      r, batches, log := CommitReply(input.round.value);
      if r == Done && !Installs(input) { RoundInputSaved(old(window.msgs), input, window.msgs, batches, log); }
    }

    /** The Commit step. Whatever it returns, the window stays whole unless the reply becomes what a
        collapse keeps, reads as a plan document and has calls; the committed state is the host values and
        then the calls' writes, in call order; a user message, or a round without an effect, leaves a
        window that fits; and unless a plan is installed nothing is lost: every message there was, every
        message and result of the round, and every user message but reasoning is in the window or in an
        archived batch, whole or as a cut result with its full text stored. */
    method Commit(input: CommitIn<V, R>, supported: Message -> bool)
      returns (r: Outcome, ghost batches: seq<seq<Message>>, ghost log: seq<Kept>)
      requires window.Valid() && forall m :: m in input.users ==> FromUser(m)
      requires input.round.Some? ==> window.msgs != [] && FromReply(input.round.value)
      requires input.round.Some? && input.round.value.reply.inputTokens > 0 ==>
                 window.meter.tokens(window.msgs) <= input.round.value.reply.inputTokens
      modifies window, window.host, session, session.plan
      ensures window.Valid()
      ensures old(window.Whole()) && (input.round.Some? ==> !PlanCalls(old(window.msgs) + input.round.value.reply.messages)) ==>
                window.Whole()
      ensures session.Value() == StateAfter(env, old(session.Value()), input)
      ensures r == Done && !input.collapse &&
              (input.users != [] || (input.round.Some? && EffectOf(input.round.value.calls) == NoEffect)) ==>
                window.meter.tokens(window.msgs) <= window.size
      ensures r == NoBody <==> input.round.Some? && FirstMissing(input.round.value.calls, 0) < |input.round.value.calls|
      ensures r == Done && !Installs(input) ==>
        window.host.archived == old(window.host.archived) + batches && window.host.kept == old(window.host.kept) + log &&
        InputSaved(old(window.msgs), input, window.msgs, batches, log)
    {
      hide *;
      r, batches, log := CommitState(input);
      if r != Done {
        return;
      }
      ghost var mid := window.msgs;
      ghost var bs: seq<seq<Message>>, l: seq<Kept>;
      r, bs, l := CommitUsers(input.users, supported);
      if r != Done {
        return;
      }
      if !Installs(input) { UsersInputSaved(old(window.msgs), input, mid, window.msgs, batches, log, bs, l); }
      Assoc(old(window.host.archived), batches, bs);
      Assoc(old(window.host.kept), log, l);
      batches, log := batches + bs, log + l;
      mid := window.msgs;
      ghost var bs': seq<seq<Message>>;
      r, bs' := CommitCollapse(input.collapse);
      if r != Done {
        return;
      }
      if !Installs(input) { InputSavedOn(old(window.msgs), input, mid, window.msgs, batches, log, bs'); }
      Assoc(old(window.host.archived), batches, bs');
      batches := batches + bs';
    }
  }

  /** Everything a commit is given, and what was there, is saved. */
  ghost predicate InputSaved<V, R>(first: seq<Message>, input: CommitIn<V, R>, msgs: seq<Message>, batches: seq<seq<Message>>, log: seq<Kept>) {
    AllSaved(first, msgs, batches, log) && AllSaved(input.users, msgs, batches, log) &&
    (input.round.Some? ==> RoundSaved(input.round.value, msgs, batches, log))
  }

  lemma RoundlessSaved<V, R>(msgs: seq<Message>, input: CommitIn<V, R>)
    requires input.round.None?
    ensures InputSaved(msgs, input.(users := []), msgs, [], [])
  {
    NothingLost(msgs);
    SavedHere(msgs, msgs, [], []);
  }

  lemma RoundInputSaved<V, R>(first: seq<Message>, input: CommitIn<V, R>, msgs: seq<Message>, batches: seq<seq<Message>>, log: seq<Kept>)
    requires input.round.Some? && NoneLost(first, msgs, batches) && RoundSaved(input.round.value, msgs, batches, log)
    ensures InputSaved(first, input.(users := []), msgs, batches, log)
  {
    hide NoneLost, RoundSaved;
    SavedHere(first, msgs, batches, log);
  }

  lemma UsersInputSaved<V, R>(first: seq<Message>, input: CommitIn<V, R>, before: seq<Message>, after: seq<Message>,
                              b1: seq<seq<Message>>, l1: seq<Kept>, b2: seq<seq<Message>>, l2: seq<Kept>)
    requires InputSaved(first, input.(users := []), before, b1, l1)
    requires NoneLost(before, after, b2) && AllSaved(input.users, after, b2, l2)
    ensures InputSaved(first, input, after, b1 + b2, l1 + l2)
  {
    hide AllSaved, RoundSaved, NoneLost;
    AllSavedOn(first, before, after, b1, l1, b2, l2);
    MoreSaved(input.users, after, b1, l1, b2, l2);
    if input.round.Some? { RoundSavedOn(input.round.value, before, after, b1, l1, b2, l2); }
  }

  lemma InputSavedOn<V, R>(first: seq<Message>, input: CommitIn<V, R>, before: seq<Message>, after: seq<Message>,
                           b1: seq<seq<Message>>, l1: seq<Kept>, b2: seq<seq<Message>>)
    requires InputSaved(first, input, before, b1, l1) && NoneLost(before, after, b2)
    ensures InputSaved(first, input, after, b1 + b2, l1)
  {
    hide AllSaved, RoundSaved, NoneLost;
    Empty(l1);
    AllSavedOn(first, before, after, b1, l1, b2, []);
    AllSavedOn(input.users, before, after, b1, l1, b2, []);
    if input.round.Some? { RoundSavedOn(input.round.value, before, after, b1, l1, b2, []); }
  }

  /** The round's effect installs the plan. */
  predicate Installs<V, R>(input: CommitIn<V, R>) {
    input.round.Some? && EffectOf(input.round.value.calls) == InstallPlan
  }

  /** Every message of the reply but reasoning, and for each call its own result, or that it was
      cancelled, is in msgs or archived, whole or cut. */
  ghost predicate RoundSaved<R>(r: Round<R>, msgs: seq<Message>, batches: seq<seq<Message>>, log: seq<Kept>) {
    AllSaved(r.reply.messages, msgs, batches, log) &&
    forall i :: 0 <= i < |r.calls| ==> CallSaved(r.calls[i], msgs, batches, log)
  }

  ghost predicate CallSaved<R>(c: Call<R>, msgs: seq<Message>, batches: seq<seq<Message>>, log: seq<Kept>) {
    exists m: Message :: m.role == Tool && Answers(c, m) && Saved(m, msgs, batches, log)
  }

  /** The committed state a Commit leaves. */
  function StateAfter<V, R>(env: Env<V, R>, s: Committed<V, R>, input: CommitIn<V, R>): Committed<V, R> {
    var start := s.(user := s.user + input.state);
    if input.round.None? then start
    else Serial(env, start, input.round.value.calls[..FirstMissing(input.round.value.calls, 0)])
  }
}
