/** Committed session state, and what a tool call reads and writes of it while it runs (call.go,
    session_manager.go, session_permissions.go). */
module CallState {
  import opened Messages
  import opened Plan

  datatype Decision = NoDecision | AllowAlways | DenyAlways

  /** A write of a user-state key; None deletes it. */
  datatype StateWrite = StateWrite(key: string, value: Option<Bytes>)

  datatype PermissionWrite = PermissionWrite(tool: string, decision: Decision)

  datatype RestWrite<R> = RestWrite(key: string, rest: R)

  /** What a call's runs wrote, in order. */
  datatype Writes<R> = Writes(state: seq<StateWrite>, permissions: seq<PermissionWrite>, rests: seq<RestWrite<R>>,
                              plan: seq<PlanOp>)

  /** The JSON of user-state values (a value may fail to encode), the value of JSON that does not
      decode, the rest of a call that left none, and strings.TrimSpace. */
  datatype Env<!V, !R> = Env(enc: V -> Option<Bytes>, dec: Bytes -> Option<V>, nothing: V, noRest: R, trim: Trim)

  datatype Committed<V, R> = Committed(user: map<string, V>, decisions: map<string, Decision>, rests: map<string, R>,
                                       board: Board)

  // ---------------------------------------------------------------------------------------------
  // Writes applied to committed state
  // ---------------------------------------------------------------------------------------------

  function Decoded<V, R>(env: Env<V, R>, raw: Bytes): V {
    if env.dec(raw).Some? then env.dec(raw).value else env.nothing
  }

  function ApplyState<V, R>(env: Env<V, R>, user: map<string, V>, ws: seq<StateWrite>): map<string, V> {
    if ws == [] then user
    else
      var before, w := ApplyState(env, user, ws[..|ws| - 1]), ws[|ws| - 1];
      if w.value.None? then before - {w.key} else before[w.key := Decoded(env, w.value.value)]
  }

  function ApplyPermissions(decisions: map<string, Decision>, ws: seq<PermissionWrite>): map<string, Decision> {
    if ws == [] then decisions
    else ApplyPermissions(decisions, ws[..|ws| - 1])[ws[|ws| - 1].tool := ws[|ws| - 1].decision]
  }

  function ApplyRests<R>(rests: map<string, R>, ws: seq<RestWrite<R>>): map<string, R> {
    if ws == [] then rests else ApplyRests(rests, ws[..|ws| - 1])[ws[|ws| - 1].key := ws[|ws| - 1].rest]
  }

  function ApplyWrites<V, R>(env: Env<V, R>, s: Committed<V, R>, w: Writes<R>): Committed<V, R> {
    Committed(ApplyState(env, s.user, w.state), ApplyPermissions(s.decisions, w.permissions),
              ApplyRests(s.rests, w.rests), ReplayAll(env.trim, w.plan, s.board))
  }

  /** A user's decision wins over a grant of the host. */
  function DecisionOf(decisions: map<string, Decision>, granted: set<string>, name: string): Decision {
    if name in decisions && decisions[name] != NoDecision then decisions[name]
    else if name in granted then AllowAlways
    else NoDecision
  }

  function Lookup<T>(m: map<string, T>, key: string): Option<T> {
    if key in m then Some(m[key]) else None
  }

  class SessionManager<V, R> {
    var user: map<string, V>
    var decisions: map<string, Decision>
    const granted: set<string>
    var rests: map<string, R>
    const plan: PlanStore

    constructor (granted: set<string>)
      ensures user == map[] && decisions == map[] && rests == map[] && plan.board == Board(None, "")
      ensures this.granted == granted && fresh(plan)
    {
      this.granted := granted;
      user, decisions, rests := map[], map[], map[];
      plan := new PlanStore();
    }

    ghost function Value(): Committed<V, R>
      reads this, plan
    {
      Committed(user, decisions, rests, plan.board)
    }

    /** Host values, over what is there. */
    method SetState(values: map<string, V>)
      modifies this
      ensures Value() == old(Value()).(user := old(user) + values)
    {
      user := user + values;
    }

    method Apply(env: Env<V, R>, w: Writes<R>)
      modifies this, plan
      ensures Value() == ApplyWrites(env, old(Value()), w)
    {
      ApplyUser(env, w.state);
      ApplyDecisions(w.permissions);
      ApplyLeft(w.rests);
      ReplayPlan(env.trim, w.plan);
    }

    method ApplyUser(env: Env<V, R>, ws: seq<StateWrite>)
      modifies this`user
      ensures user == ApplyState(env, old(user), ws)
    {
      for i := 0 to |ws|
        invariant user == ApplyState(env, old(user), ws[..i])
      {
        assert ws[..i + 1][..i] == ws[..i];
        if ws[i].value.None? {
          user := user - {ws[i].key};
          continue;
        }
        user := user[ws[i].key := Decoded(env, ws[i].value.value)];
      }
      assert ws[..|ws|] == ws;
    }

    method ApplyDecisions(ws: seq<PermissionWrite>)
      modifies this`decisions
      ensures decisions == ApplyPermissions(old(decisions), ws)
    {
      for i := 0 to |ws|
        invariant decisions == ApplyPermissions(old(decisions), ws[..i])
      {
        assert ws[..i + 1][..i] == ws[..i];
        decisions := decisions[ws[i].tool := ws[i].decision];
      }
      assert ws[..|ws|] == ws;
    }

    method ApplyLeft(ws: seq<RestWrite<R>>)
      modifies this`rests
      ensures rests == ApplyRests(old(rests), ws)
    {
      for i := 0 to |ws|
        invariant rests == ApplyRests(old(rests), ws[..i])
      {
        assert ws[..i + 1][..i] == ws[..i];
        rests := rests[ws[i].key := ws[i].rest];
      }
      assert ws[..|ws|] == ws;
    }

    method ReplayPlan(trim: Trim, ops: seq<PlanOp>)
      modifies plan
      ensures plan.board == ReplayAll(trim, ops, old(plan.board))
    {
      for i := 0 to |ops|
        invariant ReplayAll(trim, ops, old(plan.board)) == ReplayAll(trim, ops[i..], plan.board)
      {
        assert ops[i..][1..] == ops[i + 1..];
        plan.Apply(trim, ops[i]);
      }
    }
  }

  // ---------------------------------------------------------------------------------------------
  // A running call
  // ---------------------------------------------------------------------------------------------

  /** The call's own values by key; None is a deleted key. */
  function OwnValues<V, R>(env: Env<V, R>, ws: seq<StateWrite>): map<string, Option<V>> {
    if ws == [] then map[]
    else
      var w := ws[|ws| - 1];
      OwnValues(env, ws[..|ws| - 1])[w.key := if w.value.None? then None else Some(Decoded(env, w.value.value))]
  }

  /** The call's own values, over the committed ones, are the committed ones with its writes. */
  lemma {:induction false} OwnOverCommitted<V, R>(env: Env<V, R>, user: map<string, V>, ws: seq<StateWrite>, key: string)
    ensures Lookup(ApplyState(env, user, ws), key) ==
            if key in OwnValues(env, ws) then OwnValues(env, ws)[key] else Lookup(user, key)
    decreases |ws|
  {
    if ws != [] { OwnOverCommitted(env, user, ws[..|ws| - 1], key); }
  }

  class CallContext<V(!new), R> {
    const env: Env<V, R>
    const session: SessionManager<V, R>
    var own: map<string, Option<V>>
    var writes: Writes<R>

    ghost predicate Valid()
      reads this
    {
      own == OwnValues(env, writes.state) &&
      forall w :: w in writes.permissions ==> w.decision != NoDecision
    }

    /** The committed state with the call's own writes applied. */
    ghost function Seen(): Committed<V, R>
      reads this, session, session.plan
    {
      ApplyWrites(env, session.Value(), writes)
    }

    /** A run of a call reads and keeps what the call's earlier runs wrote. */
    constructor (env: Env<V, R>, session: SessionManager<V, R>, earlier: Writes<R>)
      requires forall w :: w in earlier.permissions ==> w.decision != NoDecision
      ensures Valid() && this.env == env && this.session == session && writes == earlier
    {
      this.env := env;
      this.session := session;
      var values: map<string, Option<V>> := map[];
      for i := 0 to |earlier.state|
        invariant values == OwnValues(env, earlier.state[..i])
      {
        assert earlier.state[..i + 1][..i] == earlier.state[..i];
        var w := earlier.state[i];
        values := values[w.key := if w.value.None? then None else Some(Decoded(env, w.value.value))];
      }
      assert earlier.state[..|earlier.state|] == earlier.state;
      own := values;
      writes := earlier;
    }

    method StateGet(key: string) returns (v: Option<V>)
      requires Valid()
      ensures v == Lookup(Seen().user, key)
    {
      OwnOverCommitted(env, session.user, writes.state, key);
      if key in own {
        return own[key];
      }
      v := Lookup(session.user, key);
    }

    /** Fails, and writes nothing, when the value does not encode. The call itself keeps the value it
        was given: what it sees is the committed state with its writes applied if and only if the value
        is what its encoding decodes to. */
    method StateSet(key: string, value: V) returns (ok: bool)
      requires Valid()
      modifies this
      ensures (ok <==> env.enc(value).Some?) && (!ok ==> Valid() && writes == old(writes) && own == old(own))
      ensures ok ==> writes == old(writes).(state := old(writes).state + [StateWrite(key, env.enc(value))])
      ensures ok ==> own == old(own)[key := Some(value)]
      ensures ok ==> Seen() == old(Seen()).(user := old(Seen()).user[key := Decoded(env, env.enc(value).value)])
      ensures ok ==> (Valid() <==> Decoded(env, env.enc(value).value) == value)
    {
      var raw := env.enc(value);
      if raw.None? {
        return false;
      }
      own := own[key := Some(value)];
      writes := writes.(state := writes.state + [StateWrite(key, raw)]);
      assert writes.state[..|writes.state| - 1] == old(writes).state;
      assert OwnValues(env, writes.state)[key] == Some(Decoded(env, raw.value));
      ok := true;
    }

    method StateDelete(key: string)
      requires Valid()
      modifies this
      ensures Valid() && Seen() == old(Seen()).(user := old(Seen()).user - {key})
      ensures writes == old(writes).(state := old(writes).state + [StateWrite(key, None)])
    {
      own := own[key := None];
      writes := writes.(state := writes.state + [StateWrite(key, None)]);
      assert writes.state[..|writes.state| - 1] == old(writes).state;
    }

    method Decision(name: string) returns (d: Decision)
      requires Valid()
      ensures d == DecisionOf(Seen().decisions, session.granted, name)
    {
      ghost var ws := writes.permissions;
      assert ws[..|ws|] == ws;
      for i := |writes.permissions| downto 0
        invariant DecisionOf(Seen().decisions, session.granted, name) ==
                  DecisionOf(ApplyPermissions(session.decisions, ws[..i]), session.granted, name)
      {
        assert ws[..i + 1][..i] == ws[..i] && ws[i] in ws;
        if writes.permissions[i].tool == name {
          return writes.permissions[i].decision;
        }
      }
      d := DecisionOf(session.decisions, session.granted, name);
    }

    /** Only an always-answer is remembered. */
    method RememberAnswer(tool: string, answer: Decision)
      requires Valid()
      modifies this
      ensures Valid()
      ensures answer == NoDecision ==> writes == old(writes)
      ensures answer != NoDecision ==>
        Seen() == old(Seen()).(decisions := old(Seen()).decisions[tool := answer]) &&
        writes == old(writes).(permissions := old(writes).permissions + [PermissionWrite(tool, answer)])
    {
      if answer == NoDecision {
        return;
      }
      writes := writes.(permissions := writes.permissions + [PermissionWrite(tool, answer)]);
      assert writes.permissions[..|writes.permissions| - 1] == old(writes).permissions;
    }

    method Rest(key: string) returns (r: R)
      requires Valid()
      ensures r == if key in Seen().rests then Seen().rests[key] else env.noRest
    {
      ghost var ws := writes.rests;
      assert ws[..|ws|] == ws;
      for i := |writes.rests| downto 0
        invariant Lookup(Seen().rests, key) == Lookup(ApplyRests(session.rests, ws[..i]), key)
      {
        assert ws[..i + 1][..i] == ws[..i];
        if writes.rests[i].key == key {
          return writes.rests[i].rest;
        }
      }
      r := if key in session.rests then session.rests[key] else env.noRest;
    }

    method SetRest(key: string, rest: R)
      requires Valid()
      modifies this
      ensures Valid() && Seen() == old(Seen()).(rests := old(Seen()).rests[key := rest])
      ensures writes == old(writes).(rests := old(writes).rests + [RestWrite(key, rest)])
    {
      writes := writes.(rests := writes.rests + [RestWrite(key, rest)]);
      assert writes.rests[..|writes.rests| - 1] == old(writes).rests;
    }

    method SeePlan() returns (b: Board)
      requires Valid()
      ensures b == Seen().board
    {
      b := session.plan.board;
      for i := 0 to |writes.plan|
        invariant Seen().board == ReplayAll(env.trim, writes.plan[i..], b)
      {
        assert writes.plan[i..][1..] == writes.plan[i + 1..];
        var c := RunChange(env.trim, writes.plan[i], b);
        if c.Changed? {
          b := c.board;
        }
      }
    }

    /** A plan tool: a change that fails on the plan the call sees writes nothing. */
    method ChangePlan(op: PlanOp) returns (c: Changed)
      requires Valid()
      modifies this
      ensures Valid() && c == Change(env.trim, op, old(Seen()).board)
      ensures c.Changed? ==> Seen() == old(Seen()).(board := c.board)
      ensures c.Changed? ==> writes == old(writes).(plan := old(writes).plan + [op])
      ensures c.Refused? ==> writes == old(writes)
    {
      var b := SeePlan();
      c := RunChange(env.trim, op, b);
      if c.Refused? {
        return;
      }
      ReplayAppend(env.trim, writes.plan, [op], session.plan.board);
      writes := writes.(plan := writes.plan + [op]);
      assert [op][1..] == [];
    }
  }
}
