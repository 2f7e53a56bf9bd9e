/** What a call sees and what a round commits, key by key (call.go, StateGet, decision, rest;
    session_manager.go, apply; session_permissions.go, Decision). */
module CallWrites {
  import opened Messages
  import opened Plan
  import opened CallState
  import opened RoundCommit
  import opened Sequences

  // ---------------------------------------------------------------------------------------------
  // The last write of a key
  // ---------------------------------------------------------------------------------------------

  ghost predicate LastOf<W>(ws: seq<W>, keyOf: W -> string, key: string, i: nat)
    requires i < |ws|
  {
    keyOf(ws[i]) == key && forall j :: i < j < |ws| ==> keyOf(ws[j]) != key
  }

  ghost predicate Unwritten<W>(ws: seq<W>, keyOf: W -> string, key: string) {
    forall i :: 0 <= i < |ws| ==> keyOf(ws[i]) != key
  }

  function StateKey(w: StateWrite): string {
    w.key
  }

  function PermissionKey(w: PermissionWrite): string {
    w.tool
  }

  function RestKey<R>(w: RestWrite<R>): string {
    w.key
  }

  /** A key holds the same before and after, or nothing. */
  ghost predicate Same<T>(before: map<string, T>, after: map<string, T>, key: string) {
    (key in after <==> key in before) && (key in before ==> after[key] == before[key])
  }

  /** The value under a key is that of its last write, decoded, or what it was; a delete leaves none. */
  ghost predicate StateAfter<V, R>(env: Env<V, R>, before: map<string, V>, ws: seq<StateWrite>, after: map<string, V>, key: string) {
    (Unwritten(ws, StateKey, key) ==> Same(before, after, key)) &&
    forall i: nat :: i < |ws| && LastOf(ws, StateKey, key, i) ==> Stored(env, ws[i].value, after, key)
  }

  ghost predicate Stored<V, R>(env: Env<V, R>, value: Option<Bytes>, after: map<string, V>, key: string) {
    match value
    case None => key !in after
    case Some(raw) => key in after && after[key] == match env.dec(raw) { case Some(v) => v case None => env.nothing }
  }

  ghost predicate DecisionAfter(before: map<string, Decision>, ws: seq<PermissionWrite>, after: map<string, Decision>, tool: string) {
    (Unwritten(ws, PermissionKey, tool) ==> Same(before, after, tool)) &&
    forall i: nat :: i < |ws| && LastOf(ws, PermissionKey, tool, i) ==> tool in after && after[tool] == ws[i].decision
  }

  ghost predicate RestAfter<R>(before: map<string, R>, ws: seq<RestWrite<R>>, after: map<string, R>, key: string) {
    (Unwritten(ws, RestKey, key) ==> Same(before, after, key)) &&
    forall i: nat :: i < |ws| && LastOf(ws, RestKey, key, i) ==> key in after && after[key] == ws[i].rest
  }

  /** One more write. */
  lemma LastOne<W>(ws: seq<W>, keyOf: W -> string, key: string, i: nat)
    requires i < |ws|
    ensures var n, init := |ws| - 1, ws[..|ws| - 1];
      LastOf(ws, keyOf, key, i) <==> if keyOf(ws[n]) == key then i == n else i < n && LastOf(init, keyOf, key, i)
  {
    if i < |ws| - 1 && LastOf(ws[..|ws| - 1], keyOf, key, i) && keyOf(ws[|ws| - 1]) != key {
      forall j | i < j < |ws| ensures keyOf(ws[j]) != key {
        if j < |ws| - 1 { assert ws[..|ws| - 1][j] == ws[j]; }
      }
    }
  }

  lemma UnwrittenOne<W>(ws: seq<W>, keyOf: W -> string, key: string)
    requires ws != []
    ensures Unwritten(ws, keyOf, key) <==> Unwritten(ws[..|ws| - 1], keyOf, key) && keyOf(ws[|ws| - 1]) != key
  {
    var init := ws[..|ws| - 1];
    assert forall i :: 0 <= i < |init| ==> init[i] == ws[i];
  }

  lemma {:induction false} StateApplied<V, R>(env: Env<V, R>, user: map<string, V>, ws: seq<StateWrite>, key: string)
    ensures StateAfter(env, user, ws, ApplyState(env, user, ws), key)
    decreases |ws|
  {
    hide LastOf, Unwritten;
    if ws != [] {
      StateApplied(env, user, ws[..|ws| - 1], key);
      UnwrittenOne(ws, StateKey, key);
      forall i: nat | i < |ws| && LastOf(ws, StateKey, key, i) ensures Stored(env, ws[i].value, ApplyState(env, user, ws), key) {
        LastOne(ws, StateKey, key, i);
      }
    }
  }

  lemma {:induction false} PermissionsApplied(decisions: map<string, Decision>, ws: seq<PermissionWrite>, tool: string)
    ensures DecisionAfter(decisions, ws, ApplyPermissions(decisions, ws), tool)
    decreases |ws|
  {
    hide LastOf, Unwritten;
    if ws != [] {
      PermissionsApplied(decisions, ws[..|ws| - 1], tool);
      UnwrittenOne(ws, PermissionKey, tool);
      var after := ApplyPermissions(decisions, ws);
      forall i: nat | i < |ws| && LastOf(ws, PermissionKey, tool, i) ensures tool in after && after[tool] == ws[i].decision {
        LastOne(ws, PermissionKey, tool, i);
      }
    }
  }

  lemma {:induction false} RestsApplied<R>(rests: map<string, R>, ws: seq<RestWrite<R>>, key: string)
    ensures RestAfter(rests, ws, ApplyRests(rests, ws), key)
    decreases |ws|
  {
    hide LastOf, Unwritten;
    if ws != [] {
      RestsApplied(rests, ws[..|ws| - 1], key);
      UnwrittenOne(ws, RestKey, key);
      var after := ApplyRests(rests, ws);
      forall i: nat | i < |ws| && LastOf(ws, RestKey, key, i) ensures key in after && after[key] == ws[i].rest {
        LastOne(ws, RestKey, key, i);
      }
    }
  }

  /** The answer for a tool: what the user decided, else always for a granted tool, else none. */
  lemma Decides(decisions: map<string, Decision>, granted: set<string>, tool: string)
    ensures var d := DecisionOf(decisions, granted, tool);
      if tool in decisions && (decisions[tool] == AllowAlways || decisions[tool] == DenyAlways) then d == decisions[tool]
      else (d == AllowAlways <==> tool in granted) && (d == NoDecision <==> tool !in granted)
  {
  }

  /** What a running call sees: of each key its own last write, else what is committed; and the plan
      with its own changes, one after another. */
  lemma SeesExactly<V, R>(env: Env<V, R>, s: Committed<V, R>, w: Writes<R>, key: string)
    ensures var seen := ApplyWrites(env, s, w);
      StateAfter(env, s.user, w.state, seen.user, key) && DecisionAfter(s.decisions, w.permissions, seen.decisions, key) &&
      RestAfter(s.rests, w.rests, seen.rests, key) && seen.board == ReplayAll(env.trim, w.plan, s.board)
  {
    StateApplied(env, s.user, w.state, key);
    PermissionsApplied(s.decisions, w.permissions, key);
    RestsApplied(s.rests, w.rests, key);
  }

  // ---------------------------------------------------------------------------------------------
  // A round
  // ---------------------------------------------------------------------------------------------

  function WritesOf<R>(c: Call<R>): Writes<R> {
    if c.body.Some? then c.body.value.writes else Writes([], [], [], [])
  }

  /** The writes of all calls, in call order. */
  function Joined<R>(calls: seq<Call<R>>): Writes<R> {
    if calls == [] then Writes([], [], [], [])
    else
      var a, b := Joined(calls[..|calls| - 1]), WritesOf(calls[|calls| - 1]);
      Writes(a.state + b.state, a.permissions + b.permissions, a.rests + b.rests, a.plan + b.plan)
  }

  lemma {:induction false} PermissionsAppend(decisions: map<string, Decision>, a: seq<PermissionWrite>, b: seq<PermissionWrite>)
    ensures ApplyPermissions(decisions, a + b) == ApplyPermissions(ApplyPermissions(decisions, a), b)
    decreases |b|
  {
    if b == [] {
      Empty(a);
    } else {
      assert (a + b)[..|a + b| - 1] == a + b[..|b| - 1];
      PermissionsAppend(decisions, a, b[..|b| - 1]);
    }
  }

  lemma {:induction false} RestsAppend<R>(rests: map<string, R>, a: seq<RestWrite<R>>, b: seq<RestWrite<R>>)
    ensures ApplyRests(rests, a + b) == ApplyRests(ApplyRests(rests, a), b)
    decreases |b|
  {
    if b == [] {
      Empty(a);
    } else {
      assert (a + b)[..|a + b| - 1] == a + b[..|b| - 1];
      RestsAppend(rests, a, b[..|b| - 1]);
    }
  }

  lemma NothingWritten<V, R>(env: Env<V, R>, s: Committed<V, R>)
    ensures ApplyWrites(env, s, Writes([], [], [], [])) == s
  {
  }

  /** The calls' writes applied one call after another are all of them applied in order. */
  lemma {:induction false} SerialJoined<V, R>(env: Env<V, R>, s: Committed<V, R>, calls: seq<Call<R>>)
    ensures Serial(env, s, calls) == ApplyWrites(env, s, Joined(calls))
    decreases |calls|
  {
    NothingWritten(env, s);
    if calls != [] {
      hide ApplyState, ApplyPermissions, ApplyRests, ReplayAll, Joined;
      var init, c := calls[..|calls| - 1], calls[|calls| - 1];
      SerialJoined(env, s, init);
      JoinedLast(calls);
      var a, b := Joined(init), WritesOf(c);
      ApplyStateAppend(env, s.user, a.state, b.state);
      PermissionsAppend(s.decisions, a.permissions, b.permissions);
      RestsAppend(s.rests, a.rests, b.rests);
      ReplayAppend(env.trim, a.plan, b.plan, s.board);
      if c.body.None? { NothingWritten(env, Serial(env, s, init)); }
    }
  }

  lemma JoinedLast<R>(calls: seq<Call<R>>)
    requires calls != []
    ensures var a, b := Joined(calls[..|calls| - 1]), WritesOf(calls[|calls| - 1]);
      Joined(calls) == Writes(a.state + b.state, a.permissions + b.permissions, a.rests + b.rests, a.plan + b.plan)
  {
    hide WritesOf;
  }

  /** Main result: after a round each key of the committed state holds what the round's last write of it,
      in call order, put there, or what it held; and the plan is the calls' changes, in call order. */
  lemma CommitsExactly<V, R>(env: Env<V, R>, s: Committed<V, R>, calls: seq<Call<R>>, key: string)
    ensures var after, ws := Serial(env, s, calls), Joined(calls);
      StateAfter(env, s.user, ws.state, after.user, key) && DecisionAfter(s.decisions, ws.permissions, after.decisions, key) &&
      RestAfter(s.rests, ws.rests, after.rests, key) && after.board == ReplayAll(env.trim, ws.plan, s.board)
  {
    hide Serial, Joined, ApplyWrites;
    SerialJoined(env, s, calls);
    SeesExactly(env, s, Joined(calls), key);
  }
}
