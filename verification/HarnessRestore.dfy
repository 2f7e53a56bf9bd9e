/** One session over a commit, its checkpoint and a restore: the window and the committed state that
    commits build (durable_steps.go), as the rows of checkpoint.go carry them. */
module HarnessRestore {
  import opened Messages
  import opened ContextWindow
  import opened SessionRows
  import opened Checkpoint
  import opened CheckpointRestore
  import opened CallState
  import opened Plan
  import opened Window

  /** The number a decision is stored as. */
  function Code(d: Decision): int {
    match d
    case NoDecision => 0
    case AllowAlways => 1
    case DenyAlways => 2
  }

  function Codes(decisions: map<string, Decision>): map<string, int> {
    map k | k in decisions :: Code(decisions[k])
  }

  /** What a checkpoint is taken of. */
  function StateOf<V, R>(msgs: seq<Message>, count: Count, s: Committed<V, R>): State<R, V> {
    State(msgs, count, s.board.todos, s.board.document, Codes(s.decisions), s.rests, s.user)
  }

  function Decoded(code: int): Decision {
    if code == 1 then AllowAlways else if code == 2 then DenyAlways else NoDecision
  }

  function DecodedAll(codes: map<string, int>): map<string, Decision> {
    map k | k in codes :: Decoded(codes[k])
  }

  lemma CodesDecoded(codes: map<string, int>)
    requires forall k :: k in codes ==> 0 <= codes[k] <= 2
    ensures Codes(DecodedAll(codes)) == codes
  {
  }

  /** A restored state goes into the window and the session as it is. */
  method Install<V, R>(window: Window, session: SessionManager<V, R>, state: State<R, V>)
    modifies window, session, session.plan
    ensures window.msgs == state.msgs && window.count == state.count && window.cannotCount == old(window.cannotCount)
    ensures session.Value() == Committed(state.user, DecodedAll(state.permissions), state.rests, Board(state.todos, state.document))
    ensures (forall k :: k in state.permissions ==> 0 <= state.permissions[k] <= 2) ==>
              StateOf(window.msgs, window.count, session.Value()) == state
  {
    window.msgs, window.count := state.msgs, state.count;
    session.user, session.rests := state.user, state.rests;
    session.decisions := DecodedAll(state.permissions);
    session.plan.Restore(state.todos, state.document);
    if forall k :: k in state.permissions ==> 0 <= state.permissions[k] <= 2 { CodesDecoded(state.permissions); }
  }

  lemma CodesInjective(a: map<string, Decision>, b: map<string, Decision>)
    requires Codes(a) == Codes(b)
    ensures a == b
  {
    assert a.Keys == Codes(a).Keys == Codes(b).Keys == b.Keys;
    forall k | k in a ensures a[k] == b[k] {
      assert Codes(a)[k] == Codes(b)[k];
    }
  }

  /** Main result: a window whose count bounds what it counted, and a committed state, come back from
      their checkpoint's rows in any order, all as they were, if and only if the messages are valid
      and the plan is not an emptied one; the restored count bounds the restored window. */
  lemma CommittedRestores<V(!new), R(!new)>(c: Codecs<R, V>, meter: Meter, msgs: seq<Message>, count: Count, s: Committed<V, R>,
                                            checkpoint: seq<Entry>, rows: seq<Entry>,
                                            msgs': seq<Message>, count': Count, s': Committed<V, R>)
    requires AllFaithful(c) && Counts(meter, count, msgs) && IsCheckpoint(c, StateOf(msgs, count, s), checkpoint)
    requires Fits(StateOf(msgs, count, s)) && multiset(rows) == multiset(checkpoint)
    ensures Restored(c, rows) == Some(StateOf(msgs, count, s)) <==> ValidMessages(msgs) && s.board.todos != Some([])
    ensures Restored(c, rows) == Some(StateOf(msgs', count', s')) ==>
              msgs' == msgs && count' == count && Counts(meter, count', msgs') &&
              s' == if s.board.todos == Some([]) then s.(board := s.board.(todos := None)) else s
  {
    hide Restored, IsCheckpoint, ValidMessages, Codes;
    var state := StateOf(msgs, count, s);
    RestoresExactly(c, state, checkpoint, rows);
    RestoreOfCheckpoint(c, state, checkpoint, rows);
    if Restored(c, rows) == Some(StateOf(msgs', count', s')) {
      assert StateOf(msgs', count', s') == Kept(state);
      CodesInjective(s'.decisions, s.decisions);
    }
  }
}
