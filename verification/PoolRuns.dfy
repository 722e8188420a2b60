/** What the session pool promises over any sequence of operations. */
module PoolRuns {
  import opened Basics
  import opened Keys
  import opened PoolState

  datatype Op =
    | AddOp(s: Session) | ObserveOp(id: string, n: int) | RemoveOp(id: string)
    | BindOp(rule: string, stream: string, s: Session)
    | SelectOp(rule: string, stream: string, clock: string -> real)
    | SendOp(rule: string, stream: string, connect: bool, clock: string -> real)
    | ReleaseOp(rule: string, stream: string) | CloseOp

  /** SelectSession: the bound session, or a new choice; an empty pool refuses. */
  ghost predicate SelectStep(policy: Policy, st: State, key: string, clock: string -> real, st2: State) {
    if key in st.streams || st.sessions == [] then st2 == st
    else exists i: nat :: Picks(policy, st, clock, i) && st2 == Pinned(Ready(policy, st, clock), key, st.sessions[i])
  }

  ghost predicate Step(policy: Policy, st: State, op: Op, st2: State) {
    match op
    case AddOp(s) => st2 == Added(st, s)
    case ObserveOp(id, n) => st2 == Observed(st, id, n)
    case RemoveOp(id) => st2 == Removed(st, id)
    case BindOp(rule, stream, s) => st2 == Bound(st, rule, stream, s)
    case SelectOp(rule, stream, clock) => SelectStep(policy, st, Key(rule, stream), clock, st2)
    case SendOp(rule, stream, connect, clock) => if connect then SelectStep(policy, st, Key(rule, stream), clock, st2)
      else st2 == st
    case ReleaseOp(rule, stream) => st2 == Released(st, Key(rule, stream))
    case CloseOp => st2 == Closed(st)
  }

  /** The session a frame leaves through, if the pool does not refuse it. */
  function Route(st2: State, key: string): Option<Session> {
    if key in st2.streams then Some(st2.streams[key]) else None
  }

  /** sts are the states before, between and after the operations. */
  ghost predicate Runs(policy: Policy, sts: seq<State>, ops: seq<Op>) {
    |sts| == |ops| + 1 && forall i :: 0 <= i < |ops| ==> Step(policy, sts[i], ops[i], sts[i + 1])
  }

  // --- agreement

  lemma ReadyAgrees(policy: Policy, st: State, clock: string -> real)
    requires Agree(st)
    ensures Agree(Ready(policy, st, clock))
    ensures var r := Ready(policy, st, clock);
            r.sessions == st.sessions && r.counts == st.counts && r.streams == st.streams && r.closed == st.closed
  {
    hide Distinct, Ids, CountsAgree, HealthAgrees;
    match policy
    case RoundRobin =>
    case LeastLoaded =>
    case HealthAware =>
      ScoredAgrees(st, clock);
      hide Agree;
  }

  lemma PicksBind(policy: Policy, st: State, key: string, clock: string -> real, i: nat)
    requires Agree(st) && key !in st.streams && i < |st.sessions|
    ensures var st2 := Pinned(Ready(policy, st, clock), key, st.sessions[i]);
            && Agree(st2) && st2.sessions == st.sessions && st2.closed == st.closed
            && st2.streams == st.streams[key := st.sessions[i]]
            && st.sessions[i].id in st.counts
            && st2.counts == st.counts[st.sessions[i].id := st.counts[st.sessions[i].id] + 1]
  {
    assert st.sessions[i].id in Ids(st.sessions) && st.sessions[i].id in st.counts;
    hide Agree, Ready;
    ReadyAgrees(policy, st, clock);
    PinnedAgrees(Ready(policy, st, clock), key, st.sessions[i]);
  }

  /** A selection binds a registered session to the stream, and nothing else changes hands. */
  lemma Selects(policy: Policy, st: State, key: string, clock: string -> real, st2: State)
    requires Agree(st) && SelectStep(policy, st, key, clock, st2)
    ensures Agree(st2) && st2.sessions == st.sessions && st2.closed == st.closed
    ensures forall k <- st.streams :: k in st2.streams && st2.streams[k] == st.streams[k]
    ensures forall k <- st2.streams :: k == key || k in st.streams
    ensures st.sessions != [] ==> key in st2.streams
    ensures key in st2.streams && key !in st.streams ==> st2.streams[key] in st.sessions
  {
    hide Agree, FirstLeast, FirstBest, Ready, Pinned;
    if key !in st.streams && st.sessions != [] {
      var i: nat :| Picks(policy, st, clock, i) && st2 == Pinned(Ready(policy, st, clock), key, st.sessions[i]);
      PicksBind(policy, st, key, clock, i);
    }
  }

  lemma StepAgrees(policy: Policy, st: State, op: Op, st2: State)
    requires Agree(st) && Step(policy, st, op, st2)
    ensures Agree(st2)
  {
    hide Agree, Added, Observed, Removed, Bound, Released, Closed, SelectStep, Key;
    match op
    case AddOp(s) => AddedAgrees(st, s);
    case ObserveOp(id, n) => ObservedAgrees(st, id, n);
    case RemoveOp(id) => RemovedAgrees(st, id);
    case BindOp(rule, stream, s) => BoundAgrees(st, rule, stream, s);
    case SelectOp(rule, stream, clock) => Selects(policy, st, Key(rule, stream), clock, st2);
    case SendOp(rule, stream, connect, clock) => if connect { Selects(policy, st, Key(rule, stream), clock, st2); }
    case ReleaseOp(rule, stream) => ReleasedAgrees(st, Key(rule, stream));
    case CloseOp => ClosedAgrees(st);
  }

  /** The redundant indexes agree after any sequence of operations. */
  lemma {:induction false} IndexesAlwaysAgree(policy: Policy, sts: seq<State>, ops: seq<Op>, n: nat)
    requires Runs(policy, sts, ops) && Agree(sts[0]) && n < |sts|
    ensures Agree(sts[n])
  {
    hide Agree, Step;
    if n > 0 {
      IndexesAlwaysAgree(policy, sts, ops, n - 1);
      assert Step(policy, sts[n - 1], ops[n - 1], sts[n]);
      StepAgrees(policy, sts[n - 1], ops[n - 1], sts[n]);
    }
  }

  // --- affinity

  /** Nothing that ends the binding of this stream to a session with this ID. */
  predicate Spares(op: Op, key: string, id: string) {
    match op
    case ReleaseOp(rule, stream) => Key(rule, stream) != key
    case RemoveOp(other) => other != id
    case CloseOp => false
    case _ => true
  }

  lemma StepKeepsBinding(policy: Policy, st: State, op: Op, st2: State, key: string)
    requires Agree(st) && Step(policy, st, op, st2) && key in st.streams && Spares(op, key, st.streams[key].id)
    ensures key in st2.streams && st2.streams[key] == st.streams[key]
  {
    hide Agree, SelectStep, Key;
    match op
    case SelectOp(rule, stream, clock) => Selects(policy, st, Key(rule, stream), clock, st2);
    case SendOp(rule, stream, connect, clock) => if connect { Selects(policy, st, Key(rule, stream), clock, st2); }
    case _ =>
  }

  /**
   Once a stream is bound, it keeps its session, and every frame sent for it goes there, until
   the stream is released, that session removed, or the pool closed.
   */
  lemma {:induction false} StreamsKeepTheirSession(policy: Policy, sts: seq<State>, ops: seq<Op>, key: string, n: nat)
    requires Runs(policy, sts, ops) && Agree(sts[0]) && key in sts[0].streams && n < |sts|
    requires forall i :: 0 <= i < n ==> Spares(ops[i], key, sts[0].streams[key].id)
    ensures key in sts[n].streams && sts[n].streams[key] == sts[0].streams[key]
    ensures n > 0 && ops[n - 1].SendOp? && Key(ops[n - 1].rule, ops[n - 1].stream) == key ==>
              Route(sts[n], key) == Some(sts[0].streams[key])
  {
    hide Agree, Step, Spares, Key;
    if n > 0 {
      StreamsKeepTheirSession(policy, sts, ops, key, n - 1);
      IndexesAlwaysAgree(policy, sts, ops, n - 1);
      assert Step(policy, sts[n - 1], ops[n - 1], sts[n]);
      StepKeepsBinding(policy, sts[n - 1], ops[n - 1], sts[n], key);
    }
  }

  /** A CONNECT's session takes an unknown stream of an open pool in which it is registered, and nothing else does. */
  lemma BindTakes(st: State, rule: string, stream: string, s: Session)
    requires Agree(st)
    ensures Bound(st, rule, stream, s) != st <==>
              rule != "" && stream != "" && !st.closed && s.id in Ids(st.sessions) && Key(rule, stream) !in st.streams
    ensures Bound(st, rule, stream, s) != st ==> Route(Bound(st, rule, stream, s), Key(rule, stream)) == Some(s)
  {
    hide Distinct, CountsAgree, HealthAgrees, Key, Ids;
  }

  /** So replies leave through the session the CONNECT came in on, until one of the three ends of the binding. */
  lemma RepliesFollowConnect(policy: Policy, sts: seq<State>, ops: seq<Op>, s: Session, n: nat)
    requires Runs(policy, sts, ops) && Agree(sts[0]) && 1 <= n < |sts|
    requires ops[0].BindOp? && ops[0].s == s && ops[0].rule != "" && ops[0].stream != ""
    requires !sts[0].closed && s.id in Ids(sts[0].sessions) && Key(ops[0].rule, ops[0].stream) !in sts[0].streams
    requires forall i :: 1 <= i < n ==> Spares(ops[i], Key(ops[0].rule, ops[0].stream), s.id)
    ensures Route(sts[n], Key(ops[0].rule, ops[0].stream)) == Some(s)
  {
    hide Agree, Spares, Key, Ids, Bound;
    var key := Key(ops[0].rule, ops[0].stream);
    assert Step(policy, sts[0], ops[0], sts[1]);
    BindTakes(sts[0], ops[0].rule, ops[0].stream, s);
    IndexesAlwaysAgree(policy, sts, ops, 1);
    LaterRuns(policy, sts, ops);
    StreamsKeepTheirSession(policy, sts[1..], ops[1..], key, n - 1);
  }

  lemma LaterRuns(policy: Policy, sts: seq<State>, ops: seq<Op>)
    requires Runs(policy, sts, ops) && ops != []
    ensures Runs(policy, sts[1..], ops[1..])
  {
    hide Step;
    forall i | 0 <= i < |ops[1..]| ensures Step(policy, sts[1..][i], ops[1..][i], sts[1..][i + 1]) {
      assert Step(policy, sts[i + 1], ops[i + 1], sts[i + 2]);
    }
  }

  /** Nothing that binds this stream. */
  predicate LeavesUnbound(op: Op, key: string) {
    match op
    case BindOp(rule, stream, _) => Key(rule, stream) != key
    case SelectOp(rule, stream, _) => Key(rule, stream) != key
    case SendOp(rule, stream, connect, _) => connect ==> Key(rule, stream) != key
    case _ => true
  }

  lemma StepKeepsUnbound(policy: Policy, st: State, op: Op, st2: State, key: string)
    requires Agree(st) && Step(policy, st, op, st2) && key !in st.streams && LeavesUnbound(op, key)
    ensures key !in st2.streams
  {
    hide Agree, SelectStep, Key;
    match op
    case SelectOp(rule, stream, clock) => Selects(policy, st, Key(rule, stream), clock, st2);
    case SendOp(rule, stream, connect, clock) => if connect { Selects(policy, st, Key(rule, stream), clock, st2); }
    case _ =>
  }

  /**
   An unbound stream stays unbound, and every later frame but a CONNECT is refused, until
   something binds it again.
   */
  lemma {:induction false} UnboundFramesAreRefused(policy: Policy, sts: seq<State>, ops: seq<Op>, key: string, n: nat)
    requires Runs(policy, sts, ops) && Agree(sts[0]) && key !in sts[0].streams && n < |sts|
    requires forall i :: 0 <= i < n ==> LeavesUnbound(ops[i], key)
    ensures key !in sts[n].streams && Route(sts[n], key) == None
  {
    hide Agree, Step, LeavesUnbound;
    if n > 0 {
      UnboundFramesAreRefused(policy, sts, ops, key, n - 1);
      IndexesAlwaysAgree(policy, sts, ops, n - 1);
      assert Step(policy, sts[n - 1], ops[n - 1], sts[n]);
      StepKeepsUnbound(policy, sts[n - 1], ops[n - 1], sts[n], key);
    }
  }

  /** Each of the three ends of a binding does end it. */
  lemma BindingEnds(st: State, key: string, id: string)
    requires Agree(st)
    ensures key !in Released(st, key).streams
    ensures key in st.streams && st.streams[key].id == id ==> key !in Removed(st, id).streams
    ensures key !in Closed(st).streams
  {
  }

  // --- closing and losing

  predicate EmptyPool(st: State) { st.closed && st.sessions == [] && st.streams == map[] && st.counts == map[] }

  lemma ClosedIsEmpty(st: State)
    requires Agree(st) && st.closed
    ensures EmptyPool(st)
  {
    assert Ids(st.sessions) == {};
    assert st.counts.Keys == {};
    assert st.streams.Keys == {};
    hide HealthAgrees;
  }

  lemma StepStaysClosed(policy: Policy, st: State, op: Op, st2: State)
    requires Agree(st) && Step(policy, st, op, st2) && st.closed
    ensures st2.closed
  {
    hide Agree, SelectStep, Key;
    match op
    case SelectOp(rule, stream, clock) => Selects(policy, st, Key(rule, stream), clock, st2);
    case SendOp(rule, stream, connect, clock) => if connect { Selects(policy, st, Key(rule, stream), clock, st2); }
    case _ =>
  }

  /** A closed pool stays empty: nothing is added, bound or sent ever again. */
  lemma {:induction false} ClosedForEver(policy: Policy, sts: seq<State>, ops: seq<Op>, n: nat)
    requires Runs(policy, sts, ops) && Agree(sts[0]) && sts[0].closed && n < |sts|
    ensures EmptyPool(sts[n])
  {
    hide Agree, Step, EmptyPool;
    if n == 0 {
      ClosedIsEmpty(sts[0]);
    } else {
      ClosedForEver(policy, sts, ops, n - 1);
      IndexesAlwaysAgree(policy, sts, ops, n - 1);
      IndexesAlwaysAgree(policy, sts, ops, n);
      assert Step(policy, sts[n - 1], ops[n - 1], sts[n]);
      RevealEmpty(sts[n - 1]);
      StepStaysClosed(policy, sts[n - 1], ops[n - 1], sts[n]);
      ClosedIsEmpty(sts[n]);
    }
  }

  lemma RevealEmpty(st: State)
    requires EmptyPool(st)
    ensures st.closed
  {
  }

  /** Nothing that registers a session with this ID. */
  predicate NeverAdds(op: Op, id: string) { op.AddOp? ==> op.s.id != id }

  predicate Absent(st: State, id: string) { id !in Ids(st.sessions) && BoundTo(st.streams, id) == {} }

  lemma UnregisteredIsAbsent(st: State, id: string)
    requires Agree(st) && id !in Ids(st.sessions)
    ensures Absent(st, id)
  {
    hide HealthAgrees, Distinct;
  }

  lemma StepStaysAbsent(policy: Policy, st: State, op: Op, st2: State, id: string)
    requires Agree(st) && Step(policy, st, op, st2) && id !in Ids(st.sessions) && NeverAdds(op, id)
    ensures id !in Ids(st2.sessions)
  {
    hide Agree, SelectStep, Key;
    match op
    case SelectOp(rule, stream, clock) => Selects(policy, st, Key(rule, stream), clock, st2);
    case SendOp(rule, stream, connect, clock) => if connect { Selects(policy, st, Key(rule, stream), clock, st2); }
    case RemoveOp(other) => KeptIds(st.sessions, other);
    case _ =>
  }

  /** A removed session is gone for good: unless it is added again, it is neither registered nor bound to any stream. */
  lemma {:induction false} RemovedStaysAbsent(policy: Policy, sts: seq<State>, ops: seq<Op>, id: string, n: nat)
    requires Runs(policy, sts, ops) && Agree(sts[0]) && n < |sts|
    requires id !in Ids(sts[0].sessions) && forall i :: 0 <= i < n ==> NeverAdds(ops[i], id)
    ensures Absent(sts[n], id)
  {
    hide Agree, Step, NeverAdds;
    if n > 0 {
      RemovedStaysAbsent(policy, sts, ops, id, n - 1);
      IndexesAlwaysAgree(policy, sts, ops, n - 1);
      assert Step(policy, sts[n - 1], ops[n - 1], sts[n]);
      StepStaysAbsent(policy, sts[n - 1], ops[n - 1], sts[n], id);
    }
    IndexesAlwaysAgree(policy, sts, ops, n);
    UnregisteredIsAbsent(sts[n], id);
  }

  /** RemoveSession splits the bindings: those of the session go, all others stay with their sessions. */
  lemma LostSessionPartition(st: State, id: string)
    requires Agree(st)
    ensures Absent(Removed(st, id), id)
    ensures BoundTo(st.streams, id) !! Removed(st, id).streams.Keys
    ensures BoundTo(st.streams, id) + Removed(st, id).streams.Keys == st.streams.Keys
    ensures forall k <- Removed(st, id).streams :: Removed(st, id).streams[k] == st.streams[k]
    ensures forall s <- st.sessions :: s.id != id ==> s in Removed(st, id).sessions
  {
    KeptIds(st.sessions, id);
    KeptMembers(st.sessions, id);
    hide Agree;
    RemovedAgrees(st, id);
    hide Kept;
    UnregisteredIsAbsent(Removed(st, id), id);
  }
}
