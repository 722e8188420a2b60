/** How well the dispatch policies choose, and how evenly they spread streams. */
module PoolBalance {
  import opened Basics
  import opened PoolState
  import opened PoolRuns

  // --- one choice

  lemma {:induction false} LeastExists(st: State, n: nat) returns (i: nat)
    requires 0 < n <= |st.sessions|
    ensures i < n && forall j :: 0 <= j < n ==> Active(st, st.sessions[i]) <= Active(st, st.sessions[j])
    ensures forall j :: 0 <= j < i ==> Active(st, st.sessions[i]) < Active(st, st.sessions[j])
  {
    if n == 1 {
      i := 0;
    } else {
      i := LeastExists(st, n - 1);
      if Active(st, st.sessions[n - 1]) < Active(st, st.sessions[i]) { i := n - 1; }
    }
  }

  lemma {:induction false} BestExists(st: State, n: nat) returns (i: nat)
    requires 0 < n <= |st.sessions| && forall s <- st.sessions :: Active(st, s) >= 0
    ensures i < n && forall j :: 0 <= j < n ==> ScoreOf(st, st.sessions[j]) <= ScoreOf(st, st.sessions[i])
    ensures forall j :: 0 <= j < i ==> ScoreOf(st, st.sessions[j]) < ScoreOf(st, st.sessions[i])
  {
    hide ScoreOf;
    if n == 1 {
      i := 0;
    } else {
      i := BestExists(st, n - 1);
      if ScoreOf(st, st.sessions[i]) < ScoreOf(st, st.sessions[n - 1]) { i := n - 1; }
    }
  }

  lemma CountsAreNatural(st: State)
    requires Agree(st)
    ensures forall s <- st.sessions :: s.id in st.counts && Active(st, s) == |BoundTo(st.streams, s.id)|
  {
    assert forall s <- st.sessions :: s.id in Ids(st.sessions);
    hide HealthAgrees, Distinct;
  }

  /** Every policy makes exactly one choice as long as a session is registered. */
  lemma ChoiceIsTotal(policy: Policy, st: State, clock: string -> real)
    requires Agree(st) && st.sessions != []
    ensures exists i: nat :: Picks(policy, st, clock, i)
  {
    hide Agree, Scored;
    match policy
    case RoundRobin =>
      assert Picks(policy, st, clock, st.rr % |st.sessions|);
    case LeastLoaded =>
      var i := LeastExists(st, |st.sessions|);
      assert Picks(policy, st, clock, i);
    case HealthAware =>
      var st2 := Scored(st, clock);
      ReadyAgrees(policy, st, clock);
      CountsAreNatural(st2);
      assert st2.sessions == st.sessions;
      var i := BestExists(st2, |st2.sessions|);
      assert Picks(policy, st, clock, i);
  }

  lemma LeastBeats(st: State, i: nat, j: nat)
    requires FirstLeast(st, i) && j < |st.sessions|
    ensures Active(st, st.sessions[i]) <= Active(st, st.sessions[j])
    ensures j < i ==> Active(st, st.sessions[i]) < Active(st, st.sessions[j])
  {
  }

  lemma BestBeats(st: State, i: nat, j: nat)
    requires FirstBest(st, i) && j < |st.sessions|
    ensures Active(st, st.sessions[i]) >= 0 && Active(st, st.sessions[j]) >= 0
    ensures ScoreOf(st, st.sessions[j]) <= ScoreOf(st, st.sessions[i])
    ensures j < i ==> ScoreOf(st, st.sessions[j]) < ScoreOf(st, st.sessions[i])
  {
    hide ScoreOf, Active;
  }

  lemma ChoiceIsUnique(policy: Policy, st: State, clock: string -> real, i: nat, j: nat)
    requires Picks(policy, st, clock, i) && Picks(policy, st, clock, j)
    ensures i == j
  {
    hide Scored, ScoreOf, Active, FirstLeast, FirstBest;
    match policy
    case RoundRobin =>
    case LeastLoaded =>
      LeastBeats(st, i, j);
      LeastBeats(st, j, i);
    case HealthAware =>
      assert Scored(st, clock).sessions == st.sessions by { ScoredSessions(st, clock); }
      BestBeats(Scored(st, clock), i, j);
      BestBeats(Scored(st, clock), j, i);
  }

  lemma ScoredSessions(st: State, clock: string -> real)
    ensures Scored(st, clock).sessions == st.sessions
  {
  }

  /** The least-loaded choice carries no more streams than any other session, by the true binding counts. */
  lemma LeastLoadedIsMinimal(st: State, clock: string -> real, i: nat, s: Session)
    requires Agree(st) && Picks(LeastLoaded, st, clock, i) && s in st.sessions
    ensures |BoundTo(st.streams, st.sessions[i].id)| <= |BoundTo(st.streams, s.id)|
  {
    CountsAreNatural(st);
    hide Agree;
  }

  /** The rate a health-aware choice uses is that of the measured samples, and lies between zero and their peak. */
  lemma RatesAreBounded(st: State, clock: string -> real, id: string)
    requires Agree(st) && id in Scored(st, clock).health
    ensures var st2 := Scored(st, clock);
            && id in st2.samples && id in st2.received && st2.health[id].bytes <= st2.received[id]
            && (st2.health[id].rate.Some? <==> st2.samples[id] != [])
            && (st2.samples[id] != [] ==> 0.0 <= st2.health[id].rate.value <= Peak(st2.samples[id]))
  {
    ScoredAgrees(st, clock);
    hide Scored, Distinct, CountsAgree;
    var st2 := Scored(st, clock);
    if st2.samples[id] != [] { SmoothIsBounded(st2.samples[id]); }
  }

  /** The health-aware choice is a registered session with the highest score, and every score is positive. */
  lemma HealthAwareIsMaximal(st: State, clock: string -> real, i: nat, s: Session)
    requires Agree(st) && Picks(HealthAware, st, clock, i) && s in st.sessions
    ensures st.sessions[i] in st.sessions
    ensures var st2 := Scored(st, clock);
            Active(st2, s) >= 0 && 0.0 < ScoreOf(st2, s) <= ScoreOf(st2, st.sessions[i])
  {
    hide Agree, Score, Scored, HealthOf, Capacity;
    ReadyAgrees(HealthAware, st, clock);
    var st2 := Scored(st, clock);
    CountsAreNatural(st2);
    ScoreIsPositive(HealthOf(st2, s.id), Active(st2, s));
    var j: nat :| j < |st2.sessions| && st2.sessions[j] == s;
  }

  // --- many choices

  /** A series of selections for new streams, with nothing in between. */
  ghost predicate Fills(policy: Policy, sts: seq<State>, keys: seq<string>, clocks: seq<string -> real>) {
    && |sts| == |keys| + 1 && |clocks| == |keys|
    && forall i :: 0 <= i < |keys| ==>
       keys[i] !in sts[i].streams && SelectStep(policy, sts[i], keys[i], clocks[i], sts[i + 1])
  }

  /** Freshly registered sessions: nothing bound yet. */
  predicate FreshPool(st: State) { Agree(st) && st.sessions != [] && st.streams == map[] }

  /** Either of the two quotients when k streams are shared by n sessions. */
  predicate FairShare(count: int, k: nat, n: nat)
    requires n > 0
  {
    count == k / n || (k % n != 0 && count == k / n + 1)
  }

  lemma {:induction false} MulGap(x: nat, y: nat, n: nat)
    requires x < y
    ensures x * n + n <= y * n
    decreases y
  {
    if x + 1 < y { MulGap(x, y - 1, n); }
    assert (y - 1) * n + n == y * n;
  }

  lemma QuotientIs(k: nat, q: nat, r: nat, n: nat)
    requires k == q * n + r && r < n
    ensures k / n == q && k % n == r
  {
    var q2, r2 := k / n, k % n;
    assert k == q2 * n + r2 && 0 <= r2 < n;
    if q < q2 {
      MulGap(q, q2, n);
    } else if q2 < q {
      MulGap(q2, q, n);
    }
  }

  /** How many streams each session carries, in the order of registration. */
  function Loads(st: State): (loads: seq<int>)
    ensures |loads| == |st.sessions| && forall i :: 0 <= i < |loads| ==> loads[i] == Active(st, st.sessions[i])
  {
    seq(|st.sessions|, i requires 0 <= i < |st.sessions| => Active(st, st.sessions[i]))
  }

  lemma SameId(sessions: seq<Session>, i: nat, j: nat)
    requires Distinct(sessions) && i < |sessions| && j < |sessions|
    ensures sessions[i].id == sessions[j].id <==> i == j
  {
  }

  lemma OneMoreAt(st: State, st2: State, i: nat, j: nat)
    requires i < |st.sessions| && j < |st.sessions| && st.sessions[i].id in st.counts
    requires st.sessions[i].id == st.sessions[j].id <==> i == j
    requires st2.counts == st.counts[st.sessions[i].id := st.counts[st.sessions[i].id] + 1]
    ensures Active(st2, st.sessions[j]) == Active(st, st.sessions[j]) + (if j == i then 1 else 0)
  {
  }

  lemma OneMore(st: State, st2: State, i: nat)
    requires Agree(st) && i < |st.sessions| && st2.sessions == st.sessions && st.sessions[i].id in st.counts
    requires st2.counts == st.counts[st.sessions[i].id := st.counts[st.sessions[i].id] + 1]
    ensures Loads(st2) == Loads(st)[i := Loads(st)[i] + 1]
  {
    assert Distinct(st.sessions);
    hide Agree, Distinct, Active, Loads;
    forall j: nat | j < |st.sessions| ensures Loads(st2)[j] == Loads(st)[j] + (if j == i then 1 else 0) {
      SameId(st.sessions, i, j);
      OneMoreAt(st, st2, i, j);
    }
  }

  /** A selection for a new stream adds one to the load of the session the policy picks. */
  lemma SelectionLoads(policy: Policy, st: State, key: string, clock: string -> real, st2: State) returns (i: nat)
    requires Agree(st) && st.sessions != [] && key !in st.streams && SelectStep(policy, st, key, clock, st2)
    ensures Picks(policy, st, clock, i) && i < |st.sessions| && Agree(st2) && st2.sessions == st.sessions
    ensures Loads(st2) == Loads(st)[i := Loads(st)[i] + 1] && st2.rr == Ready(policy, st, clock).rr
  {
    hide Agree, FirstLeast, FirstBest, Ready, Loads;
    i :| Picks(policy, st, clock, i) && st2 == Pinned(Ready(policy, st, clock), key, st.sessions[i]);
    PicksBind(policy, st, key, clock, i);
    OneMore(st, st2, i);
  }

  lemma RoundRobinStep(st: State, key: string, clock: string -> real, st2: State)
    requires Agree(st) && st.sessions != [] && key !in st.streams && SelectStep(RoundRobin, st, key, clock, st2)
    ensures Agree(st2) && st2.sessions == st.sessions && st2.rr == st.rr + 1
    ensures var i := st.rr % |st.sessions|; Loads(st2) == Loads(st)[i := Loads(st)[i] + 1]
  {
    hide Agree, FirstLeast, FirstBest, Loads, SelectStep;
    var i := SelectionLoads(RoundRobin, st, key, clock, st2);
  }

  lemma LeastLoadedStep(st: State, key: string, clock: string -> real, st2: State) returns (i: nat)
    requires Agree(st) && st.sessions != [] && key !in st.streams && SelectStep(LeastLoaded, st, key, clock, st2)
    ensures Agree(st2) && st2.sessions == st.sessions && i < |st.sessions|
    ensures Loads(st2) == Loads(st)[i := Loads(st)[i] + 1] && forall j :: 0 <= j < |st.sessions| ==>
            Loads(st)[i] <= Loads(st)[j]
  {
    hide Agree, Picks, Loads, SelectStep;
    i := SelectionLoads(LeastLoaded, st, key, clock, st2);
    LeastStep(st, clock, i);
  }

  lemma LeastStep(st: State, clock: string -> real, i: nat)
    requires Picks(LeastLoaded, st, clock, i)
    ensures i < |st.sessions| && forall j :: 0 <= j < |st.sessions| ==> Loads(st)[i] <= Loads(st)[j]
  {
    hide Active;
  }

  lemma FillsSizes(policy: Policy, sts: seq<State>, keys: seq<string>, clocks: seq<string -> real>)
    requires Fills(policy, sts, keys, clocks)
    ensures |sts| == |keys| + 1 && |clocks| == |keys|
  {
    hide SelectStep;
  }

  lemma FillsAt(policy: Policy, sts: seq<State>, keys: seq<string>, clocks: seq<string -> real>, k: nat)
    requires Fills(policy, sts, keys, clocks) && k < |keys|
    ensures |sts| == |keys| + 1 && |clocks| == |keys|
    ensures keys[k] !in sts[k].streams && SelectStep(policy, sts[k], keys[k], clocks[k], sts[k + 1])
  {
    hide SelectStep;
  }

  lemma FreshLoads(st: State)
    requires FreshPool(st)
    ensures forall i :: 0 <= i < |st.sessions| ==> Loads(st)[i] == 0
  {
    CountsAreNatural(st);
    assert forall s <- st.sessions :: BoundTo(st.streams, s.id) == {};
    hide Agree, BoundTo;
  }

  lemma TrueLoad(st: State, s: Session) returns (i: nat)
    requires Agree(st) && s in st.sessions
    ensures i < |st.sessions| && Loads(st)[i] == |BoundTo(st.streams, s.id)|
  {
    CountsAreNatural(st);
    hide Agree, BoundTo, Active;
    i :| i < |st.sessions| && st.sessions[i] == s;
  }

  // --- round robin: r sessions from slot start on carry q + 1 streams, the others q

  function Offset(i: int, start: nat, n: nat): int { if i >= start then i - start else i - start + n }

  predicate Spread(loads: seq<int>, rr: nat, start: nat, q: nat, r: nat) {
    var n := |loads|;
    && r < n && start < n && Offset(rr % n, start, n) == r
    && forall i :: 0 <= i < n ==> loads[i] == q + (if Offset(i, start, n) < r then 1 else 0)
  }

  lemma NextSlot(x: nat, n: nat)
    requires n > 0
    ensures (x + 1) % n == if x % n == n - 1 then 0 else x % n + 1
  {
    var q, r := x / n, x % n;
    if r == n - 1 {
      assert x + 1 == (q + 1) * n;
      QuotientIs(x + 1, q + 1, 0, n);
    } else {
      QuotientIs(x + 1, q, r + 1, n);
    }
  }

  lemma SpreadStep(loads: seq<int>, rr: nat, start: nat, q: nat, r: nat)
    requires Spread(loads, rr, start, q, r)
    ensures var n := |loads|; var i := rr % n; var loads2 := loads[i := loads[i] + 1];
            if r + 1 == n then Spread(loads2, rr + 1, start, q + 1, 0) else Spread(loads2, rr + 1, start, q, r + 1)
  {
    NextSlot(rr, |loads|);
  }

  lemma SpreadFresh(loads: seq<int>, rr: nat)
    requires loads != [] && forall i :: 0 <= i < |loads| ==> loads[i] == 0
    ensures Spread(loads, rr, rr % |loads|, 0, 0)
  {
  }

  /** After k new streams: each session has the quotient or one more, in registration order from the start slot on. */
  predicate Shared(st: State, first: State, k: nat, q: nat, r: nat) {
    && first.sessions != [] && Agree(st) && st.sessions == first.sessions
    && Spread(Loads(st), st.rr, first.rr % |first.sessions|, q, r) && k == q * |first.sessions| + r
  }

  lemma SharedFresh(st: State)
    requires FreshPool(st)
    ensures Shared(st, st, 0, 0, 0)
  {
    FreshLoads(st);
    SpreadFresh(Loads(st), st.rr);
    hide Agree, Spread, Loads;
  }

  lemma SharedNext(st: State, first: State, key: string, clock: string -> real, st2: State, k: nat, q: nat, r: nat)
    returns (q2: nat, r2: nat)
    requires Shared(st, first, k, q, r) && key !in st.streams && SelectStep(RoundRobin, st, key, clock, st2)
    ensures Shared(st2, first, k + 1, q2, r2)
  {
    hide Agree, Spread, SelectStep, Loads;
    var n := |first.sessions|;
    RoundRobinStep(st, key, clock, st2);
    SpreadStep(Loads(st), st.rr, first.rr % n, q, r);
    if r + 1 == n {
      assert (q + 1) * n == q * n + n;
      q2, r2 := q + 1, 0;
    } else {
      q2, r2 := q, r + 1;
    }
  }

  lemma {:induction false} RoundRobinShares(sts: seq<State>, keys: seq<string>, clocks: seq<string -> real>, k: nat)
    requires Fills(RoundRobin, sts, keys, clocks) && FreshPool(sts[0]) && k < |sts|
    ensures exists q: nat, r: nat :: Shared(sts[k], sts[0], k, q, r)
  {
    hide *;
    FillsSizes(RoundRobin, sts, keys, clocks);
    if k == 0 {
      SharedFresh(sts[0]);
    } else {
      FillsAt(RoundRobin, sts, keys, clocks, k - 1);
      RoundRobinShares(sts, keys, clocks, k - 1);
      var q: nat, r: nat :| Shared(sts[k - 1], sts[0], k - 1, q, r);
      q, r := SharedNext(sts[k - 1], sts[0], keys[k - 1], clocks[k - 1], sts[k], k - 1, q, r);
    }
  }

  lemma SharedIsFair(st: State, first: State, k: nat, q: nat, r: nat, s: Session)
    requires Shared(st, first, k, q, r) && s in st.sessions
    ensures FairShare(|BoundTo(st.streams, s.id)|, k, |first.sessions|)
  {
    hide Agree, Loads, BoundTo;
    var i := TrueLoad(st, s);
    QuotientIs(k, q, r, |first.sessions|);
  }

  /** k new streams over n fresh sessions: round robin leaves each with the quotient, rounded down or up. */
  lemma RoundRobinBalances(sts: seq<State>, keys: seq<string>, clocks: seq<string -> real>, s: Session)
    requires Fills(RoundRobin, sts, keys, clocks) && FreshPool(sts[0]) && s in sts[0].sessions
    ensures FairShare(|BoundTo(sts[|keys|].streams, s.id)|, |keys|, |sts[0].sessions|)
  {
    RoundRobinShares(sts, keys, clocks, |keys|);
    hide Fills, BoundTo, Agree, Spread, Loads, FairShare;
    var q: nat, r: nat :| Shared(sts[|keys|], sts[0], |keys|, q, r);
    SharedIsFair(sts[|keys|], sts[0], |keys|, q, r, s);
  }

  /** Sessions stand in the order in which they were added. */
  lemma {:induction false} RegistersInOrder(policy: Policy, sts: seq<State>, ss: seq<Session>, n: nat)
    requires Runs(policy, sts, Adding(ss)) && sts[0] == EMPTY && Distinct(ss) && n <= |ss|
    ensures Agree(sts[n]) && !sts[n].closed && sts[n].sessions == ss[..n]
  {
    hide Agree, Added, Distinct;
    if n == 0 {
      EmptyAgrees();
    } else {
      var st, s := sts[n - 1], ss[n - 1];
      RegistersInOrder(policy, sts, ss, n - 1);
      assert Step(policy, st, Adding(ss)[n - 1], sts[n]);
      assert !Has(st, s.id) by { NewId(ss, n - 1); }
      AddedAgrees(st, s);
      AddedIs(st, s);
      assert ss[..n] == ss[..n - 1] + [s];
    }
  }

  function Adding(ss: seq<Session>): (ops: seq<Op>)
    ensures |ops| == |ss| && forall i :: 0 <= i < |ss| ==> ops[i] == AddOp(ss[i])
  {
    seq(|ss|, i requires 0 <= i < |ss| => AddOp(ss[i]))
  }

  lemma NewId(ss: seq<Session>, n: nat)
    requires Distinct(ss) && n < |ss|
    ensures forall i :: 0 <= i < n ==> ss[..n][i].id != ss[n].id
  {
  }

  /** And round robin takes them in this order, over and over: the k-th new stream gets the k-th session. */
  lemma {:induction false} RoundRobinTakesTurns(sts: seq<State>, keys: seq<string>, clocks: seq<string -> real>, k: nat)
    requires Fills(RoundRobin, sts, keys, clocks) && Agree(sts[0]) && sts[0].sessions != [] && k < |sts|
    ensures Agree(sts[k]) && sts[k].sessions == sts[0].sessions && sts[k].rr == sts[0].rr + k
    ensures k > 0 ==> Route(sts[k], keys[k - 1])
                      == Some(sts[0].sessions[(sts[0].rr + k - 1) % |sts[0].sessions|])
  {
    FillsSizes(RoundRobin, sts, keys, clocks);
    hide Agree, Fills, SelectStep;
    if k > 0 {
      RoundRobinTakesTurns(sts, keys, clocks, k - 1);
      FillsAt(RoundRobin, sts, keys, clocks, k - 1);
      RoundRobinStep(sts[k - 1], keys[k - 1], clocks[k - 1], sts[k]);
      RoundRobinRoute(sts[k - 1], keys[k - 1], clocks[k - 1], sts[k]);
    }
  }

  lemma RoundRobinRoute(st: State, key: string, clock: string -> real, st2: State)
    requires Agree(st) && st.sessions != [] && key !in st.streams && SelectStep(RoundRobin, st, key, clock, st2)
    ensures Route(st2, key) == Some(st.sessions[st.rr % |st.sessions|])
  {
    hide Agree, FirstLeast, FirstBest, Ready, Pinned;
    var i: nat :| Picks(RoundRobin, st, clock, i) && st2 == Pinned(Ready(RoundRobin, st, clock), key, st.sessions[i]);
    PicksBind(RoundRobin, st, key, clock, i);
  }

  // --- least loaded: all loads within one of each other

  function Sum(loads: seq<int>): int {
    if loads == [] then 0 else Sum(loads[..|loads| - 1]) + loads[|loads| - 1]
  }

  predicate Level(loads: seq<int>, m: nat) { (forall x <- loads :: m <= x <= m + 1) && m in loads }

  lemma {:induction false} SumAfter(loads: seq<int>, i: nat)
    requires i < |loads|
    ensures Sum(loads[i := loads[i] + 1]) == Sum(loads) + 1
  {
    var more, n := loads[i := loads[i] + 1], |loads| - 1;
    if i < n {
      SumAfter(loads[..n], i);
      assert more[..n] == loads[..n][i := loads[i] + 1];
    } else {
      assert more[..n] == loads[..n];
    }
  }

  lemma {:induction false} SumBetween(loads: seq<int>, m: nat)
    requires forall x <- loads :: m <= x <= m + 1
    ensures |loads| * m <= Sum(loads) <= |loads| * m + |loads|
    ensures m in loads ==> Sum(loads) < |loads| * m + |loads|
    ensures m + 1 in loads ==> Sum(loads) > |loads| * m
  {
    if loads != [] {
      var init, last := loads[..|loads| - 1], loads[|loads| - 1];
      assert loads == init + [last] && last in loads;
      assert forall x <- init :: x in loads;
      SumBetween(init, m);
      assert |loads| * m == |init| * m + m;
    }
  }

  lemma LevelAfter(loads: seq<int>, i: nat, m: nat)
    requires Level(loads, m) && i < |loads| && forall j :: 0 <= j < |loads| ==> loads[i] <= loads[j]
    ensures Level(loads[i := loads[i] + 1], m) || Level(loads[i := loads[i] + 1], m + 1)
  {
    var more := loads[i := loads[i] + 1];
    var least :| 0 <= least < |loads| && loads[least] == m;
    assert loads[i] in loads && loads[i] <= loads[least];
    assert forall j :: 0 <= j < |loads| ==> loads[j] in loads;
    assert more[i] == m + 1;
    if m !in more { assert forall x <- more :: x == m + 1; }
  }

  lemma LevelFresh(loads: seq<int>)
    requires loads != [] && forall i :: 0 <= i < |loads| ==> loads[i] == 0
    ensures Level(loads, 0) && Sum(loads) == 0
  {
    assert loads[0] in loads;
    ZeroSum(loads);
  }

  /** After k new streams: all sessions within one stream of each other. */
  predicate Leveled(st: State, first: State, k: nat, m: nat) {
    first.sessions != [] && Agree(st) && st.sessions == first.sessions && Level(Loads(st), m) && Sum(Loads(st)) == k
  }

  lemma LeveledFresh(st: State)
    requires FreshPool(st)
    ensures Leveled(st, st, 0, 0)
  {
    FreshLoads(st);
    LevelFresh(Loads(st));
    hide Agree, Level, Sum, Loads;
  }

  lemma LeveledNext(st: State, first: State, key: string, clock: string -> real, st2: State, k: nat, m: nat)
    requires Leveled(st, first, k, m) && key !in st.streams && SelectStep(LeastLoaded, st, key, clock, st2)
    ensures Leveled(st2, first, k + 1, m) || Leveled(st2, first, k + 1, m + 1)
  {
    hide Agree, Level, Sum, Loads, SelectStep;
    var i := LeastLoadedStep(st, key, clock, st2);
    LevelAfter(Loads(st), i, m);
    SumAfter(Loads(st), i);
  }

  lemma {:induction false} LeastLoadedLevels(sts: seq<State>, keys: seq<string>, clocks: seq<string -> real>, k: nat)
    requires Fills(LeastLoaded, sts, keys, clocks) && FreshPool(sts[0]) && k < |sts|
    ensures exists m: nat :: Leveled(sts[k], sts[0], k, m)
  {
    hide *;
    FillsSizes(LeastLoaded, sts, keys, clocks);
    if k == 0 {
      LeveledFresh(sts[0]);
    } else {
      FillsAt(LeastLoaded, sts, keys, clocks, k - 1);
      LeastLoadedLevels(sts, keys, clocks, k - 1);
      var m: nat :| Leveled(sts[k - 1], sts[0], k - 1, m);
      LeveledNext(sts[k - 1], sts[0], keys[k - 1], clocks[k - 1], sts[k], k - 1, m);
    }
  }

  lemma {:induction false} ZeroSum(loads: seq<int>)
    requires forall i :: 0 <= i < |loads| ==> loads[i] == 0
    ensures Sum(loads) == 0
  {
    if loads != [] { ZeroSum(loads[..|loads| - 1]); }
  }

  lemma LeveledIsFair(st: State, first: State, k: nat, m: nat, s: Session)
    requires Leveled(st, first, k, m) && s in st.sessions
    ensures FairShare(|BoundTo(st.streams, s.id)|, k, |first.sessions|)
  {
    hide Agree, Loads, BoundTo, Sum;
    var n := |first.sessions|;
    var i := TrueLoad(st, s);
    SumBetween(Loads(st), m);
    assert m * n == n * m;
    QuotientIs(k, m, k - m * n, n);
    assert Loads(st)[i] in Loads(st);
  }

  /** So does the least-loaded policy. */
  lemma LeastLoadedBalances(sts: seq<State>, keys: seq<string>, clocks: seq<string -> real>, s: Session)
    requires Fills(LeastLoaded, sts, keys, clocks) && FreshPool(sts[0]) && s in sts[0].sessions
    ensures FairShare(|BoundTo(sts[|keys|].streams, s.id)|, |keys|, |sts[0].sessions|)
  {
    LeastLoadedLevels(sts, keys, clocks, |keys|);
    hide Fills, BoundTo, Agree, Level, Loads, FairShare, Sum;
    var m: nat :| Leveled(sts[|keys|], sts[0], |keys|, m);
    LeveledIsFair(sts[|keys|], sts[0], |keys|, m, s);
  }
}
