/**
 What the health-aware policy measures, and what it makes of it: received bytes are counted
 for the session they came from, a rate is what was received in the time that passed, and
 faster and emptier sessions are preferred.
 */
module PoolHealth {
  import opened Basics
  import opened Keys
  import opened PoolState
  import opened PoolRuns

  // --- received bytes

  function Size(op: Op, id: string): nat { if op.ObserveOp? && op.id == id && op.n > 0 then op.n else 0 }

  /** The bytes observed for a session in a series of operations; sizes that are not positive do not count. */
  function Sizes(ops: seq<Op>, id: string): nat {
    if ops == [] then 0 else Sizes(ops[..|ops| - 1], id) + Size(ops[|ops| - 1], id)
  }

  /** Nothing that takes the session with this ID out of the pool. */
  predicate KeepsSession(op: Op, id: string) { !op.CloseOp? && (op.RemoveOp? ==> op.id != id) }

  predicate Registered(st: State, id: string) { id in Ids(st.sessions) && id in st.received && id in st.health }

  lemma RegisteredIs(st: State, id: string)
    requires Agree(st)
    ensures Registered(st, id) <==> id in Ids(st.sessions)
  {
    hide Distinct, Ids, CountsAgree, HealthAgrees;
  }

  lemma ReadyReceived(policy: Policy, st: State, clock: string -> real)
    ensures Ready(policy, st, clock).received == st.received && Ready(policy, st, clock).sessions == st.sessions
  {
  }

  lemma SelectReceived(policy: Policy, st: State, key: string, clock: string -> real, st2: State)
    requires SelectStep(policy, st, key, clock, st2)
    ensures st2.received == st.received && st2.sessions == st.sessions
  {
    hide Picks, Ready;
    ReadyReceived(policy, st, clock);
  }

  lemma AddReceived(st: State, s: Session, id: string)
    requires Agree(st) && Registered(st, id)
    ensures id in Ids(Added(st, s).sessions) && id in Added(st, s).received
            && Added(st, s).received[id] == st.received[id]
  {
    hide Agree;
    if s.id == id {
      assert exists x :: x in st.sessions && x.id == id;
      assert Has(st, s.id);
    } else {
      var x: Session :| x in st.sessions && x.id == id;
      assert x in Added(st, s).sessions;
    }
  }

  lemma RemoveReceived(st: State, gone: string, id: string)
    requires Registered(st, id) && gone != id
    ensures id in Ids(Removed(st, gone).sessions) && id in Removed(st, gone).received
            && Removed(st, gone).received[id] == st.received[id]
  {
    KeptIds(st.sessions, gone);
    hide Kept, Ids;
  }

  lemma OtherReceived(policy: Policy, st: State, op: Op, st2: State, id: string)
    requires Step(policy, st, op, st2) && id in st.received && (op.ObserveOp? || op.BindOp? || op.ReleaseOp?)
    ensures st2.sessions == st.sessions && id in st2.received && st2.received[id] == st.received[id] + Size(op, id)
  {
    hide Key;
  }

  lemma Received(policy: Policy, st: State, op: Op, st2: State, id: string)
    requires Agree(st) && Registered(st, id) && Step(policy, st, op, st2) && KeepsSession(op, id)
    ensures id in Ids(st2.sessions) && id in st2.received && st2.received[id] == st.received[id] + Size(op, id)
  {
    RegisteredHas(st, id);
    hide Agree, SelectStep, Added, Removed, Observed, Bound, Released, Registered, Ids, Key;
    match op
    case AddOp(s) => AddReceived(st, s, id);
    case RemoveOp(gone) => RemoveReceived(st, gone, id);
    case SelectOp(rule, stream, clock) => SelectReceived(policy, st, Key(rule, stream), clock, st2);
    case SendOp(rule, stream, connect, clock) =>
      if connect { SelectReceived(policy, st, Key(rule, stream), clock, st2); }
    case _ => OtherReceived(policy, st, op, st2, id);
  }

  lemma StepReceived(policy: Policy, st: State, op: Op, st2: State, id: string)
    requires Agree(st) && Registered(st, id) && Step(policy, st, op, st2) && KeepsSession(op, id)
    ensures Registered(st2, id) && st2.received[id] == st.received[id] + Size(op, id)
  {
    hide *;
    StepAgrees(policy, st, op, st2);
    Received(policy, st, op, st2, id);
    RegisteredIs(st2, id);
    RegisteredHas(st2, id);
  }

  lemma RegisteredHas(st: State, id: string)
    requires Registered(st, id)
    ensures id in st.received && id in st.health && id in Ids(st.sessions)
  {
  }

  lemma SizesSnoc(ops: seq<Op>, n: nat, id: string)
    requires n < |ops|
    ensures Sizes(ops[..n + 1], id) == Sizes(ops[..n], id) + Size(ops[n], id)
  {
    assert ops[..n + 1][..n] == ops[..n];
  }

  /** While a session is registered, its total grows by exactly the positive sizes observed for it. */
  lemma {:induction false} ReceivedGrows(policy: Policy, sts: seq<State>, ops: seq<Op>, id: string, n: nat)
    requires Runs(policy, sts, ops) && Agree(sts[0]) && Registered(sts[0], id) && n < |sts|
    requires forall i :: 0 <= i < n ==> KeepsSession(ops[i], id)
    ensures Agree(sts[n]) && Registered(sts[n], id)
    ensures sts[n].received[id] == sts[0].received[id] + Sizes(ops[..n], id)
  {
    hide Agree, Step, KeepsSession, Size;
    if n > 0 {
      ReceivedGrows(policy, sts, ops, id, n - 1);
      IndexesAlwaysAgree(policy, sts, ops, n);
      assert Step(policy, sts[n - 1], ops[n - 1], sts[n]);
      StepReceived(policy, sts[n - 1], ops[n - 1], sts[n], id);
      SizesSnoc(ops, n - 1, id);
    }
  }

  lemma AddedIsRegistered(st: State, s: Session)
    requires Agree(st) && !st.closed && s.id !in Ids(st.sessions)
    ensures Agree(Added(st, s)) && Registered(Added(st, s), s.id) && Added(st, s).received[s.id] == 0
    ensures Added(st, s).sessions == st.sessions + [s]
  {
    hide Agree, Has, Added, Ids;
    NotHas(st, s.id);
    AddedAgrees(st, s);
    AddedIs(st, s);
    IdsOfLast(st.sessions, s);
  }

  lemma NotHas(st: State, id: string)
    ensures id !in Ids(st.sessions) ==> !Has(st, id)
  {
  }

  lemma IdsOfLast(sessions: seq<Session>, s: Session)
    ensures s.id in Ids(sessions + [s])
  {
    assert s in sessions + [s];
  }

  /**
   Over every run: the total of a session is the sum of the positive sizes observed for it since
   it was added, whatever else happens to other sessions and to streams.
   */
  lemma ReceivedIsTotal(policy: Policy, sts: seq<State>, ops: seq<Op>, s: Session)
    requires Runs(policy, sts, ops) && Agree(sts[0]) && ops != [] && ops[0] == AddOp(s)
    requires !sts[0].closed && s.id !in Ids(sts[0].sessions)
    requires forall i :: 1 <= i < |ops| ==> KeepsSession(ops[i], s.id)
    ensures Registered(sts[|ops|], s.id) && sts[|ops|].received[s.id] == Sizes(ops[1..], s.id)
  {
    hide Agree, KeepsSession, Sizes, Added, Registered, Ids;
    assert Step(policy, sts[0], ops[0], sts[1]);
    AddedIsRegistered(sts[0], s);
    assert Runs(policy, sts[1..], ops[1..]) by { LaterRuns(policy, sts, ops); }
    hide Step;
    ReceivedGrows(policy, sts[1..], ops[1..], s.id, |ops| - 1);
    assert ops[1..][..|ops| - 1] == ops[1..];
  }

  // --- which session is preferred

  lemma CrossMultiply(c: real, c2: real, d: real, d2: real)
    requires d > 0.0 && d2 > 0.0
    ensures c / d <= c2 / d2 <==> c * d2 <= c2 * d
  {
    var x, y := c / d, c2 / d2;
    assert x * d == c && y * d2 == c2;
    assert c * d2 == x * (d * d2) && c2 * d == y * (d * d2);
    assert d * d2 > 0.0;
  }

  /** One stream more weighs like a tenth of the capacity of an idle session. */
  lemma ScoresCompare(h: Health, active: int, h2: Health, active2: int)
    requires active >= 0 && active2 >= 0
    ensures Score(h, active) <= Score(h2, active2) <==>
              Capacity(h) * (10 + active2) as real <= Capacity(h2) * (10 + active) as real
  {
    hide Capacity;
    var c, c2, d, d2 := Capacity(h), Capacity(h2), 1.0 + active as real * 0.10, 1.0 + active2 as real * 0.10;
    CrossMultiply(c, c2, d, d2);
    assert (10 + active) as real == 10.0 * d && (10 + active2) as real == 10.0 * d2;
    assert c * (10.0 * d2) == 10.0 * (c * d2) && c2 * (10.0 * d) == 10.0 * (c2 * d);
  }

  /** The measurement a selection makes of a session. */
  function Measured(st: State, clock: string -> real, id: string): Health {
    Sampled(HealthOf(st, id), Total(st, id), clock(id))
  }

  lemma ScoredIsMeasured(st: State, clock: string -> real, s: Session)
    requires s in st.sessions
    ensures HealthOf(Scored(st, clock), s.id) == Measured(st, clock, s.id)
    ensures Active(Scored(st, clock), s) == Active(st, s)
  {
    assert s.id in Ids(st.sessions);
    hide Sampled, NewSamples;
  }

  lemma PicksIn(policy: Policy, st: State, clock: string -> real, i: nat)
    requires Picks(policy, st, clock, i)
    ensures i < |st.sessions|
  {
  }

  /** A health-aware choice weighs at least as much as any other session, capacity against streams. */
  lemma ChoiceWeighsMost(st: State, clock: string -> real, i: nat, s: Session)
    requires Agree(st) && Picks(HealthAware, st, clock, i) && s in st.sessions
    ensures var c := st.sessions[i];
            && Active(st, c) >= 0 && Active(st, s) >= 0
            && Capacity(Measured(st, clock, s.id)) * (10 + Active(st, c)) as real
               <= Capacity(Measured(st, clock, c.id)) * (10 + Active(st, s)) as real
  {
    hide Agree, Capacity, Sampled, Active, Scored, Measured, Score;
    var st2, c := Scored(st, clock), st.sessions[i];
    assert st2.sessions == st.sessions by { ReadyReceived(HealthAware, st, clock); }
    ScoredIsMeasured(st, clock, s);
    ScoredIsMeasured(st, clock, c);
    assert c in st2.sessions && s in st2.sessions;
    var j: nat :| j < |st.sessions| && st.sessions[j] == s;
    assert ScoreOf(st2, st2.sessions[j]) <= ScoreOf(st2, st2.sessions[i]);
    ScoresCompare(Measured(st, clock, s.id), Active(st, s), Measured(st, clock, c.id), Active(st, c));
  }

  // --- by what was received

  /** Measured at this time, and nothing received since. */
  predicate JustSampled(st: State, id: string, at: real) {
    id in st.health && st.health[id].sampledAt == Some(at) && st.health[id].bytes == Total(st, id)
  }

  /** That is how a health-aware selection leaves every session. */
  lemma ScoringSamples(st: State, clock: string -> real, s: Session)
    requires s in st.sessions
    ensures JustSampled(Scored(st, clock), s.id, clock(s.id))
  {
    assert s.id in Ids(st.sessions);
    hide NewSamples, Blend;
  }

  /** Nothing that measures: no selection for a new stream. */
  predicate Unmeasured(op: Op) { !op.SelectOp? && (op.SendOp? ==> !op.connect) }

  lemma AddHealth(st: State, s: Session, id: string)
    requires Agree(st) && id in st.health
    ensures id in Added(st, s).health && Added(st, s).health[id] == st.health[id]
  {
  }

  lemma StepHealth(policy: Policy, st: State, op: Op, st2: State, id: string)
    requires Agree(st) && Registered(st, id) && Step(policy, st, op, st2) && KeepsSession(op, id) && Unmeasured(op)
    ensures id in st2.health && st2.health[id] == st.health[id]
  {
    hide Agree, Ids, Kept;
    if op.AddOp? { AddHealth(st, op.s, id); }
  }

  /** Between two measurements the last one stands. */
  lemma {:induction false} HealthStands(policy: Policy, sts: seq<State>, ops: seq<Op>, id: string, n: nat)
    requires Runs(policy, sts, ops) && Agree(sts[0]) && Registered(sts[0], id) && n < |sts|
    requires forall i :: 0 <= i < n ==> KeepsSession(ops[i], id) && Unmeasured(ops[i])
    ensures id in sts[n].health && sts[n].health[id] == sts[0].health[id]
  {
    hide Agree, Step, KeepsSession, Unmeasured, Sizes;
    if n == 0 {
      RegisteredHas(sts[0], id);
    } else {
      HealthStands(policy, sts, ops, id, n - 1);
      ReceivedGrows(policy, sts, ops, id, n - 1);
      assert Step(policy, sts[n - 1], ops[n - 1], sts[n]);
      StepHealth(policy, sts[n - 1], ops[n - 1], sts[n], id);
    }
  }

  /**
   The rate measured over an interval is what was received in it, blended into the rate so far; a
   clock that has not advanced measures nothing.
   */
  lemma RateIs(policy: Policy, sts: seq<State>, ops: seq<Op>, id: string, at: real, clock: string -> real)
    requires Runs(policy, sts, ops) && Agree(sts[0]) && Registered(sts[0], id) && JustSampled(sts[0], id, at)
    requires forall op <- ops :: KeepsSession(op, id) && Unmeasured(op)
    ensures var rate := Measured(sts[|ops|], clock, id).rate;
            if clock(id) > at
            then rate == Some(Blend(sts[0].health[id].rate, Sizes(ops, id) as real / (clock(id) - at)))
            else rate == sts[0].health[id].rate
  {
    hide Agree, Step, KeepsSession, Unmeasured, Sizes, Blend;
    var n := |ops|;
    assert ops[..n] == ops;
    assert forall i :: 0 <= i < n ==> ops[i] in ops;
    ReceivedGrows(policy, sts, ops, id, n);
    HealthStands(policy, sts, ops, id, n);
    RegisteredHas(sts[n], id);
    RegisteredHas(sts[0], id);
    hide Registered, Runs;
    assert Total(sts[n], id) - Total(sts[0], id) == Sizes(ops, id);
  }

  /** A first rate counts from 64 KiB a second on. */
  lemma FirstRateCounts(h: Health, rate: real)
    requires h.rate == Some(Blend(None, rate))
    ensures Capacity(h) == if rate < 65536.0 then 65536.0 else rate
  {
  }

  /**
   Two sessions with the same number of streams, sampled at the same time for the first time: after a while without
   selections, a new stream does not go to the one that has received less, as long as the other
   one received more than 64 KiB a second.
   */
  lemma SlowerIsNotChosen(sts: seq<State>, ops: seq<Op>, slow: Session, fast: Session, at: real,
                          clock: string -> real, i: nat)
    requires Runs(HealthAware, sts, ops) && Agree(sts[0]) && slow in sts[|ops|].sessions && fast in sts[|ops|].sessions
    requires Registered(sts[0], slow.id) && JustSampled(sts[0], slow.id, at) && sts[0].health[slow.id].rate == None
    requires Registered(sts[0], fast.id) && JustSampled(sts[0], fast.id, at) && sts[0].health[fast.id].rate == None
    requires forall op <- ops :: KeepsSession(op, slow.id) && KeepsSession(op, fast.id) && Unmeasured(op)
    requires clock(slow.id) == clock(fast.id) > at
    requires Active(sts[|ops|], slow) == Active(sts[|ops|], fast) && Sizes(ops, slow.id) < Sizes(ops, fast.id)
    requires Sizes(ops, fast.id) as real > 65536.0 * (clock(fast.id) - at)
    requires Picks(HealthAware, sts[|ops|], clock, i)
    ensures sts[|ops|].sessions[i].id != slow.id
  {
    hide Agree, Step, KeepsSession, Unmeasured, Sizes, Picks, Registered, JustSampled, Measured, Capacity, Active, Ids,
        Blend;
    var st, d := sts[|ops|], clock(fast.id) - at;
    PicksIn(HealthAware, st, clock, i);
    IndexesAlwaysAgree(HealthAware, sts, ops, |ops|);
    RateIs(HealthAware, sts, ops, slow.id, at, clock);
    RateIs(HealthAware, sts, ops, fast.id, at, clock);
    FirstRateCounts(Measured(st, clock, slow.id), Sizes(ops, slow.id) as real / d);
    FirstRateCounts(Measured(st, clock, fast.id), Sizes(ops, fast.id) as real / d);
    ChoiceWeighsMost(st, clock, i, fast);
    SameActive(st, slow, st.sessions[i]);
    Slower(Sizes(ops, slow.id) as real, Sizes(ops, fast.id) as real, d);
    if st.sessions[i].id == slow.id {
      Outweighed(Capacity(Measured(st, clock, slow.id)), Capacity(Measured(st, clock, fast.id)),
                 (10 + Active(st, fast)) as real);
      assert false;
    }
  }

  lemma Outweighed(c: real, c2: real, k: real)
    requires k > 0.0 && c < c2
    ensures c2 * k > c * k
  {
    assert (c2 - c) * k > 0.0;
  }

  lemma SameActive(st: State, s: Session, t: Session)
    ensures s.id == t.id ==> Active(st, s) == Active(st, t)
  {
  }

  lemma Slower(x: real, y: real, d: real)
    requires d > 0.0 && x < y && y > 65536.0 * d
    ensures var (r, r2) := (x / d, y / d);
            (if r < 65536.0 then 65536.0 else r) < (if r2 < 65536.0 then 65536.0 else r2)
  {
    var r, r2 := x / d, y / d;
    assert r * d == x && r2 * d == y;
    assert (r2 - r) * d > 0.0 && (r2 - 65536.0) * d > 0.0;
  }

  /** A session not yet measured counts as one that receives 8 MiB a second. */
  lemma UnmeasuredIsFast(st: State, clock: string -> real, i: nat, s: Session)
    requires Agree(st) && Picks(HealthAware, st, clock, i) && s in st.sessions
    requires Measured(st, clock, s.id).rate == None && Active(st, s) == Active(st, st.sessions[i])
    ensures var h := Measured(st, clock, st.sessions[i].id); h.rate.Some? ==> h.rate.value >= 8388608.0
  {
    hide Agree, Picks, Measured, Active, Capacity;
    PicksIn(HealthAware, st, clock, i);
    var c := st.sessions[i];
    var h := Measured(st, clock, c.id);
    ChoiceWeighsMost(st, clock, i, s);
    CapacityOf(Measured(st, clock, s.id));
    CapacityOf(h);
    if h.rate.Some? && h.rate.value < 8388608.0 {
      Outweighed(Capacity(h), 8388608.0, (10 + Active(st, c)) as real);
      assert false;
    }
  }

  lemma CapacityOf(h: Health)
    ensures h.rate.None? ==> Capacity(h) == 8388608.0
    ensures h.rate.Some? && h.rate.value < 8388608.0 ==> Capacity(h) < 8388608.0
  {
  }

  // --- smoothing

  function Repeat(x: real, k: nat): (r: seq<real>)
    ensures |r| == k
  {
    if k == 0 then [] else Repeat(x, k - 1) + [x]
  }

  /** What is left of a distance after k new samples. */
  function Fading(d: real, k: nat): real { if k == 0 then d else 0.65 * Fading(d, k - 1) }

  lemma SmoothCloses(samples: seq<real>, x: real, d: real)
    requires Smooth(samples) == Some(x + d)
    ensures Smooth(samples + [x]) == Some(x + 0.65 * d)
  {
    SmoothSnoc(samples, [x]);
    hide Smooth;
  }

  /** After a change, the smoothed rate approaches the new one: each sample closes 35 percent of the distance. */
  lemma {:induction false} SmoothConverges(samples: seq<real>, x: real, d: real, k: nat)
    requires Smooth(samples) == Some(x + d)
    ensures Smooth(samples + Repeat(x, k)) == Some(x + Fading(d, k))
  {
    hide Smooth;
    if k == 0 {
      assert samples + Repeat(x, 0) == samples;
    } else {
      SmoothConverges(samples, x, d, k - 1);
      var before := samples + Repeat(x, k - 1);
      assert samples + Repeat(x, k) == before + [x];
      SmoothCloses(before, x, Fading(d, k - 1));
    }
  }
}
