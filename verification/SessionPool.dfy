/** SessionPool as the object it is: every method against the value-level operations of PoolState. */
module SessionPools {
  import opened Basics
  import opened Keys
  import opened PoolState
  import opened PoolRuns

  datatype StreamRef = StreamRef(rule: string, stream: string)

  function RefKey(ref: StreamRef): string { Key(ref.rule, ref.stream) }

  function RefKeys(refs: seq<StreamRef>): set<string> { set ref <- refs :: RefKey(ref) }

  class SessionPool {
    const policy: Policy
    var sessions: seq<Session>
    var rrIndex: nat
    var streamMap: map<string, Session>
    var activeCounts: map<string, int>
    var received: map<string, nat>
    var health: map<string, Health>
    var closed: bool
    ghost var samples: map<string, seq<real>>
    ghost var ended: seq<Session>

    ghost function Abs(): State
      reads this
    {
      State(sessions, activeCounts, streamMap, received, health, rrIndex, closed, samples)
    }

    /** The indexes agree, and every key was made of two IDs. */
    ghost predicate Valid()
      reads this
    {
      Agree(Abs()) && forall k <- streamMap :: NUL in k
    }

    constructor (policy: Policy)
      ensures Valid() && Abs() == EMPTY && this.policy == policy && ended == []
    {
      this.policy := policy;
      sessions, streamMap, activeCounts, received, health := [], map[], map[], map[], map[];
      rrIndex, closed, samples, ended := 0, false, map[], [];
    }

    method AddSession(s: Session)
      requires Valid()
      modifies this
      ensures Valid() && Abs() == Added(old(Abs()), s)
    {
      hide Agree, Ids;
      AddedAgrees(Abs(), s);
      if closed { return; }
      for i := 0 to |sessions|
        invariant Abs() == old(Abs())
        invariant forall j :: 0 <= j < i ==> sessions[j].id != s.id
      {
        if sessions[i].id == s.id { return; }
      }
      sessions := sessions + [s];
      if s.id !in activeCounts { activeCounts := activeCounts[s.id := 0]; }
      received := received[s.id := 0];
      if s.id !in health {
        health := health[s.id := Health(None, 0, None)];
        samples := samples[s.id := []];
      }
    }

    method ObserveReceived(id: string, n: int)
      requires Valid()
      modifies this
      ensures Valid() && Abs() == Observed(old(Abs()), id, n)
    {
      hide Agree;
      ObservedAgrees(Abs(), id, n);
      if n > 0 && id in received {
        received := received[id := received[id] + n];
      }
    }

    /** The session and its streams leave; every one of its streams is returned, and no other. */
    method RemoveSession(id: string) returns (refs: seq<StreamRef>)
      requires Valid()
      modifies this
      ensures Valid() && Abs() == Removed(old(Abs()), id)
      ensures RefKeys(refs) == BoundTo(old(streamMap), id)
      ensures |refs| == |BoundTo(old(streamMap), id)|
      ensures forall rule, stream :: NUL !in rule && Key(rule, stream) in BoundTo(old(streamMap), id) ==>
              StreamRef(rule, stream) in refs
    {
      hide Agree, Kept, Cut, Key, BoundTo;
      RemovedAgrees(Abs(), id);
      var all := sessions;
      var kept: seq<Session> := [];
      for i := 0 to |all|
        invariant Abs() == old(Abs())
        invariant kept + Kept(all[i..], id) == Kept(all, id)
      {
        KeptStep(all, i, id);
        if all[i].id != id { kept := kept + [all[i]]; }
      }
      KeptStep(all, |all|, id);
      sessions := kept;
      activeCounts, received, health := activeCounts - {id}, received - {id}, health - {id};
      samples := samples - {id};
      refs := DropBindings(id);
      assert forall k <- streamMap :: k in old(streamMap);
      assert Abs() == Removed(old(Abs()), id);
      forall rule, stream | NUL !in rule && Key(rule, stream) in BoundTo(old(streamMap), id)
        ensures StreamRef(rule, stream) in refs
      {
        CutInverts(rule, stream);
      }
    }

    /** The walk over the bindings, in whatever order the map gives them. */
    method DropBindings(id: string) returns (refs: seq<StreamRef>)
      requires forall k <- streamMap :: NUL in k
      modifies this`streamMap
      ensures streamMap == old(streamMap) - BoundTo(old(streamMap), id)
      ensures RefKeys(refs) == BoundTo(old(streamMap), id)
      ensures |refs| == |BoundTo(old(streamMap), id)|
      ensures forall k <- BoundTo(old(streamMap), id) :: StreamRef(Cut(k).0, Cut(k).1) in refs
    {
      hide Key, Cut, BoundTo, RefKeys, Walked, Unwalked;
      refs := [];
      var left := streamMap.Keys;
      ghost var all, bound := streamMap, BoundTo(streamMap, id);
      WalkStarts(all, id);
      while left != {}
        invariant left <= all.Keys
        invariant streamMap == Unwalked(all, bound, left)
        invariant RefKeys(refs) == Walked(bound, left) && |refs| == |Walked(bound, left)|
        invariant forall k <- Walked(bound, left) :: StreamRef(Cut(k).0, Cut(k).1) in refs
        decreases |left|
      {
        var key :| key in left;
        WalkStep(all, bound, left, key, id);
        if streamMap[key].id == id {
          streamMap := streamMap - {key};
          var parts := Cut(key);
          JoinCut(key);
          OneMoreRef(refs, StreamRef(parts.0, parts.1));
          refs := refs + [StreamRef(parts.0, parts.1)];
        }
        left := left - {key};
      }
      WalkEnds(all, bound);
    }

    method HasSession(id: string) returns (found: bool)
      ensures found <==> id in Ids(sessions)
    {
      for i := 0 to |sessions|
        invariant forall j :: 0 <= j < i ==> sessions[j].id != id
      {
        if sessions[i].id == id { return true; }
      }
      return false;
    }

    method SessionCount() returns (n: nat)
      requires Valid()
      ensures n == |Ids(sessions)|
    {
      DistinctCount(sessions);
      n := |sessions|;
    }

    method BindStream(rule: string, stream: string, s: Session)
      requires Valid()
      modifies this
      ensures Valid() && Abs() == Bound(old(Abs()), rule, stream, s)
    {
      hide Agree, Key;
      BoundAgrees(Abs(), rule, stream, s);
      KeyHasNul(rule, stream);
      if rule == "" || stream == "" { return; }
      if closed || s.id !in activeCounts { return; }
      var key := Key(rule, stream);
      if key !in streamMap {
        streamMap := streamMap[key := s];
        activeCounts := activeCounts[s.id := activeCounts[s.id] + 1];
      }
    }

    /** SelectSession returns the bound session, or binds the policy's choice; None is the error. */
    method SelectSession(rule: string, stream: string, clock: string -> real) returns (r: Option<Session>)
      requires Valid()
      modifies this
      ensures Valid() && SelectStep(policy, old(Abs()), Key(rule, stream), clock, Abs())
      ensures r == Route(Abs(), Key(rule, stream))
      ensures r == None <==> Key(rule, stream) !in old(streamMap) && old(sessions) == []
    {
      hide Agree, Key, Picks, FirstLeast, FirstBest, Scored;
      var key := Key(rule, stream);
      KeyHasNul(rule, stream);
      if key in streamMap { return Some(streamMap[key]); }
      if |sessions| == 0 { return None; }
      ghost var st := Abs();
      var i := Pick(clock);
      PicksBind(policy, st, key, clock, i);
      hide Ready;
      var chosen := sessions[i];
      streamMap := streamMap[key := chosen];
      if chosen.id in activeCounts { activeCounts := activeCounts[chosen.id := activeCounts[chosen.id] + 1]; }
      assert Abs() == Pinned(Ready(policy, st, clock), key, st.sessions[i]);
      r := Some(chosen);
    }

    /** The policy's choice, with what making it costs. */
    method Pick(clock: string -> real) returns (i: nat)
      requires Valid() && sessions != []
      modifies this`rrIndex, this`health, this`samples
      ensures i < |sessions| && Picks(policy, old(Abs()), clock, i) && Abs() == Ready(policy, old(Abs()), clock)
    {
      hide Agree, FirstLeast, FirstBest, Scored;
      match policy
      case HealthAware => i := ScoreAll(clock);
      case LeastLoaded => i := FewestStreams();
      case RoundRobin =>
        i := rrIndex % |sessions|;
        rrIndex := rrIndex + 1;
    }

    method FewestStreams() returns (chosen: nat)
      requires Valid() && sessions != []
      ensures FirstLeast(Abs(), chosen) && chosen < |sessions|
    {
      hide Agree;
      CountsNatural(Abs());
      var minCount := -1;
      chosen := 0;
      for i := 0 to |sessions|
        invariant i == 0 ==> minCount == -1
        invariant i > 0 ==> chosen < i && minCount == Active(Abs(), sessions[chosen])
        invariant i > 0 ==> forall j :: 0 <= j < i ==> minCount <= Active(Abs(), sessions[j])
        invariant i > 0 ==> forall j :: 0 <= j < chosen ==> minCount < Active(Abs(), sessions[j])
      {
        assert sessions[i] in sessions;
        var count := if sessions[i].id in activeCounts then activeCounts[sessions[i].id] else 0;
        if minCount < 0 || count < minCount {
          minCount, chosen := count, i;
        }
      }
    }

    /** healthScore: measure the rate since the last time, smooth it, and weigh it by the streams carried. */
    method HealthScore(id: string, active: int, now: real) returns (score: real)
      requires active >= 0 && id in samples && HealthIn(health, id).bytes <= TotalIn(received, id)
      modifies this`health, this`samples
      ensures health == old(health)[id := Sampled(HealthIn(old(health), id), TotalIn(received, id), now)]
      ensures samples == old(samples)[id := old(samples)[id] + NewSamples(HealthIn(old(health), id),
              TotalIn(received, id), now)]
      ensures score == Score(health[id], active)
    {
      var h := if id in health then health[id] else Health(None, 0, None);
      var total := if id in received then received[id] else 0;
      var rate := h.rate;
      samples := samples[id := samples[id] + NewSamples(h, total, now)];
      if h.sampledAt.Some? {
        var elapsed := now - h.sampledAt.value;
        if elapsed > 0.0 {
          var instant := (total - h.bytes) as real / elapsed;
          if rate.Some? {
            rate := Some(ALPHA * instant + (1.0 - ALPHA) * rate.value);
          } else {
            rate := Some(instant);
          }
        }
      }
      health := health[id := Health(Some(now), total, rate)];
      var capacity := UNKNOWN_CAPACITY;
      if rate.Some? { capacity := if rate.value < MIN_CAPACITY then MIN_CAPACITY else rate.value; }
      score := capacity / (1.0 + active as real * 0.10);
    }

    /** Every session is scored once; the first with the highest score is chosen. */
    method ScoreAll(clock: string -> real) returns (chosen: nat)
      requires Valid() && sessions != []
      modifies this`health, this`samples
      ensures Abs() == Scored(old(Abs()), clock) && FirstBest(Abs(), chosen) && chosen < |sessions|
    {
      ghost var st, st2 := Abs(), Scored(Abs(), clock);
      hide Agree, Sampled, NewSamples, Score, Scored, Ids, Distinct, PartlyScored, ScoredFrom, HealthBounds, HealthIn,
          TotalIn, HealthOf;
      ReadyForScores(st, clock);
      assert Ids(sessions) == health.Keys;
      OneMoreScored(sessions, 0);
      var maxScore := -1.0;
      chosen := 0;
      ghost var done: set<string> := {};
      for i := 0 to |sessions|
        invariant done == Ids(sessions[..i])
        invariant PartlyScored(st, st2, health, samples, done)
        invariant i == 0 ==> maxScore == -1.0
        invariant i > 0 ==> chosen < i && maxScore == ScoreOf(st2, sessions[chosen])
        invariant i > 0 ==> forall j :: 0 <= j < i ==> ScoreOf(st2, sessions[j]) <= maxScore
        invariant i > 0 ==> forall j :: 0 <= j < chosen ==> ScoreOf(st2, sessions[j]) < maxScore
      {
        var s := sessions[i];
        OneMoreScored(sessions, i);
        PartlyKeys(st, st2, health, samples, done);
        PartlyNext(st, st2, clock, health, samples, done, s.id);
        BoundsAt(st, s.id);
        var active := if s.id in activeCounts then activeCounts[s.id] else 0;
        var score := HealthScore(s.id, active, clock(s.id));
        done := done + {s.id};
        ScoreIsPositive(HealthOf(st2, s.id), active);
        if score > maxScore { maxScore, chosen := score, i; }
      }
      assert sessions[..|sessions|] == sessions;
      PartlyKeys(st, st2, health, samples, done);
      AllScored(st, st2, health, samples, done);
    }

    /** Close: the pool is emptied first; then every session is closed, in order, and the failures are collected. */
    method Close(fails: Session -> bool) returns (errs: seq<Session>)
      requires Valid()
      modifies this
      ensures Valid() && Abs() == Closed(old(Abs()))
      ensures ended == old(ended) + old(sessions)
      ensures errs == Failing(old(sessions), fails)
    {
      hide Agree, Failing;
      ClosedAgrees(Abs());
      closed := true;
      var toClose := sessions;
      sessions, activeCounts, health, received, streamMap := [], map[], map[], map[], map[];
      samples := map[];
      errs := CloseSessions(toClose, fails);
    }

    method CloseSessions(toClose: seq<Session>, fails: Session -> bool) returns (errs: seq<Session>)
      modifies this`ended
      ensures ended == old(ended) + toClose && errs == Failing(toClose, fails)
    {
      hide Failing;
      errs := [];
      FailingStep(toClose, fails);
      for i := 0 to |toClose|
        invariant ended == old(ended) + toClose[..i] && errs == Failing(toClose[..i], fails)
      {
        ended := ended + [toClose[i]];
        if fails(toClose[i]) { errs := errs + [toClose[i]]; }
        assert toClose[..i + 1] == toClose[..i] + [toClose[i]];
      }
      assert toClose[..|toClose|] == toClose;
    }

    method ReleaseStream(rule: string, stream: string)
      requires Valid()
      modifies this
      ensures Valid() && Abs() == Released(old(Abs()), Key(rule, stream))
    {
      hide Agree, Key;
      ReleasedAgrees(Abs(), Key(rule, stream));
      var key := Key(rule, stream);
      if key in streamMap {
        var bound := streamMap[key];
        streamMap := streamMap - {key};
        if bound.id in activeCounts { activeCounts := activeCounts[bound.id := activeCounts[bound.id] - 1]; }
      }
    }

    /** SendRoutedFrame: to is the session that is handed the frame; None is the refusal. */
    method SendRoutedFrame(rule: string, stream: string, connect: bool, clock: string -> real)
      returns (to: Option<Session>)
      requires Valid()
      modifies this
      ensures Valid() && Step(policy, old(Abs()), SendOp(rule, stream, connect, clock), Abs())
      ensures to == Route(Abs(), Key(rule, stream))
    {
      if connect {
        to := SelectSession(rule, stream, clock);
      } else {
        var key := Key(rule, stream);
        to := if key in streamMap then Some(streamMap[key]) else None;
      }
    }
  }

  // --- what the loops need

  /** The sessions whose Close fails, in order. */
  function Failing(sessions: seq<Session>, fails: Session -> bool): (bad: seq<Session>)
    ensures forall s :: s in bad <==> s in sessions && fails(s)
  {
    if sessions == [] then []
    else
      var last := sessions[|sessions| - 1];
      Failing(sessions[..|sessions| - 1], fails) + (if fails(last) then [last] else [])
  }

  lemma FailingStep(sessions: seq<Session>, fails: Session -> bool)
    ensures Failing(sessions[..0], fails) == []
    ensures forall i :: 0 <= i < |sessions| ==>
              Failing(sessions[..i + 1], fails)
                  == Failing(sessions[..i], fails) + (if fails(sessions[i]) then [sessions[i]] else [])
  {
    forall i | 0 <= i < |sessions|
      ensures Failing(sessions[..i + 1], fails)
              == Failing(sessions[..i], fails) + (if fails(sessions[i]) then [sessions[i]] else [])
    {
      assert sessions[..i + 1][..i] == sessions[..i] && sessions[..i + 1][i] == sessions[i];
    }
  }

  /** The keys of bound that have been looked at, and the bindings still there, when left are still to come. */
  ghost function Walked(bound: set<string>, left: set<string>): set<string> { bound - left }

  ghost function Unwalked(all: map<string, Session>, bound: set<string>, left: set<string>): map<string, Session> {
    all - Walked(bound, left)
  }

  lemma WalkStarts(all: map<string, Session>, id: string)
    ensures Walked(BoundTo(all, id), all.Keys) == {} && Unwalked(all, BoundTo(all, id), all.Keys) == all
    ensures RefKeys([]) == {}
  {
    assert all - {} == all;
  }

  lemma WalkEnds(all: map<string, Session>, bound: set<string>)
    ensures Walked(bound, {}) == bound && Unwalked(all, bound, {}) == all - bound
  {
    assert bound - {} == bound;
  }

  /** One more binding looked at. */
  lemma WalkStep(all: map<string, Session>, bound: set<string>, left: set<string>, key: string, id: string)
    requires bound == BoundTo(all, id) && key in left && left <= all.Keys
    ensures key in Unwalked(all, bound, left) && Unwalked(all, bound, left)[key] == all[key]
    ensures all[key].id == id ==>
              && Walked(bound, left - {key}) == Walked(bound, left) + {key} && key !in Walked(bound, left)
              && Unwalked(all, bound, left - {key}) == Unwalked(all, bound, left) - {key}
    ensures all[key].id != id ==>
              Walked(bound, left - {key}) == Walked(bound, left)
                  && Unwalked(all, bound, left - {key}) == Unwalked(all, bound, left)
  {
    if all[key].id == id {
      assert bound - (left - {key}) == bound - left + {key};
    } else {
      assert bound - (left - {key}) == bound - left;
    }
  }

  lemma OneMoreRef(refs: seq<StreamRef>, ref: StreamRef)
    ensures RefKeys(refs + [ref]) == RefKeys(refs) + {RefKey(ref)}
    ensures forall r <- refs :: r in refs + [ref]
    ensures ref in refs + [ref]
  {
    hide RefKey;
  }

  function HealthIn(health: map<string, Health>, id: string): Health {
    if id in health then health[id] else Health(None, 0, None)
  }

  function TotalIn(received: map<string, nat>, id: string): nat { if id in received then received[id] else 0 }

  lemma {:induction false} DistinctCount(sessions: seq<Session>)
    requires Distinct(sessions)
    ensures |sessions| == |Ids(sessions)|
  {
    if sessions != [] {
      var init, last := sessions[..|sessions| - 1], sessions[|sessions| - 1];
      DistinctCount(init);
      assert sessions == init + [last];
      assert last.id !in Ids(init);
      assert Ids(sessions) == Ids(init) + {last.id};
    }
  }

  lemma KeptStep(all: seq<Session>, i: nat, id: string)
    requires i <= |all|
    ensures Kept(all[i..], id) == if i == |all| then []
            else (if all[i].id != id then [all[i]] else []) + Kept(all[i + 1..], id)
    ensures all[0..] == all
  {
    if i < |all| { assert all[i..] == [all[i]] + all[i + 1..]; }
  }

  lemma CountsNatural(st: State)
    requires Agree(st)
    ensures forall s <- st.sessions :: s.id in st.counts && Active(st, s) >= 0
  {
    assert forall s <- st.sessions :: s.id in Ids(st.sessions);
    hide HealthAgrees, Distinct;
  }

  /** Between two scorings: the sessions done carry the new record, the others still the old one. */
  ghost predicate PartlyScored(st: State, st2: State, health: map<string, Health>, samples: map<string, seq<real>>,
                          done: set<string>) {
    && health.Keys == st.health.Keys == st2.health.Keys
       && samples.Keys == st.samples.Keys == st2.samples.Keys == health.Keys
    && forall id <- health :: health[id] == (if id in done then st2 else st).health[id]
                              && samples[id] == (if id in done then st2 else st).samples[id]
  }

  lemma ScoredAt(st: State, clock: string -> real, id: string)
    requires SameDomains(st) && id in st.health
    ensures var st2 := Scored(st, clock);
            && id in st2.health && id in st2.samples && id in st.samples
            && st2.health[id] == Sampled(st.health[id], TotalIn(st.received, id), clock(id))
            && st2.samples[id] == st.samples[id] + NewSamples(st.health[id], TotalIn(st.received, id), clock(id))
  {
    hide Sampled, NewSamples;
  }

  lemma PartlyKeys(st: State, st2: State, health: map<string, Health>, samples: map<string, seq<real>>,
                   done: set<string>)
    requires PartlyScored(st, st2, health, samples, done)
    ensures health.Keys == st.health.Keys
  {
  }

  ghost predicate ScoredFrom(st: State, st2: State, clock: string -> real) {
    forall id <- st.health ::
      && id in st2.health && id in st2.samples && id in st.samples
      && st2.health[id] == Sampled(st.health[id], TotalIn(st.received, id), clock(id))
      && st2.samples[id] == st.samples[id] + NewSamples(st.health[id], TotalIn(st.received, id), clock(id))
  }

  lemma ReadyForScores(st: State, clock: string -> real)
    requires Agree(st)
    ensures var st2 := Scored(st, clock);
            && Distinct(st.sessions) && Ids(st.sessions) == st.health.Keys == st.samples.Keys
            && st2 == st.(health := st2.health, samples := st2.samples)
            && HealthBounds(st.health, st.received, st.samples)
            && PartlyScored(st, st2, st.health, st.samples, {}) && ScoredFrom(st, st2, clock)
    ensures forall s <- st.sessions :: s.id in st.counts && Active(st, s) >= 0
  {
    CountsNatural(st);
    BoundsOf(st);
    ScoredDomains(st, clock);
    FromScored(st, clock);
    hide Distinct, CountsAgree, HealthAgrees, HealthBounds, ScoredFrom, Ids;
    hide HealthOf, Total, Sampled, NewSamples;
  }

  lemma BoundsOf(st: State)
    requires Agree(st)
    ensures HealthBounds(st.health, st.received, st.samples)
  {
  }

  lemma FromScored(st: State, clock: string -> real)
    requires Agree(st)
    ensures ScoredFrom(st, Scored(st, clock), clock)
  {
    assert SameDomains(st);
    hide Agree, Scored, Sampled, NewSamples, TotalIn, SameDomains;
    forall id <- st.health
      ensures id in Scored(st, clock).health && id in Scored(st, clock).samples && id in st.samples
      ensures Scored(st, clock).health[id] == Sampled(st.health[id], TotalIn(st.received, id), clock(id))
      ensures Scored(st, clock).samples[id]
              == st.samples[id] + NewSamples(st.health[id], TotalIn(st.received, id), clock(id))
    {
      ScoredAt(st, clock, id);
    }
  }

  /** One more session scored. */
  lemma PartlyNext(st: State, st2: State, clock: string -> real, health: map<string, Health>,
                   samples: map<string, seq<real>>,
                   done: set<string>, id: string)
    requires PartlyScored(st, st2, health, samples, done) && ScoredFrom(st, st2, clock) && id !in done && id in health
    ensures id in samples && id in st.health && HealthIn(health, id) == st.health[id]
    ensures PartlyScored(st, st2, health[id := Sampled(HealthIn(health, id), TotalIn(st.received, id), clock(id))],
                         samples[id := samples[id] + NewSamples(HealthIn(health, id), TotalIn(st.received, id),
                             clock(id))],
                         done + {id})
    ensures HealthOf(st2, id) == Sampled(HealthIn(health, id), TotalIn(st.received, id), clock(id))
  {
    hide Sampled, NewSamples;
  }

  lemma BoundsAt(st: State, id: string)
    requires HealthBounds(st.health, st.received, st.samples) && id in st.health
    ensures st.health[id].bytes <= TotalIn(st.received, id)
  {
  }

  predicate HealthBounds(health: map<string, Health>, received: map<string, nat>, samples: map<string, seq<real>>) {
    forall id <- health :: id in received && id in samples && health[id].bytes <= received[id]
  }

  lemma OneMoreScored(sessions: seq<Session>, i: nat)
    requires Distinct(sessions) && i < |sessions|
    ensures sessions[i] in sessions && sessions[i].id in Ids(sessions)
    ensures sessions[i].id !in Ids(sessions[..i]) && Ids([]) == {}
    ensures Ids(sessions[..i + 1]) == Ids(sessions[..i]) + {sessions[i].id}
  {
    assert sessions[..i + 1] == sessions[..i] + [sessions[i]];
  }

  lemma AllScored(st: State, st2: State, health: map<string, Health>, samples: map<string, seq<real>>,
                  done: set<string>)
    requires PartlyScored(st, st2, health, samples, done) && done == health.Keys
    ensures health == st2.health && samples == st2.samples
  {
  }
}
