/**
 The session pool as a value: the indexes SessionPool keeps, what each operation does to
 them, and the agreement between them that every operation keeps.
 */
module PoolState {
  import opened Basics
  import opened Keys

  datatype Policy = RoundRobin | LeastLoaded | HealthAware

  // One Session object: its ID, and a handle for the object's identity.
  datatype Session = Session(id: string, handle: nat)

  // sessionHealth; rate is Some when hasRate.
  datatype Health = Health(sampledAt: Option<real>, bytes: nat, rate: Option<real>)

  /** samples is history: the receive rates measured for a session since it was added. */
  datatype State = State(sessions: seq<Session>, counts: map<string, int>, streams: map<string, Session>,
                         received: map<string, nat>, health: map<string, Health>, rr: nat, closed: bool,
                         samples: map<string, seq<real>>)

  const EMPTY: State := State([], map[], map[], map[], map[], 0, false, map[])

  function Ids(sessions: seq<Session>): set<string> { set s <- sessions :: s.id }

  predicate Has(st: State, id: string) { exists i :: 0 <= i < |st.sessions| && st.sessions[i].id == id }

  function BoundTo(streams: map<string, Session>, id: string): set<string> {
    set k <- streams.Keys | streams[k].id == id
  }

  // --- the receive rate

  const ALPHA: real := 0.35
  const UNKNOWN_CAPACITY: real := 8388608.0
  const MIN_CAPACITY: real := 65536.0

  function Blend(rate: Option<real>, instant: real): real {
    if rate.Some? then ALPHA * instant + (1.0 - ALPHA) * rate.value else instant
  }

  /** The smoothed rate after a series of samples. */
  function Smooth(samples: seq<real>): Option<real> {
    if samples == [] then None else Some(Blend(Smooth(samples[..|samples| - 1]), samples[|samples| - 1]))
  }

  /** The samples one scoring of a session adds: none the first time or when the clock has not advanced. */
  function NewSamples(h: Health, total: nat, now: real): seq<real> {
    if h.sampledAt.Some? && now - h.sampledAt.value > 0.0
    then [(total - h.bytes) as real / (now - h.sampledAt.value)] else []
  }

  function Sampled(h: Health, total: nat, now: real): Health {
    var s := NewSamples(h, total, now);
    Health(Some(now), total, if s == [] then h.rate else Some(Blend(h.rate, s[0])))
  }

  function Capacity(h: Health): real {
    if h.rate.None? then UNKNOWN_CAPACITY else if h.rate.value < MIN_CAPACITY then MIN_CAPACITY else h.rate.value
  }

  function Score(h: Health, active: int): real
    requires active >= 0
  {
    Capacity(h) / (1.0 + active as real * 0.10)
  }

  // --- the operations

  function Added(st: State, s: Session): State {
    if st.closed || Has(st, s.id) then st
    else st.(sessions := st.sessions + [s],
             counts := if s.id in st.counts then st.counts else st.counts[s.id := 0],
             received := st.received[s.id := 0],
             health := if s.id in st.health then st.health else st.health[s.id := Health(None, 0, None)],
             samples := if s.id in st.health then st.samples else st.samples[s.id := []])
  }

  function Observed(st: State, id: string, n: int): State {
    if n <= 0 || id !in st.received then st else st.(received := st.received[id := st.received[id] + n])
  }

  function Kept(sessions: seq<Session>, id: string): seq<Session> {
    if sessions == [] then [] else (if sessions[0].id != id then [sessions[0]] else []) + Kept(sessions[1..], id)
  }

  function Removed(st: State, id: string): State {
    st.(sessions := Kept(st.sessions, id), counts := st.counts - {id}, received := st.received - {id},
        health := st.health - {id}, samples := st.samples - {id}, streams := st.streams - BoundTo(st.streams, id))
  }

  /** LoadOrStore of a binding; the count of the session, if it has one, goes up with a new entry. */
  function Pinned(st: State, key: string, s: Session): State {
    if key in st.streams then st
    else st.(streams := st.streams[key := s],
             counts := if s.id in st.counts then st.counts[s.id := st.counts[s.id] + 1] else st.counts)
  }

  function Bound(st: State, rule: string, stream: string, s: Session): State {
    if rule == "" || stream == "" || st.closed || s.id !in st.counts then st else Pinned(st, Key(rule, stream), s)
  }

  function Released(st: State, key: string): State {
    if key !in st.streams then st
    else
      var id := st.streams[key].id;
      st.(streams := st.streams - {key},
          counts := if id in st.counts then st.counts[id := st.counts[id] - 1] else st.counts)
  }

  function Closed(st: State): State {
    State([], map[], map[], map[], map[], st.rr, true, map[])
  }

  // --- choosing a session

  function Active(st: State, s: Session): int { if s.id in st.counts then st.counts[s.id] else 0 }

  /** i is the first of the registered sessions with the fewest streams. */
  predicate FirstLeast(st: State, i: nat) {
    && i < |st.sessions|
    && (forall j :: 0 <= j < |st.sessions| ==> Active(st, st.sessions[i]) <= Active(st, st.sessions[j]))
    && (forall j :: 0 <= j < i ==> Active(st, st.sessions[i]) < Active(st, st.sessions[j]))
  }

  function HealthOf(st: State, id: string): Health { if id in st.health then st.health[id] else Health(None, 0, None) }

  function Total(st: State, id: string): nat { if id in st.received then st.received[id] else 0 }

  /** Every registered session is scored once, each at its own reading of the clock. */
  function Scored(st: State, clock: string -> real): State {
    st.(health := map id <- st.health.Keys + Ids(st.sessions) ::
                    if id in Ids(st.sessions) then Sampled(HealthOf(st, id), Total(st, id), clock(id))
                        else st.health[id],
        samples := map id <- st.samples.Keys + Ids(st.sessions) ::
                     (if id in st.samples then st.samples[id] else [])
                     + (if id in Ids(st.sessions) then NewSamples(HealthOf(st, id), Total(st, id), clock(id)) else []))
  }

  function ScoreOf(st: State, s: Session): real
    requires Active(st, s) >= 0
  {
    Score(HealthOf(st, s.id), Active(st, s))
  }

  /** i is the first of the registered sessions with the highest score. */
  predicate FirstBest(st: State, i: nat) {
    && i < |st.sessions|
    && (forall s <- st.sessions :: Active(st, s) >= 0)
    && (forall j :: 0 <= j < |st.sessions| ==> ScoreOf(st, st.sessions[j]) <= ScoreOf(st, st.sessions[i]))
    && (forall j :: 0 <= j < i ==> ScoreOf(st, st.sessions[j]) < ScoreOf(st, st.sessions[i]))
  }

  /** What choosing a session does before the choice is bound. */
  function Ready(policy: Policy, st: State, clock: string -> real): State {
    match policy
    case RoundRobin => st.(rr := st.rr + 1)
    case LeastLoaded => st
    case HealthAware => Scored(st, clock)
  }

  /** The policy's choice among the registered sessions. */
  predicate Picks(policy: Policy, st: State, clock: string -> real, i: nat) {
    && i < |st.sessions|
    && match policy
       case RoundRobin => i == st.rr % |st.sessions|
       case LeastLoaded => FirstLeast(st, i)
       case HealthAware => FirstBest(Scored(st, clock), i)
  }

  // --- the indexes agree

  predicate Distinct(sessions: seq<Session>) {
    forall i, j :: 0 <= i < j < |sessions| ==> sessions[i].id != sessions[j].id
  }

  predicate SameDomains(st: State) {
    st.counts.Keys == st.received.Keys == st.health.Keys == st.samples.Keys == Ids(st.sessions)
  }

  /** The count of a session is the number of streams bound to it, and every binding is to a counted session. */
  predicate CountsAgree(counts: map<string, int>, streams: map<string, Session>) {
    && (forall id <- counts :: counts[id] == |BoundTo(streams, id)|)
    && (forall k <- streams :: streams[k].id in counts)
  }

  /** One session's record: what was sampled never exceeds what was received, and the rate is that of its samples. */
  predicate RecordAgrees(h: Health, received: nat, samples: seq<real>) {
    h.bytes <= received && h.rate == Smooth(samples) && forall x <- samples :: x >= 0.0
  }

  predicate HealthAgrees(health: map<string, Health>, received: map<string, nat>, samples: map<string, seq<real>>) {
    forall id <- health :: id in received && id in samples && RecordAgrees(health[id], received[id], samples[id])
  }

  predicate Agree(st: State) {
    && Distinct(st.sessions) && SameDomains(st) && CountsAgree(st.counts, st.streams)
    && HealthAgrees(st.health, st.received, st.samples)
    && (st.closed ==> st.sessions == [])
  }

  // --- every operation keeps the agreement

  lemma EmptyAgrees()
    ensures Agree(EMPTY)
  {
  }

  lemma AddedCounts(counts: map<string, int>, streams: map<string, Session>, id: string)
    requires CountsAgree(counts, streams) && id !in counts
    ensures CountsAgree(counts[id := 0], streams)
  {
    assert BoundTo(streams, id) == {};
  }

  lemma AddedRecords(health: map<string, Health>, received: map<string, nat>, samples: map<string, seq<real>>,
                     id: string)
    requires HealthAgrees(health, received, samples) && id !in health
    ensures HealthAgrees(health[id := Health(None, 0, None)], received[id := 0], samples[id := []])
  {
    assert RecordAgrees(Health(None, 0, None), 0, []);
    hide RecordAgrees;
  }

  lemma AddedIds(sessions: seq<Session>, s: Session)
    requires Distinct(sessions) && s.id !in Ids(sessions)
    ensures Distinct(sessions + [s]) && Ids(sessions + [s]) == Ids(sessions) + {s.id}
  {
    assert forall i :: 0 <= i < |sessions| ==> sessions[i] in sessions;
  }

  /** What adding an unknown session to an open pool does. */
  lemma AddedIs(st: State, s: Session)
    requires Agree(st) && !st.closed && !Has(st, s.id)
    ensures s.id !in Ids(st.sessions) && s.id !in st.counts && s.id !in st.health
    ensures Added(st, s) == st.(sessions := st.sessions + [s], counts := st.counts[s.id := 0],
            received := st.received[s.id := 0],
                                health := st.health[s.id := Health(None, 0, None)], samples := st.samples[s.id := []])
  {
    assert s.id !in Ids(st.sessions);
    hide Distinct, Ids, CountsAgree, HealthAgrees, Has;
  }

  lemma AddedAgrees(st: State, s: Session)
    requires Agree(st)
    ensures Agree(Added(st, s))
  {
    hide Distinct, Ids, CountsAgree, HealthAgrees, Has;
    if !st.closed && !Has(st, s.id) {
      AddedIs(st, s);
      hide Added;
      AddedIds(st.sessions, s);
      AddedCounts(st.counts, st.streams, s.id);
      AddedRecords(st.health, st.received, st.samples, s.id);
    }
  }

  lemma ObservedAgrees(st: State, id: string, n: int)
    requires Agree(st)
    ensures Agree(Observed(st, id, n))
  {
    hide Smooth, Distinct, CountsAgree, Ids;
  }

  /** The sessions that stay: all but the one with this ID. */
  lemma {:induction false} KeptMembers(sessions: seq<Session>, id: string)
    ensures forall s :: s in Kept(sessions, id) <==> s in sessions && s.id != id
  {
    if sessions != [] {
      KeptMembers(sessions[1..], id);
      assert sessions == [sessions[0]] + sessions[1..];
    }
  }

  /** They stay in their order. */
  lemma {:induction false} KeptInOrder(before: seq<Session>, after: seq<Session>, id: string)
    ensures Kept(before + after, id) == Kept(before, id) + Kept(after, id)
  {
    if before == [] {
      assert before + after == after;
    } else {
      KeptInOrder(before[1..], after, id);
      assert (before + after)[1..] == before[1..] + after && (before + after)[0] == before[0];
      var first := if before[0].id != id then [before[0]] else [];
      assert first + (Kept(before[1..], id) + Kept(after, id)) == first + Kept(before[1..], id) + Kept(after, id);
    }
  }

  lemma {:induction false} KeptDistinct(sessions: seq<Session>, id: string)
    requires Distinct(sessions)
    ensures Distinct(Kept(sessions, id))
  {
    if sessions != [] {
      var head, rest := sessions[0], sessions[1..];
      assert forall i :: 0 <= i < |rest| ==> rest[i] == sessions[i + 1];
      KeptDistinct(rest, id);
      KeptMembers(rest, id);
      var kept := Kept(rest, id);
      assert forall s <- kept :: s in rest;
      assert forall s <- rest :: s.id != head.id;
      hide Kept;
      assert Distinct([head] + kept);
    }
  }

  lemma KeptIds(sessions: seq<Session>, id: string)
    ensures Ids(Kept(sessions, id)) == Ids(sessions) - {id}
  {
    KeptMembers(sessions, id);
    hide Kept;
    forall x | x in Ids(sessions) - {id} ensures x in Ids(Kept(sessions, id)) {
      var s: Session :| s in sessions && s.id == x;
      assert s in Kept(sessions, id);
    }
  }

  lemma RemovedCounts(counts: map<string, int>, streams: map<string, Session>, id: string)
    requires CountsAgree(counts, streams)
    ensures CountsAgree(counts - {id}, streams - BoundTo(streams, id))
  {
    var left := streams - BoundTo(streams, id);
    forall other | other in counts && other != id ensures BoundTo(left, other) == BoundTo(streams, other) {
    }
  }

  lemma RemovedAgrees(st: State, id: string)
    requires Agree(st)
    ensures Agree(Removed(st, id))
  {
    KeptDistinct(st.sessions, id);
    KeptIds(st.sessions, id);
    RemovedCounts(st.counts, st.streams, id);
    hide Distinct, Ids, CountsAgree, RecordAgrees, BoundTo;
  }

  lemma PinnedCounts(counts: map<string, int>, streams: map<string, Session>, key: string, s: Session)
    requires CountsAgree(counts, streams) && key !in streams && s.id in counts
    ensures CountsAgree(counts[s.id := counts[s.id] + 1], streams[key := s])
  {
    var more := streams[key := s];
    assert BoundTo(more, s.id) == BoundTo(streams, s.id) + {key};
    forall other | other in counts && other != s.id ensures BoundTo(more, other) == BoundTo(streams, other) {
    }
  }

  lemma PinnedAgrees(st: State, key: string, s: Session)
    requires Agree(st) && (s.id in st.counts || key in st.streams)
    ensures Agree(Pinned(st, key, s))
  {
    if key !in st.streams { PinnedCounts(st.counts, st.streams, key, s); }
    hide Distinct, Ids, CountsAgree, HealthAgrees;
  }

  lemma BoundAgrees(st: State, rule: string, stream: string, s: Session)
    requires Agree(st)
    ensures Agree(Bound(st, rule, stream, s))
  {
    hide Agree, Pinned;
    if s.id in st.counts { PinnedAgrees(st, Key(rule, stream), s); }
  }

  lemma ReleasedCounts(counts: map<string, int>, streams: map<string, Session>, key: string)
    requires CountsAgree(counts, streams) && key in streams
    ensures var id := streams[key].id; CountsAgree(counts[id := counts[id] - 1], streams - {key})
  {
    var id, left := streams[key].id, streams - {key};
    assert BoundTo(left, id) == BoundTo(streams, id) - {key};
    forall other | other in counts && other != id ensures BoundTo(left, other) == BoundTo(streams, other) {
    }
  }

  lemma ReleasedAgrees(st: State, key: string)
    requires Agree(st)
    ensures Agree(Released(st, key))
  {
    if key in st.streams {
      assert st.streams[key].id in st.counts;
      ReleasedCounts(st.counts, st.streams, key);
    }
    hide Distinct, Ids, CountsAgree, HealthAgrees;
  }

  lemma ClosedAgrees(st: State)
    ensures Agree(Closed(st))
  {
  }

  lemma SmoothSnoc(samples: seq<real>, more: seq<real>)
    requires |more| <= 1
    ensures Smooth(samples + more) == if more == [] then Smooth(samples) else Some(Blend(Smooth(samples), more[0]))
  {
    if more == [] {
      assert samples + more == samples;
    } else {
      assert (samples + more)[..|samples|] == samples;
    }
  }

  /** The byte difference is taken the right way round: a sample is never negative. */
  lemma SamplesNonNegative(h: Health, total: nat, now: real)
    requires h.bytes <= total
    ensures |NewSamples(h, total, now)| <= 1 && forall x <- NewSamples(h, total, now) :: x >= 0.0
  {
  }

  lemma RecordScored(h: Health, total: nat, now: real, samples: seq<real>)
    requires RecordAgrees(h, total, samples)
    ensures RecordAgrees(Sampled(h, total, now), total, samples + NewSamples(h, total, now))
  {
    SamplesNonNegative(h, total, now);
    SmoothSnoc(samples, NewSamples(h, total, now));
    hide Smooth, NewSamples, Blend;
  }

  lemma ScoredHealth(st: State, clock: string -> real)
    requires HealthAgrees(st.health, st.received, st.samples) && SameDomains(st)
    ensures var st2 := Scored(st, clock); HealthAgrees(st2.health, st2.received, st2.samples)
  {
    hide RecordAgrees, Sampled, NewSamples, Ids;
    forall id <- st.health ensures RecordAgrees(Sampled(st.health[id], st.received[id], clock(id)), st.received[id],
                                                st.samples[id] + NewSamples(st.health[id], st.received[id],
                                                    clock(id))) {
      RecordScored(st.health[id], st.received[id], clock(id), st.samples[id]);
    }
  }

  lemma ScoredDomains(st: State, clock: string -> real)
    requires SameDomains(st)
    ensures SameDomains(Scored(st, clock))
  {
    hide Ids, Sampled, NewSamples, HealthOf, Total;
  }

  lemma ScoredAgrees(st: State, clock: string -> real)
    requires Agree(st)
    ensures Agree(Scored(st, clock))
  {
    ScoredHealth(st, clock);
    ScoredDomains(st, clock);
    hide Distinct, CountsAgree, HealthAgrees, SameDomains, Sampled, NewSamples, Ids, HealthOf, Total;
  }

  // --- the smoothed rate and the scores

  function Peak(samples: seq<real>): real
    requires samples != []
  {
    var last := samples[|samples| - 1];
    if |samples| == 1 then last
    else var p := Peak(samples[..|samples| - 1]); if last > p then last else p
  }

  /** The smoothed rate lies between zero and the largest sample seen. */
  lemma {:induction false} SmoothIsBounded(samples: seq<real>)
    requires samples != [] && forall x <- samples :: x >= 0.0
    ensures Smooth(samples).Some? && 0.0 <= Smooth(samples).value <= Peak(samples)
    ensures Peak(samples) in samples && forall x <- samples :: x <= Peak(samples)
    decreases |samples|
  {
    var init, last := samples[..|samples| - 1], samples[|samples| - 1];
    assert samples == init + [last] && last in samples;
    if init == [] {
      assert Smooth(init) == None;
    } else {
      assert forall x <- init :: x in samples;
      SmoothIsBounded(init);
      assert Smooth(init).value <= Peak(samples);
      BlendIsBetween(Smooth(init).value, last, Peak(samples));
    }
  }

  lemma BlendIsBetween(rate: real, instant: real, peak: real)
    requires 0.0 <= rate <= peak && 0.0 <= instant <= peak
    ensures 0.0 <= Blend(Some(rate), instant) <= peak
  {
  }

  /** Scores are positive, fall with the number of streams and rise with the capacity. */
  lemma ScoreIsPositive(h: Health, active: int)
    requires active >= 0
    ensures Score(h, active) > 0.0
    ensures Score(h, active + 1) < Score(h, active)
    ensures Score(h, 0) == Capacity(h)
  {
    var c := Capacity(h);
    var d, d2 := 1.0 + active as real * 0.10, 1.0 + (active + 1) as real * 0.10;
    assert c >= MIN_CAPACITY;
    Quotients(c, d, d2);
  }

  lemma Quotients(c: real, d: real, d2: real)
    requires c > 0.0 && 1.0 <= d < d2
    ensures c / d > 0.0 && c / d2 < c / d
  {
    var x, y := c / d, c / d2;
    assert x * d == c && y * d2 == c;
    assert x > 0.0 && y > 0.0;
    assert y * d2 - y * d == y * (d2 - d) > 0.0;
    assert (x - y) * d > 0.0;
  }
}
