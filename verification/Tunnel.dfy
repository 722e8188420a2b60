/**
 The stream table of a tunnel with a session pool as its sender: who is in the table, who
 holds a binding in the pool, and who may take whom out.
 */
module Tunnels {
  import opened Basics
  import opened Keys
  import opened Decimal
  import opened PoolState
  import opened PoolRuns
  import opened SessionPools

  const MAX_ID_LENGTH := 20

  /** isValidFrameID. */
  predicate ValidID(id: string) { 1 <= |id| <= MAX_ID_LENGTH && AllDigits(id) }

  /** What the protobuf decoder makes of an ID field: nothing, or a printed 64-bit number. */
  ghost predicate DecodedID(id: string) {
    id == "" || exists n: nat :: n < 0x1_0000_0000_0000_0000 && id == FormatUint(n)
  }

  /** A decoded ID passes the tunnel's check unless the field was missing, and then nothing is bound for it. */
  lemma DecodedIsValid(id: string)
    requires DecodedID(id)
    ensures id == "" || ValidID(id)
  {
    if id != "" {
      var n: nat :| n < 0x1_0000_0000_0000_0000 && id == FormatUint(n);
      SixtyFourBits(n);
    }
  }

  /**
   The IDs whose bindings are left behind are exactly those no decoder produces: the JSON fallback
   lets them through.
   */
  lemma IgnoredIDsLeak(id: string)
    requires id != "" && !ValidID(id)
    ensures !DecodedID(id)
  {
    if DecodedID(id) { DecodedIsValid(id); }
  }

  const ID_LIMIT := 0x1_0000_0000

  lemma SameRemainder(x: nat, y: nat)
    ensures x % ID_LIMIT == y % ID_LIMIT <==> (x - y) % ID_LIMIT == 0
  {
    var p, q, a, b := x / ID_LIMIT, y / ID_LIMIT, x % ID_LIMIT, y % ID_LIMIT;
    assert x - y == (p - q) * ID_LIMIT + (a - b);
  }

  /**
   nextStreamID counts in 32 bits: the i-th and the j-th ID of a rule are the same exactly when
   full turns lie between.
   */
  lemma StreamIDsRepeat(first: nat, i: nat, j: nat)
    ensures FormatUint((first + i) % ID_LIMIT) == FormatUint((first + j) % ID_LIMIT) <==> (i - j) % ID_LIMIT == 0
  {
    hide FormatUint;
    ValueOfFormat((first + i) % ID_LIMIT);
    ValueOfFormat((first + j) % ID_LIMIT);
    SameRemainder(first + i, first + j);
  }

  // The frames a tunnel sends outside a stream's data.
  datatype FrameKind = ConnectFrame | Answer(ok: bool) | FinFrame

  /** A frame handed to the sender, and the session the pool passed it to; None is a refusal. */
  datatype Routed = Routed(key: string, kind: FrameKind, to: Option<Session>)

  /**
   One forwarded connection: attached says that there is a local connection, shut that its
   write side has been closed, closed that all of it has been. removals is history: how
   often removeStream took effect.
   */
  class Stream {
    const rule: string
    const id: string
    var attached: bool
    var ready: bool
    var closed: bool
    var localFin: bool
    var remoteFin: bool
    var shut: bool
    var timer: bool
    ghost var removals: nat

    constructor (rule: string, id: string, attached: bool)
      ensures this.rule == rule && this.id == id && this.attached == attached
      ensures !ready && !closed && !localFin && !remoteFin && !shut && !timer && removals == 0
    {
      this.rule, this.id, this.attached := rule, id, attached;
      ready, closed, localFin, remoteFin, shut, timer, removals := false, false, false, false, false, false, 0;
    }

    function StreamKey(): string { Key(rule, id) }

    /** Torn down at most once, and exactly when it is closed. */
    ghost predicate Sound()
      reads this
    {
      removals == (if closed then 1 else 0) && (closed ==> localFin && remoteFin && ready)
    }
  }

  class Tunnel {
    const pool: SessionPool
    var streams: map<string, Stream>
    var nextIDs: map<string, nat>
    ghost var made: set<Stream>
    ghost var log: seq<Routed>

    /** Every entry is an open stream of this tunnel under its own key, with at most one direction ended. */
    ghost predicate TableValid()
      reads this, made
    {
      TableValidBut({})
    }

    /** The same, for handlers that have just set the second flag of a stream and go on to remove it. */
    ghost predicate TableValidBut(ending: set<Stream>)
      reads this, made
    {
      && (forall s <- made :: s.Sound())
      && forall k <- streams :: streams[k] in made && streams[k].StreamKey() == k && !streams[k].closed
                                && (streams[k] in ending || !(streams[k].localFin && streams[k].remoteFin))
    }

    /** No binding in the pool outlives its stream. */
    ghost predicate NoLeak()
      reads this, pool
    {
      pool.streamMap.Keys <= streams.Keys
    }

    /** Streams are bound to the very session objects that are registered. */
    ghost predicate Registered()
      reads pool
    {
      forall k <- pool.streamMap :: pool.streamMap[k] in pool.sessions
    }

    ghost predicate Valid()
      reads this, made, pool
    {
      TableValid() && NoLeak() && Registered() && pool.Valid()
    }

    /** s is the stream in the table under its key. */
    ghost predicate Holds(s: Stream)
      reads this
    {
      s.StreamKey() in streams && streams[s.StreamKey()] == s
    }

    /** What is handed to the sender for the stream as it is bound now. */
    ghost function Handed(s: Stream, kind: FrameKind): seq<Routed>
      reads pool
    {
      [Routed(s.StreamKey(), kind, Route(pool.Abs(), s.StreamKey()))]
    }

    constructor (pool: SessionPool)
      requires pool.Valid() && pool.streamMap == map[]
      ensures Valid() && this.pool == pool && streams == map[] && made == {} && log == []
    {
      this.pool := pool;
      streams, nextIDs, made, log := map[], map[], {}, [];
    }

    /** One frame of a stream that is not a CONNECT: it follows the binding, or is refused. */
    method Send(rule: string, id: string, kind: FrameKind)
      requires pool.Valid() && kind != ConnectFrame
      modifies this`log, pool
      ensures pool.Valid() && pool.Abs() == old(pool.Abs())
      ensures log == old(log) + [Routed(Key(rule, id), kind, Route(old(pool.Abs()), Key(rule, id)))]
    {
      hide Agree;
      var to := pool.SendRoutedFrame(rule, id, false, _ => 0.0);
      log := log + [Routed(Key(rule, id), kind, to)];
    }

    /** The table's part of removeStream: out of the table and closed, if it is there. */
    method TakeOut(s: Stream) returns (taken: bool)
      requires TableValidBut({s}) && s in made
      modifies this`streams, s
      ensures TableValid() && (taken <==> old(Holds(s)))
      ensures taken ==> streams == old(streams) - {s.StreamKey()}
                        && s.closed && s.ready && s.localFin && s.remoteFin && s.removals == old(s.removals) + 1
      ensures !taken ==> streams == old(streams)
                         && s.closed == old(s.closed) && s.ready == old(s.ready) && s.removals == old(s.removals)
                         && s.localFin == old(s.localFin) && s.remoteFin == old(s.remoteFin)
      ensures s.timer == old(s.timer) && s.shut == old(s.shut) && s.attached == old(s.attached)
    {
      var key := s.StreamKey();
      if key !in streams || streams[key] != s { return false; }
      streams := streams - {key};
      s.closed, s.ready, s.localFin, s.remoteFin := true, true, true, true;
      s.removals := s.removals + 1;
      return true;
    }

    /**
     removeStream: only the stream that is in the table under its key is torn down, and it is
     so once. Its last frame is handed to the session it is still bound to; then the binding goes.
     */
    method RemoveStream(s: Stream, last: Option<FrameKind>)
      requires TableValidBut({s}) && pool.Valid() && s in made && last != Some(ConnectFrame)
      modifies this`streams, this`log, pool, s
      ensures TableValid() && pool.Valid()
      ensures old(Holds(s)) ==>
                && streams == old(streams) - {s.StreamKey()}
                && s.closed && s.ready && s.localFin && s.remoteFin && s.removals == old(s.removals) + 1
                && pool.Abs() == Released(old(pool.Abs()), s.StreamKey())
                && log == old(log) + (if last.Some? then old(Handed(s, last.value)) else [])
      ensures !old(Holds(s)) ==>
                && streams == old(streams) && pool.Abs() == old(pool.Abs()) && log == old(log)
                && s.closed == old(s.closed) && s.ready == old(s.ready) && s.removals == old(s.removals)
                && s.localFin == old(s.localFin) && s.remoteFin == old(s.remoteFin)
      ensures s.timer == old(s.timer) && s.shut == old(s.shut) && s.attached == old(s.attached)
      ensures old(NoLeak()) ==> NoLeak()
      ensures old(Registered()) ==> Registered()
      ensures pool.sessions == old(pool.sessions)
    {
      hide Agree;
      var taken := TakeOut(s);
      if !taken { return; }
      if last.Some? { Send(s.rule, s.id, last.value); }
      pool.ReleaseStream(s.rule, s.id);
    }

    /** nextStreamID: per rule, counting from one, in 32 bits. */
    method NextStreamID(rule: string) returns (id: string)
      modifies this`nextIDs
      ensures var n := ((if rule in old(nextIDs) then old(nextIDs)[rule] else 0) + 1) % ID_LIMIT;
              id == FormatUint(n) && nextIDs == old(nextIDs)[rule := n]
    {
      var n := if rule in nextIDs then (nextIDs[rule] + 1) % ID_LIMIT else 1;
      nextIDs := nextIDs[rule := n];
      id := FormatUint(n);
    }

    /** One accepted connection: into the table, then CONNECT; without a CONNECT it leaves again, binding and all. */
    method Accept(rule: string, clock: string -> real, built: bool, sent: bool) returns (s: Stream)
      requires Valid()
      modifies this, pool
      ensures Valid() && fresh(s) && made == old(made) + {s} && s.rule == rule && s.attached
      ensures pool.sessions == old(pool.sessions)
      ensures var n := ((if rule in old(nextIDs) then old(nextIDs)[rule] else 0) + 1) % ID_LIMIT;
              s.id == FormatUint(n) && nextIDs == old(nextIDs)[rule := n]
      ensures var key := s.StreamKey();
              && (s.closed <==> !built || !sent || (old(pool.sessions) == [] && key !in old(pool.streamMap)))
              && (s.closed ==> streams == old(streams) - {key} && pool.streamMap == old(pool.streamMap) - {key})
              && (!s.closed ==> streams == old(streams)[key := s] && key in pool.streamMap
                                && SelectStep(pool.policy, old(pool.Abs()), key, clock, pool.Abs())
                                && log == old(log) + [Routed(key, ConnectFrame, Some(pool.streamMap[key]))])
              && (!built ==> log == old(log) && pool.Abs() == Released(old(pool.Abs()), key))
    {
      hide Agree, Released;
      ghost var table := streams;
      var id := NextStreamID(rule);
      s := Register(rule, id, true);
      PutAndDrop(table, s.StreamKey(), s);
      var ok := Dispatch(s, clock, built, sent);
    }

    /** A stream that is in the table stays there with its CONNECT, or leaves. */
    method Dispatch(s: Stream, clock: string -> real, built: bool, sent: bool) returns (ok: bool)
      requires Valid() && Holds(s)
      modifies this`streams, this`log, pool, s
      ensures Valid() && pool.sessions == old(pool.sessions) && s.attached == old(s.attached)
      ensures ok <==> built && sent && (old(pool.sessions) != [] || s.StreamKey() in old(pool.streamMap))
      ensures ok ==> streams == old(streams) && s.StreamKey() in pool.streamMap && !s.closed
                     && SelectStep(pool.policy, old(pool.Abs()), s.StreamKey(), clock, pool.Abs())
                     && log == old(log) + [Routed(s.StreamKey(), ConnectFrame, Some(pool.streamMap[s.StreamKey()]))]
      ensures !ok ==> streams == old(streams) - {s.StreamKey()} && s.closed
                      && pool.streamMap == old(pool.streamMap) - {s.StreamKey()}
      ensures !built ==> log == old(log) && pool.Abs() == Released(old(pool.Abs()), s.StreamKey())
    {
      hide Agree;
      ghost var bound := pool.streamMap;
      ok := false;
      if built { ok := SendConnect(s, clock, sent); }
      if !ok {
        ReleasedStreams(pool.Abs(), s.StreamKey());
        RemoveOne(s.StreamKey());
        assert pool.streamMap == bound - {s.StreamKey()};
      }
    }

    /** A new stream under its key, whatever was there before. */
    method Register(rule: string, id: string, attached: bool) returns (s: Stream)
      requires TableValid() && pool.Valid()
      modifies this`streams, this`made
      ensures TableValid() && pool.Valid() && fresh(s) && (old(NoLeak()) ==> NoLeak()) && made == old(made) + {s}
      ensures s.rule == rule && s.id == id && s.attached == attached && !s.closed && !s.ready
      ensures streams == old(streams)[s.StreamKey() := s]
    {
      s := new Stream(rule, id, attached);
      streams := streams[s.StreamKey() := s];
      made := made + {s};
    }

    /** CONNECT picks and binds a session; the pool or the session may fail it. */
    method SendConnect(s: Stream, clock: string -> real, sent: bool) returns (ok: bool)
      requires Valid() && s.StreamKey() in streams
      modifies this`log, pool
      ensures Valid() && pool.sessions == old(pool.sessions)
      ensures ok <==> sent && (old(pool.sessions) != [] || s.StreamKey() in old(pool.streamMap))
      ensures ok ==> s.StreamKey() in pool.streamMap
      ensures SelectStep(pool.policy, old(pool.Abs()), s.StreamKey(), clock, pool.Abs())
      ensures pool.streamMap - {s.StreamKey()} == old(pool.streamMap) - {s.StreamKey()}
      ensures log == old(log) + Handed(s, ConnectFrame)
    {
      hide Agree, SelectStep, Key;
      ghost var before := pool.Abs();
      var to := pool.SendRoutedFrame(s.rule, s.id, true, clock);
      ConnectBinds(pool.policy, before, s.rule, s.id, clock, pool.Abs());
      log := log + [Routed(s.StreamKey(), ConnectFrame, to)];
      ok := to.Some? && sent;
    }

    /**
     handleConnect, from the point where the stream is known to be new. A CONNECT that is
     turned down is answered on the session it is bound to, and its binding released; any
     other gives a stream that is still to be dialled.
     */
    method HandleConnect(rule: string, stream: string, accepted: bool) returns (s: Stream?)
      requires TableValid() && pool.Valid() && Key(rule, stream) !in streams
      modifies this, pool
      ensures TableValid() && pool.Valid() && pool.sessions == old(pool.sessions)
      ensures s == null <==> !accepted
      ensures s != null ==>
                && fresh(s) && s in made && s.rule == rule && s.id == stream && !s.attached && !s.ready && !s.closed
                && streams == old(streams)[Key(rule, stream) := s] && pool.Abs() == old(pool.Abs()) && log == old(log)
      ensures s == null ==>
                && streams == old(streams) && pool.Abs() == Released(old(pool.Abs()), Key(rule, stream))
                && log == old(log) + [Routed(Key(rule, stream), Answer(false),
                   Route(old(pool.Abs()), Key(rule, stream)))]
      ensures made == old(made) + if s == null then {} else {s}
      ensures old(Registered()) ==> Registered()
    {
      hide Agree;
      if !accepted {
        Send(rule, stream, Answer(false));
        pool.ReleaseStream(rule, stream);
        return null;
      }
      s := Register(rule, stream, false);
    }

    /**
     dialStream: a failed dial refuses and removes the stream; a connection for a stream already
     gone is thrown away.
     */
    method DialStream(s: Stream, dialled: bool) returns (started: bool)
      requires Valid() && s in made
      modifies this`streams, this`log, pool, s
      ensures Valid() && pool.sessions == old(pool.sessions)
      ensures started <==> dialled && !old(s.closed)
      ensures started ==>
                && s.attached && s.ready && !s.closed && streams == old(streams) && pool.Abs() == old(pool.Abs())
                && log == old(log) + old(Handed(s, Answer(true)))
      ensures !dialled && old(Holds(s)) ==>
                && s.closed && streams == old(streams) - {s.StreamKey()}
                && pool.Abs() == Released(old(pool.Abs()), s.StreamKey())
                && log == old(log) + old(Handed(s, Answer(false)))
      ensures !started && (dialled || !old(Holds(s))) ==>
                streams == old(streams) && pool.Abs() == old(pool.Abs()) && log == old(log)
      ensures !started ==> s.attached == old(s.attached)
    {
      hide Agree;
      if !dialled {
        RemoveStream(s, Some(Answer(false)));
        return false;
      }
      if s.closed { return false; }
      s.attached := true;
      Send(s.rule, s.id, Answer(true));
      s.ready := true;
      return true;
    }

    /**
     A CONNECT that arrives on a session: bound to it first, then dispatched. The binding is
     left behind exactly when the dispatch ignores the frame for its IDs although the pool
     has taken them.
     */
    method Incoming(rule: string, stream: string, via: Session, accepted: bool) returns (s: Stream?)
      requires Valid()
      modifies this, pool
      ensures TableValid() && pool.Valid() && pool.sessions == old(pool.sessions)
      ensures made == old(made) + if s == null then {} else {s}
      ensures s != null ==> fresh(s) && s in made
      ensures s == null <==> !ValidID(rule) || !ValidID(stream) || Key(rule, stream) in old(streams) || !accepted
      ensures streams == if s == null then old(streams) else old(streams)[Key(rule, stream) := s]
      ensures log == old(log)
              + if ValidID(rule) && ValidID(stream) && Key(rule, stream) !in old(streams) && !accepted
                then [Routed(Key(rule, stream), Answer(false),
                             Route(Bound(old(pool.Abs()), rule, stream, via), Key(rule, stream)))] else []
      ensures var bound := Bound(old(pool.Abs()), rule, stream, via);
              pool.Abs() == if ValidID(rule) && ValidID(stream) && Key(rule, stream) !in old(streams) && !accepted
                            then Released(bound, Key(rule, stream)) else bound
      ensures NoLeak() <==>
                || (ValidID(rule) && ValidID(stream))
                || Bound(old(pool.Abs()), rule, stream, via) == old(pool.Abs())
                || Key(rule, stream) in old(streams)
      ensures Registered() <==>
                || via in pool.sessions
                || Key(rule, stream) !in pool.streamMap
                || Key(rule, stream) in old(pool.streamMap)
      ensures DecodedID(rule) && DecodedID(stream) ==> NoLeak()
      // the leak itself: taken by the pool, ignored by the dispatch
      ensures !(ValidID(rule) && ValidID(stream)) && rule != "" && stream != ""
              && !old(pool.closed) && via.id in old(pool.activeCounts) && Key(rule, stream) !in old(streams) ==>
                Key(rule, stream) in pool.streamMap && pool.streamMap[Key(rule, stream)] == via && !NoLeak()
      ensures ValidID(rule) && ValidID(stream) && Key(rule, stream) !in old(streams) && !accepted ==>
                Key(rule, stream) !in pool.streamMap
    {
      hide Agree;
      ghost var before := pool.Abs();
      s := null;
      if DecodedID(rule) && DecodedID(stream) { DecodedIsValid(rule); DecodedIsValid(stream); }
      pool.BindStream(rule, stream, via);
      assert pool.streamMap.Keys <= streams.Keys + {Key(rule, stream)};
      assert pool.Abs() != before ==> Key(rule, stream) in pool.streamMap && Key(rule, stream) !in before.streams;
      if !ValidID(rule) || !ValidID(stream) { return; }
      if Key(rule, stream) in streams { return; }
      s := HandleConnect(rule, stream, accepted);
    }

    method HandleSynAck(rule: string, stream: string, ok: bool)
      requires Valid()
      modifies this`streams, this`log, pool, made
      ensures Valid() && pool.sessions == old(pool.sessions) && log == old(log)
      ensures !ok && ValidID(rule) && ValidID(stream) ==>
              Key(rule, stream) !in streams && streams == old(streams) - {Key(rule, stream)}
      ensures ok || !ValidID(rule) || !ValidID(stream) || Key(rule, stream) !in old(streams) ==>
                streams == old(streams) && pool.Abs() == old(pool.Abs())
      ensures !ok && ValidID(rule) && ValidID(stream) && Key(rule, stream) in old(streams) ==>
                old(streams)[Key(rule, stream)].closed
                && pool.Abs() == Released(old(pool.Abs()), Key(rule, stream))
      ensures ok && ValidID(rule) && ValidID(stream) && Key(rule, stream) in streams ==>
              streams[Key(rule, stream)].ready
      ensures forall s <- made :: s.attached == old(s.attached) && s.timer == old(s.timer) && s.shut == old(s.shut)
                                  && (ok ==> s.closed == old(s.closed))
      ensures forall s <- made ::
                || (s.closed == old(s.closed) && s.ready == old(s.ready))
                || (Key(rule, stream) in old(streams) && s == old(streams)[Key(rule, stream)])
    {
      if !ValidID(rule) || !ValidID(stream) { return; }
      var key := Key(rule, stream);
      if key !in streams { return; }
      if ok { streams[key].ready := true; } else { RemoveStream(streams[key], None); }
    }

    /** handleLocalEOF's lock section: the flag, once, and whether the peer's end is in. */
    method MarkLocalEnd(s: Stream) returns (first: bool, both: bool)
      requires TableValidBut({s}) && pool.Valid() && s in made
      modifies s`localFin
      ensures TableValidBut({s}) && s.localFin && first == !old(s.localFin) && both == s.remoteFin
    {
      first, both := !s.localFin, s.remoteFin;
      s.localFin := true;
    }

    /** The same of handleRemoteFIN. */
    method MarkPeerEnd(s: Stream) returns (first: bool, both: bool)
      requires TableValidBut({s}) && pool.Valid() && s in made
      modifies s`remoteFin
      ensures TableValidBut({s}) && s.remoteFin && first == !old(s.remoteFin) && both == s.localFin
    {
      first, both := !s.remoteFin, s.localFin;
      s.remoteFin := true;
    }

    /** The timer callback's lock section: it takes over the FIN unless the local flag says that it is taken care of. */
    method MarkTimeout(s: Stream) returns (last: Option<FrameKind>)
      requires TableValidBut({s}) && pool.Valid() && s in made
      modifies s`localFin
      ensures TableValidBut({s}) && s.localFin && last == if old(s.localFin) then None else Some(FinFrame)
    {
      last := None;
      if !s.localFin {
        s.localFin := true;
        last := Some(FinFrame);
      }
    }

    /**
     handleLocalEOF left alone: the first end only is announced; the second takes the stream out,
     and is announced by that.
     */
    method HandleLocalEOF(s: Stream) returns (done: bool)
      requires Valid() && s in made
      modifies this`streams, this`log, pool, s
      ensures Valid() && pool.sessions == old(pool.sessions)
      ensures done <==> !old(s.localFin) && old(s.remoteFin)
      ensures !done ==> s.remoteFin == old(s.remoteFin) && s.timer == (old(s.timer) || !old(s.localFin))
      ensures s.localFin && (old(s.localFin) ==> s.remoteFin == old(s.remoteFin) && streams == old(streams))
      ensures old(Holds(s)) ==> if done then streams == old(streams) - {s.StreamKey()} else streams == old(streams)
      ensures pool.Abs() == if done && old(Holds(s)) then Released(old(pool.Abs()), s.StreamKey()) else old(pool.Abs())
      ensures done && old(Holds(s)) ==> s.closed
      ensures log == old(log) + if old(s.localFin) || (done && !old(Holds(s))) then [] else old(Handed(s, FinFrame))
      ensures s.shut == old(s.shut)
    {
      var first, both := MarkLocalEnd(s);
      if !first { return false; }
      if both {
        RemoveStream(s, Some(FinFrame));
        return true;
      }
      Send(s.rule, s.id, FinFrame);
      s.timer := true;
      return false;
    }

    /**
     handleRemoteFIN left alone: the first end shuts the write side of the local connection; the
     second takes the stream out without a word.
     */
    method HandleRemoteFIN(s: Stream) returns (done: bool)
      requires Valid() && s in made
      modifies this`streams, this`log, pool, s
      ensures Valid() && pool.sessions == old(pool.sessions)
      ensures done <==> !old(s.remoteFin) && old(s.localFin)
      ensures !done ==> s.localFin == old(s.localFin) && s.timer == (old(s.timer) || !old(s.remoteFin))
      ensures s.remoteFin && (old(s.remoteFin) ==> s.localFin == old(s.localFin) && streams == old(streams))
      ensures old(Holds(s)) ==> if done then streams == old(streams) - {s.StreamKey()} else streams == old(streams)
      ensures pool.Abs() == if done && old(Holds(s)) then Released(old(pool.Abs()), s.StreamKey()) else old(pool.Abs())
      ensures done && old(Holds(s)) ==> s.closed
      ensures log == old(log)
      ensures s.shut == (old(s.shut) || (s.attached && !old(s.remoteFin) && !old(s.localFin)))
      ensures s.attached == old(s.attached)
    {
      var first, both := MarkPeerEnd(s);
      if !first { return false; }
      if both {
        RemoveStream(s, None);
        return true;
      }
      if s.attached { s.shut := true; }
      s.timer := true;
      return false;
    }

    /**
     The half-close timer's callback left alone: it tells the peer exactly when this side has not
     ended yet. A late one finds the stream gone and changes nothing.
     */
    method TimerFired(s: Stream)
      requires Valid() && s in made
      modifies this`streams, this`log, pool, s
      ensures Valid() && pool.sessions == old(pool.sessions)
      ensures old(Holds(s)) ==>
                && streams == old(streams) - {s.StreamKey()} && s.closed
                && pool.Abs() == Released(old(pool.Abs()), s.StreamKey())
                && log == old(log) + if old(s.localFin) then [] else old(Handed(s, FinFrame))
      ensures !old(Holds(s)) ==> streams == old(streams) && pool.Abs() == old(pool.Abs()) && log == old(log)
      ensures old(s.closed) ==> s.closed && s.removals == old(s.removals)
    {
      var last := MarkTimeout(s);
      RemoveStream(s, last);
    }

    /**
     Local EOF of a stream whose peer's end is in, with the half-close timer firing between its
     lock section and its removal: each takes the other for the one that tells the peer, and
     the stream leaves the table without a frame, bound as it was. timerFirst says which of
     the two removals comes first.
     */
    method LocalEofAndTimer(s: Stream, timerFirst: bool)
      requires Valid() && s in made && Holds(s) && s.remoteFin && !s.localFin
      modifies this`streams, this`log, pool, s
      ensures Valid() && pool.sessions == old(pool.sessions)
      ensures s.closed && streams == old(streams) - {s.StreamKey()} && s.removals == old(s.removals) + 1
      ensures pool.Abs() == Released(old(pool.Abs()), s.StreamKey())
      ensures log == old(log) + if timerFirst then [] else old(Handed(s, FinFrame))
    {
      var first, both := MarkLocalEnd(s);
      var last := MarkTimeout(s);
      if timerFirst {
        RemoveStream(s, last);
        RemoveStream(s, Some(FinFrame));
      } else {
        RemoveStream(s, Some(FinFrame));
        RemoveStream(s, last);
      }
    }

    /** closeStream: the stream with this key, if there is one. */
    method CloseStream(key: string)
      requires Valid()
      modifies this`streams, this`log, pool, made
      ensures Valid() && streams == old(streams) - {key} && log == old(log) && pool.sessions == old(pool.sessions)
      ensures pool.Abs() == Released(old(pool.Abs()), key) && pool.streamMap == old(pool.streamMap) - {key}
      ensures key !in old(pool.streamMap) ==> pool.Abs() == old(pool.Abs())
      ensures key in old(streams) ==> old(streams)[key].closed
      ensures forall s <- made :: s.closed == old(s.closed) || (key in old(streams) && s == old(streams)[key])
    {
      hide Agree;
      ReleasedStreams(pool.Abs(), key);
      if key in streams { RemoveOne(key); }
    }

    /** CloseStreams: each stream named is taken out of the table, without a frame. */
    method CloseStreams(refs: seq<StreamRef>)
      requires Valid()
      modifies this`streams, this`log, pool, made
      ensures Valid() && streams == old(streams) - RefKeys(refs) && log == old(log)
              && pool.sessions == old(pool.sessions)
      ensures forall k <- old(streams) :: k in RefKeys(refs) ==> old(streams)[k].closed
      ensures RefKeys(refs) !! old(pool.streamMap).Keys ==> pool.Abs() == old(pool.Abs())
      ensures pool.streamMap == old(pool.streamMap) - RefKeys(refs)
    {
      hide Agree, RefKeys, RefKey, Released, Valid;
      RefKeysStart();
      for i := 0 to |refs|
        invariant Valid() && streams == old(streams) - RefKeys(refs[..i]) && log == old(log)
                  && pool.sessions == old(pool.sessions)
        invariant forall k <- old(streams) :: k in RefKeys(refs[..i]) ==> old(streams)[k].closed
        invariant RefKeys(refs) !! old(pool.streamMap).Keys ==> pool.Abs() == old(pool.Abs())
        invariant pool.streamMap == old(pool.streamMap) - RefKeys(refs[..i])
      {
        RefKeysStep(refs, i);
        CloseStream(RefKey(refs[i]));
      }
      assert refs[..|refs|] == refs;
    }

    /** A lost session: its streams, and no others, leave the pool and the table together. */
    method SessionLost(id: string)
      requires Valid()
      modifies this`streams, this`log, pool, made
      ensures Valid() && pool.Abs() == Removed(old(pool.Abs()), id) && log == old(log)
      ensures streams == old(streams) - BoundTo(old(pool.streamMap), id)
      ensures forall k <- BoundTo(old(pool.streamMap), id) :: k in old(streams) && old(streams)[k].closed
    {
      hide Agree, Kept;
      KeptMembers(pool.sessions, id);
      var refs := pool.RemoveSession(id);
      assert NoLeak() && Registered();
      CloseStreams(refs);
    }

    /** Stop, its last part: whatever the table holds is removed. */
    method RemoveAll()
      requires Valid()
      modifies this`streams, this`log, pool, made
      ensures Valid() && streams == map[] && pool.streamMap == map[] && log == old(log)
              && pool.sessions == old(pool.sessions)
      ensures forall k <- old(streams) :: old(streams)[k].closed
    {
      hide Agree, Released, Key, Registered, Stream.Sound, Stream.StreamKey;
      while streams.Keys != {}
        invariant Valid() && streams.Keys <= old(streams).Keys && log == old(log) && pool.sessions == old(pool.sessions)
        invariant forall k <- streams :: streams[k] == old(streams)[k]
        invariant forall k <- old(streams) :: k in streams || old(streams)[k].closed
        decreases |streams.Keys|
      {
        var key :| key in streams.Keys;
        RemoveOne(key);
      }
    }

    method RemoveOne(key: string)
      requires Valid() && key in streams
      modifies this`streams, this`log, pool, streams[key]
      ensures Valid() && streams == old(streams) - {key} && old(streams)[key].closed && log == old(log)
      ensures pool.Abs() == Released(old(pool.Abs()), key) && key !in pool.streamMap
              && pool.sessions == old(pool.sessions)
      ensures old(streams)[key].attached == old(streams[key].attached)
    {
      hide Agree;
      assert streams[key].StreamKey() == key;
      RemoveStream(streams[key], None);
    }
  }

  lemma ConnectBinds(policy: Policy, st: State, rule: string, stream: string, clock: string -> real, st2: State)
    requires Agree(st) && Step(policy, st, SendOp(rule, stream, true, clock), st2)
    ensures st2.streams.Keys <= st.streams.Keys + {Key(rule, stream)} && st2.sessions == st.sessions
    ensures Key(rule, stream) in st2.streams <==> Key(rule, stream) in st.streams || st.sessions != []
    ensures st2.streams - {Key(rule, stream)} == st.streams - {Key(rule, stream)}
    ensures (forall k <- st.streams :: st.streams[k] in st.sessions) ==>
            forall k <- st2.streams :: st2.streams[k] in st2.sessions
  {
    hide Agree, SelectStep, Key;
    Selects(policy, st, Key(rule, stream), clock, st2);
  }

  lemma ReleasedStreams(st: State, key: string)
    ensures Released(st, key).streams == st.streams - {key}
  {
  }

  lemma PutAndDrop(table: map<string, Stream>, key: string, s: Stream)
    ensures table[key := s] - {key} == table - {key}
  {
  }

  lemma RefKeysStart()
    ensures RefKeys([]) == {}
  {
  }

  lemma RefKeysStep(refs: seq<StreamRef>, i: nat)
    requires i < |refs|
    ensures RefKeys(refs[..i + 1]) == RefKeys(refs[..i]) + {RefKey(refs[i])}
    ensures RefKey(refs[i]) in RefKeys(refs)
  {
    assert refs[..i + 1] == refs[..i] + [refs[i]];
    hide RefKey;
  }
}
