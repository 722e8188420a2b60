/** The life of a pooled session: activated at most while it is open, closed once, and taken out of the pool by that. */
module SessionRuntimes {
  import opened Keys
  import opened PoolState
  import opened Tunnels

  class SessionRuntime {
    const session: Session
    const tun: Tunnel
    var closed: bool
    var done: bool

    constructor (session: Session, tun: Tunnel)
      ensures this.session == session && this.tun == tun && !closed && !done
    {
      this.session, this.tun := session, tun;
      closed, done := false, false;
    }

    /** close, with the cleanup that ties the runtime to the pool and the tunnel. Only the first call does anything. */
    method Close()
      requires tun.Valid() && (closed <==> done)
      modifies this, tun`streams, tun`log, tun.pool, tun.made
      ensures tun.Valid() && closed && done
      ensures tun.pool.Abs() == if old(closed) then old(tun.pool.Abs()) else Removed(old(tun.pool.Abs()), session.id)
      ensures tun.streams == if old(closed) then old(tun.streams)
                             else old(tun.streams) - BoundTo(old(tun.pool.streamMap), session.id)
    {
      if closed { return; }
      closed := true;
      tun.SessionLost(session.id);
      done := true;
    }

    /** activate, with the readiness callback that registers the session. */
    method Activate()
      requires tun.Valid()
      modifies tun.pool
      ensures tun.Valid()
      ensures tun.pool.Abs() == if closed then old(tun.pool.Abs()) else Added(old(tun.pool.Abs()), session)
    {
      hide Agree;
      if !closed { tun.pool.AddSession(session); }
    }
  }

  predicate HasId(sessions: seq<SessionRuntime>, id: string) {
    exists i :: 0 <= i < |sessions| && sessions[i].session.id == id
  }

  /** The last of the runtimes with this ID. */
  function LastWith(sessions: seq<SessionRuntime>, id: string): (rt: SessionRuntime)
    requires HasId(sessions, id)
    ensures rt in sessions && rt.session.id == id
  {
    var last := sessions[|sessions| - 1];
    if last.session.id == id then last else LastWith(sessions[..|sessions| - 1], id)
  }

  function Without(sessions: seq<SessionRuntime>, id: string): (kept: seq<SessionRuntime>)
    ensures forall rt <- kept :: rt in sessions && rt.session.id != id
    ensures forall rt <- sessions :: rt.session.id != id ==> rt in kept
  {
    if sessions == [] then []
    else
      var last := sessions[|sessions| - 1];
      Without(sessions[..|sessions| - 1], id) + (if last.session.id != id then [last] else [])
  }

  /** The walk over the list: what stays, and the last that goes. */
  method Split(all: seq<SessionRuntime>, id: string) returns (kept: seq<SessionRuntime>, removed: SessionRuntime?)
    ensures kept == Without(all, id)
    ensures removed == null <==> !HasId(all, id)
    ensures removed != null ==> removed == LastWith(all, id)
  {
    hide Without, LastWith, HasId;
    kept, removed := [], null;
    NobodyYet(id);
    for i := 0 to |all|
      invariant kept == Without(all[..i], id)
      invariant removed == null <==> !HasId(all[..i], id)
      invariant removed != null ==> removed == LastWith(all[..i], id)
    {
      SplitStep(all, i, id);
      if all[i].session.id == id { removed := all[i]; } else { kept := kept + [all[i]]; }
    }
    assert all[..|all|] == all;
  }

  lemma NobodyYet(id: string)
    ensures Without([], id) == [] && !HasId([], id)
  {
  }

  lemma SplitStep(all: seq<SessionRuntime>, i: nat, id: string)
    requires i < |all|
    ensures HasId(all[..i + 1], id) <==> HasId(all[..i], id) || all[i].session.id == id
    ensures Without(all[..i + 1], id) == Without(all[..i], id) + (if all[i].session.id != id then [all[i]] else [])
    ensures HasId(all[..i + 1], id) ==>
              LastWith(all[..i + 1], id) == if all[i].session.id == id then all[i] else LastWith(all[..i], id)
  {
    var more := all[..i + 1];
    assert more[..i] == all[..i] && more[i] == all[i];
    assert forall j :: 0 <= j < i ==> more[j] == all[..i][j];
  }

  class SessionSet {
    const tun: Tunnel
    var sessions: seq<SessionRuntime>
    var closed: bool
    var jobs: nat
    ghost var made: set<SessionRuntime>
    ghost var given: set<SessionRuntime>

    /**
     Runtimes of this set, each with a Session object of its own. Whatever the pool has
     registered is the session of one that is still open; IDs may be used again.
     */
    ghost predicate Valid()
      reads this, made, tun, tun.made, tun.pool
    {
      && tun.Valid() && given <= made
      && (forall rt <- sessions :: rt in given)
      && (forall rt <- made :: rt.tun == tun && (rt.closed <==> rt.done))
      && (forall a <- made, b <- made :: a.session == b.session ==> a == b)
      && (forall s <- tun.pool.sessions :: OwnedBy(made, s))
      && (closed ==> sessions == [])
    }

    /** No two of the listed runtimes share an ID. */
    ghost predicate UniqueIds()
      reads this
    {
      forall a <- sessions, b <- sessions :: a.session.id == b.session.id ==> a == b
    }

    /** No other runtime has ever had this one's ID. */
    ghost predicate OnlyOne(rt: SessionRuntime)
      reads this
    {
      forall other <- made :: other.session.id == rt.session.id ==> other == rt
    }

    /** No resurrection: the session of a closed runtime is neither registered nor bound to any stream. */
    lemma ClosedIsGone(rt: SessionRuntime)
      requires Valid() && rt in made && rt.closed
      ensures rt.session !in tun.pool.sessions
      ensures forall k <- tun.pool.streamMap :: tun.pool.streamMap[k] != rt.session
    {
      hide Agree;
    }

    /** And its ID is free, unless another runtime that is still open uses it. */
    lemma ClosedIdIsFree(id: string)
      requires Valid() && forall rt <- made :: !rt.closed ==> rt.session.id != id
      ensures id !in Ids(tun.pool.sessions) && BoundTo(tun.pool.streamMap, id) == {}
    {
      hide Agree;
    }

    /** Every runtime handed to add is closed or still listed. */
    ghost predicate Accounted() reads this, made
    {
      forall rt <- given :: rt in made ==> rt.closed || rt in sessions
    }

    constructor (tun: Tunnel)
      requires tun.Valid() && tun.pool.sessions == []
      ensures Valid() && Accounted() && this.tun == tun && sessions == [] && !closed && made == {} && given == {}
    {
      this.tun := tun;
      sessions, closed, jobs, made, given := [], false, 0, {}, {};
    }

    method Begin() returns (ok: bool)
      modifies this`jobs
      ensures ok <==> !closed
      ensures jobs == if ok then old(jobs) + 1 else old(jobs)
    {
      if closed { return false; }
      jobs := jobs + 1;
      return true;
    }

    /**
     A new runtime with a Session object of its own. Its ID may be that of a closed one, as when a
     session is tried again over the relay.
     */
    method Create(session: Session) returns (rt: SessionRuntime)
      requires Valid() && (forall other <- made :: other.session != session)
      modifies this`made
      ensures Valid() && fresh(rt) && made == old(made) + {rt} && rt.session == session && !rt.closed
      ensures old(Accounted()) ==> Accounted()
    {
      hide Agree;
      rt := new SessionRuntime(session, tun);
      made := made + {rt};
    }

    /** The readiness callback: a closed runtime is never registered again. */
    method Ready(rt: SessionRuntime)
      requires Valid() && rt in made
      modifies tun.pool
      ensures Valid()
      ensures rt.closed ==> tun.pool.Abs() == old(tun.pool.Abs())
      ensures !rt.closed ==> tun.pool.Abs() == Added(old(tun.pool.Abs()), rt.session)
    {
      hide Agree;
      AddedSessions(tun.pool.Abs(), rt.session);
      rt.Activate();
    }

    /** A direct attempt that times out, perhaps after it has become ready: it is closed, and its ID is free again. */
    method TimesOut(first: Session, wasReady: bool) returns (rt: SessionRuntime)
      requires Valid() && forall other <- made :: other.session != first
      modifies this`made, tun`streams, tun`log, tun.pool, tun.made
      ensures Valid() && fresh(rt) && made == old(made) + {rt} && rt.session == first && rt.closed
      ensures first.id !in Ids(tun.pool.sessions) && tun.pool.closed == old(tun.pool.closed)
      ensures tun.pool.streamMap.Keys <= old(tun.pool.streamMap).Keys
    {
      hide Agree, Kept;
      rt := Create(first);
      if wasReady { Ready(rt); }
      CloseOne(rt);
      NowFree(tun.pool.Abs(), first.id);
    }

    /** The session is tried again under its old ID: only the second attempt is registered. */
    method TryAgain(first: Session, second: Session, wasReady: bool)
      returns (failed: SessionRuntime, rt: SessionRuntime)
      requires Valid() && first.id == second.id && first != second
      requires forall other <- made :: other.session != first && other.session != second
      modifies this`made, tun`streams, tun`log, tun.pool, tun.made
      ensures Valid() && rt in made && !rt.closed && rt.session == second
      ensures failed in made && failed.closed && failed.session == first
      ensures first !in tun.pool.sessions && forall k <- tun.pool.streamMap :: tun.pool.streamMap[k] != first
      ensures !tun.pool.closed ==> second in tun.pool.sessions
      ensures tun.pool.streamMap.Keys <= old(tun.pool.streamMap).Keys && tun.pool.closed == old(tun.pool.closed)
    {
      hide Agree, Kept;
      failed := TimesOut(first, wasReady);
      rt := Create(second);
      Ready(rt);
      ClosedIsGone(failed);
    }

    // --- stream traffic in between

    /** A local connection is accepted. */
    method Connection(rule: string, clock: string -> real, built: bool, sent: bool) returns (s: Stream)
      requires Valid()
      modifies tun, tun.pool
      ensures Valid() && s in tun.made && s.rule == rule && s.attached
      ensures s.closed <==>
                !built || !sent || (old(tun.pool.sessions) == [] && s.StreamKey() !in old(tun.pool.streamMap))
      ensures !s.closed ==> tun.Holds(s) && s.StreamKey() in tun.pool.streamMap
    {
      hide Agree;
      s := tun.Accept(rule, clock, built, sent);
    }

    /**
     A CONNECT comes in on the transport of a runtime. All stays well unless the transport
     outlives its runtime while another session is registered under the same ID: then the
     stream is bound to the dead session, since the pool looks at the ID only.
     */
    method Connect(rt: SessionRuntime, rule: string, stream: string, accepted: bool)
      requires Valid() && rt in made && DecodedID(rule) && DecodedID(stream)
      modifies tun, tun.pool
      ensures !Valid() <==>
                && rt.session !in old(tun.pool.sessions) && rt.session.id in old(tun.pool.activeCounts)
                   && !old(tun.pool.closed)
                && rule != "" && stream != "" && Key(rule, stream) !in old(tun.pool.streamMap)
                && (accepted || Key(rule, stream) in old(tun.streams))
      ensures OnlyOne(rt) ==> Valid()
    {
      hide Agree;
      if OnlyOne(rt) && rt.session.id in tun.pool.activeCounts { RegisteredIsOwned(rt); }
      DecodedIsValid(rule);
      DecodedIsValid(stream);
      var s := tun.Incoming(rule, stream, rt.session, accepted);
    }

    /** A registered ID is that of an open runtime. */
    lemma RegisteredIsOwned(rt: SessionRuntime)
      requires Valid() && rt in made && rt.session.id in tun.pool.activeCounts && OnlyOne(rt)
      ensures rt.session in tun.pool.sessions
    {
      CountedIsRegistered(tun.pool.Abs(), rt.session.id);
      hide Agree;
      var s: Session :| s in tun.pool.sessions && s.id == rt.session.id;
      assert OwnedBy(made, s);
    }

    /**
     What the pool's interface lets happen, though no caller in the program does it: a session is
     tried again under its ID, and a CONNECT still comes in on the transport of the first
     attempt. The stream is then bound to the session that has been closed.
     */
    method ConnectOnDead(first: Session, second: Session, rule: string, stream: string, wasReady: bool)
      returns (failed: SessionRuntime)
      requires Valid() && first.id == second.id && first != second && !tun.pool.closed
      requires forall other <- made :: other.session != first && other.session != second
      requires DecodedID(rule) && DecodedID(stream) && rule != "" && stream != ""
      requires Key(rule, stream) !in tun.pool.streamMap
      modifies this`made, tun, tun.pool, tun.made
      ensures failed in made && failed.closed && failed.session == first
      ensures !Valid()
    {
      hide Agree;
      var rt;
      failed, rt := TryAgain(first, second, wasReady);
      NowCounted(tun.pool.Abs(), second);
      Connect(failed, rule, stream, true);
    }

    /** Anything else that happens to a stream of the tunnel. */
    method Handle(s: Stream, ev: StreamEvent)
      requires Valid() && s in tun.made
      modifies tun, tun.pool, tun.made
      ensures Valid()
      ensures ev == LocalEnd ==> s.localFin
      ensures ev == PeerEnd ==> s.remoteFin
      ensures ev == Timeout && old(tun.Holds(s)) ==> s.closed
      ensures ev == Dialled(true) && !old(s.closed) ==> s.attached && s.ready
      ensures ev == Dialled(false) && old(tun.Holds(s)) ==> s.closed
      ensures ev == Answered(true) ==> s.closed == old(s.closed)
      ensures ev == Answered(true) && ValidID(s.rule) && ValidID(s.id) && old(tun.Holds(s)) ==> s.ready
      ensures ev == Answered(false) && ValidID(s.rule) && ValidID(s.id) && old(tun.Holds(s)) ==> s.closed
    {
      hide Agree, Tunnel.Valid, Tunnel.Handed, Released, Key;
      match ev
      case LocalEnd => var done := tun.HandleLocalEOF(s);
      case PeerEnd => var done := tun.HandleRemoteFIN(s);
      case Timeout => tun.TimerFired(s);
      case Dialled(ok) => var started := tun.DialStream(s, ok);
      case Answered(ok) => tun.HandleSynAck(s.rule, s.id, ok);
    }

    /** add: after closeAll the runtime is closed on the spot; one that has ended meanwhile is not listed. */
    method Add(rt: SessionRuntime)
      requires Valid() && rt in made
      modifies this`sessions, this`given, rt, tun`streams, tun`log, tun.pool, tun.made
      ensures Valid() && given == old(given) + {rt}
      ensures old(Accounted()) ==> Accounted()
      ensures closed == old(closed) && (closed ==> rt.closed)
      ensures !closed && !old(rt.closed) ==>
                && sessions == old(sessions) + [rt] && !rt.closed
                && tun.pool.Abs() == old(tun.pool.Abs()) && tun.streams == old(tun.streams)
      ensures closed || old(rt.closed) ==> sessions == old(sessions)
      ensures old(rt.closed) ==> tun.pool.Abs() == old(tun.pool.Abs()) && tun.streams == old(tun.streams)
      ensures closed && !old(rt.closed) ==> tun.pool.Abs() == Removed(old(tun.pool.Abs()), rt.session.id)
      ensures forall other <- made :: other == rt || other.closed == old(other.closed)
    {
      hide Agree;
      given := given + {rt};
      if closed {
        CloseOne(rt);
        return;
      }
      if rt.done { return; }
      sessions := sessions + [rt];
    }

    method CloseOne(rt: SessionRuntime)
      requires Valid() && rt in made
      modifies rt, tun`streams, tun`log, tun.pool, tun.made
      ensures Valid() && rt.closed
      ensures tun.pool.Abs() == if old(rt.closed) then old(tun.pool.Abs())
              else Removed(old(tun.pool.Abs()), rt.session.id)
      ensures tun.streams == if old(rt.closed) then old(tun.streams)
              else old(tun.streams) - BoundTo(old(tun.pool.streamMap), rt.session.id)
    {
      hide Agree, Kept;
      KeptMembers(tun.pool.sessions, rt.session.id);
      rt.Close();
    }

    /**
     remove: every runtime with the ID leaves the list, but only the last of them is closed. So
     the runtimes stay accounted for exactly when the others were closed already.
     */
    method Remove(id: string)
      requires Valid()
      modifies this`sessions, made, tun`streams, tun`log, tun.pool, tun.made
      ensures Valid() && sessions == Without(old(sessions), id)
      ensures HasId(old(sessions), id) ==> LastWith(old(sessions), id).closed
      ensures tun.pool.Abs() == if HasId(old(sessions), id) && !old(LastWith(sessions, id).closed)
                                then Removed(old(tun.pool.Abs()), id) else old(tun.pool.Abs())
      ensures forall rt <- made ::
                (HasId(old(sessions), id) && rt == LastWith(old(sessions), id)) || rt.closed == old(rt.closed)
      ensures old(Accounted()) ==>
                (Accounted() <==> forall rt <- old(sessions) ::
                    rt.session.id == id && rt != LastWith(old(sessions), id) ==> old(rt.closed))
      ensures old(Accounted()) && old(UniqueIds()) ==> Accounted()
    {
      hide Agree, Without, LastWith;
      NobodyYet(id);
      var kept, removed := Split(sessions, id);
      sessions := kept;
      if removed != null { CloseOne(removed); }
    }

    /** closeAll: every runtime ever handed to add is closed afterwards, and gone from pool and bindings. */
    method CloseAll()
      requires Valid() && Accounted()
      modifies this`sessions, this`closed, made, tun`streams, tun`log, tun.pool, tun.made
      ensures Valid() && Accounted() && closed && sessions == []
      ensures forall rt <- given :: rt.closed && rt.session !in tun.pool.sessions
      ensures forall rt <- given, k <- tun.pool.streamMap :: tun.pool.streamMap[k] != rt.session
      ensures (forall rt <- made :: rt in given || rt.closed) ==> tun.pool.sessions == [] && tun.pool.streamMap == map[]
    {
      hide Agree;
      var all := sessions;
      sessions := [];
      closed := true;
      for i := 0 to |all|
        invariant Valid() && closed && sessions == []
        invariant forall rt <- given :: rt.closed || rt in all[i..]
      {
        assert all[i] in all;
        CloseOne(all[i]);
        assert all[i..] == [all[i]] + all[i + 1..];
      }
      assert all[|all|..] == [];
      forall rt | rt in given
        ensures rt.closed && rt.session !in tun.pool.sessions && forall k <- tun.pool.streamMap ::
                tun.pool.streamMap[k] != rt.session
      {
        ClosedIsGone(rt);
      }
      if forall rt <- made :: rt in given || rt.closed { NobodyLeft(); }
    }

    /** With every runtime closed, nothing is registered and nothing is bound. */
    lemma NobodyLeft()
      requires Valid() && forall rt <- made :: rt.closed
      ensures tun.pool.sessions == [] && tun.pool.streamMap == map[]
    {
      hide Agree;
      assert forall s :: !OwnedBy(made, s);
      assert forall s :: s !in tun.pool.sessions;
      HasMember(tun.pool.sessions);
      NothingBound(tun.pool.streamMap, tun.pool.sessions);
    }
  }

  /** Some runtime that is still open has this session. */
  ghost predicate OwnedBy(runtimes: set<SessionRuntime>, s: Session)
    reads runtimes
  {
    exists rt <- runtimes :: !rt.closed && rt.session == s
  }

  // What else a stream can be told.
  datatype StreamEvent = LocalEnd | PeerEnd | Timeout | Dialled(ok: bool) | Answered(ok: bool)

  lemma NothingBound(streams: map<string, Session>, sessions: seq<Session>)
    requires sessions == [] && forall k <- streams :: streams[k] in sessions
    ensures streams == map[]
  {
    assert forall k :: k !in streams;
  }

  lemma HasMember(sessions: seq<Session>)
    ensures sessions != [] ==> exists s :: s in sessions
  {
    if sessions != [] { assert sessions[0] in sessions; }
  }

  lemma NowFree(st: State, id: string)
    requires exists before: State :: st == Removed(before, id)
    ensures id !in Ids(st.sessions)
  {
    var before: State :| st == Removed(before, id);
    KeptIds(before.sessions, id);
  }

  lemma CountedIsRegistered(st: State, id: string)
    requires Agree(st) && id in st.counts
    ensures exists s: Session :: s in st.sessions && s.id == id
  {
    assert id in Ids(st.sessions);
  }

  lemma NowCounted(st: State, s: Session)
    requires Agree(st) && s in st.sessions
    ensures s.id in st.counts
  {
    assert s.id in Ids(st.sessions);
  }

  lemma AddedSessions(st: State, s: Session)
    requires Agree(st)
    ensures forall x <- Added(st, s).sessions :: x in st.sessions || x == s
    ensures forall x <- st.sessions :: x in Added(st, s).sessions
  {
  }
}
