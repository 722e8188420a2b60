/**
 Stop while a stream is open. Stop closes the done channel before it removes the streams,
 and enqueue gives up as soon as done is closed, so a DATA can be dropped while a later one
 still gets into the inbox and is written. This module says exactly when that can happen.
 */
module StreamStop {
  import opened Basics
  import opened Pipe
  import opened StreamEndpoint
  import opened StreamLocal
  import opened StreamSystem
  import opened StreamHalfClose
  import opened StreamRuns

  /**
   What the peer of the given side writes is a prefix of what that side's transport took, in every
   run from this configuration.
   */
  ghost predicate AlwaysPrefix(side: Role, windowA: nat, capA: nat, windowB: nat, capB: nat) {
    forall evs: seq<Event> ::
      var t := Run(Initial(windowA, capA, windowB, capB), evs);
      t.Some? ==> Peer(t.value, side).written <= Mine(t.value, side).sent
  }

  /** With one credit nothing can follow a dropped DATA. */
  lemma OneCreditIsSafe(side: Role, windowA: nat, capA: nat, windowB: nat, capB: nat)
    requires (if side == Initiator then windowA else windowB) == 1
    ensures AlwaysPrefix(side, windowA, capA, windowB, capB)
  {
    var s := Initial(windowA, capA, windowB, capB);
    forall evs: seq<Event> | Run(s, evs).Some?
      ensures Peer(Run(s, evs).value, side).written <= Mine(Run(s, evs).value, side).sent
    {
      InitialInv(windowA, capA, windowB, capB);
      hide Inv, Run;
      RunInv(s, evs);
      SizesInRun(s, evs);
      OneCredit(side, Run(s, evs).value);
    }
  }

  lemma OneCredit(side: Role, s: System)
    requires Inv(s) && Mine(s, side).window == 1
    ensures Peer(s, side).written <= Mine(s, side).sent
  {
    hide LocalInv, Handshake, Scan, Held, Ordered, Faithful, Conserved, Clean;
  }

  // --- two DATA, the first dropped

  lemma Stops(role: Role, e: End)
    ensures Goes(role, e, StopSignal, e.(done := true))
  {
  }

  /** b after it has given up the DATA. */
  function Dropped(b: End): End { b.(done := true, waste := b.waste + 1, gap := true) }

  lemma GivesUp(role: Role, e: End, x: Bytes)
    requires e.phase == Live && e.done && e.hand == Some(DataItem(x))
    ensures Goes(role, e, DropHand, e.(hand := None, waste := e.waste + 1, gap := true))
  {
  }

  lemma DroppedIs(b: End, x: Bytes)
    requires b.hand == None
    ensures var e := b.(hand := Some(DataItem(x)), done := true);
            e.(hand := None, waste := e.waste + 1, gap := true) == Dropped(b)
  {
  }

  lemma Drops(a: End, b: End, x: Byte, later: seq<Frame>)
    requires b.phase == Live && b.hand == None
    ensures Path(System(a, b, [Data([x])] + later, [], true), System(a, Dropped(b), later, [], true))
  {
    var s := System(a, b, [Data([x])] + later, [], true);
    var b1 := b.(hand := Some(DataItem([x])));
    var b2 := b.(hand := Some(DataItem([x])), done := true);
    PathEmpty(s);
    assert Taken(Deliver(Data([x]), true, true, Ok)) == [Data([x])] && Carried(Data([x]))[0] == DataItem([x]);
    Receives(Responder, b, Data([x]));
    Stops(Responder, b1);
    GivesUp(Responder, b2, [x]);
    DroppedIs(b, [x]);
    hide Path, Goes, Enabled, Step, Dropped, Taken;
    GoesB(s, s, Deliver(Data([x]), true, true, Ok), b1, [], later);
    SilentB(s, System(a, b1, later, [], true), StopSignal, b2) by { NotTaken(StopSignal); }
    SilentB(s, System(a, b2, later, [], true), DropHand, Dropped(b)) by { NotTaken(DropHand); }
  }

  lemma NotTaken(a: Action)
    requires !a.Deliver?
    ensures Taken(a) == []
  {
  }

  /** Stop makes enqueue drop the first DATA; the second still finds its way to the connection. */
  lemma StopSkips(a: End, b: End, x: Byte, y: Byte)
    requires b.phase == Live && b.conn && b.writer == Idle && b.inbox == [] && b.hand == None && b.written == []
             && b.cap > 0
    ensures exists b2: End ::
              b2.written == [y] && Path(System(a, b, [Data([x]), Data([y])], [], true), System(a, b2, [], [], true))
  {
    var s := System(a, b, [Data([x]), Data([y])], [], true);
    var b3 := Dropped(b);
    var b4 := b3.(hand := Some(DataItem([y])));
    var b5 := b3.(inbox := [DataItem([y])]);
    assert [Data([x]), Data([y])] == [Data([x])] + [Data([y])];
    Drops(a, b, x, [Data([y])]);
    assert [Data([y])] == Taken(Deliver(Data([y]), true, true, Ok)) + [];
    GoesB(s, System(a, b3, [Data([y])], [], true), Deliver(Data([y]), true, true, Ok), b4, [], []);
    GoesB(s, System(a, b4, [], [], true), Enqueue, b5, [], []);
    StillWrites(s, a, b5, y);
  }

  lemma StillWrites(s: System, a: End, b5: End, y: Byte)
    requires Path(s, System(a, b5, [], [], true))
    requires b5.conn && b5.writer == Idle && b5.inbox == [DataItem([y])] && b5.written == []
    ensures exists b2: End :: b2.written == [y] && Path(s, System(a, b2, [], [], true))
  {
    hide Path;
    var b6 := b5.(inbox := [], writer := AtWrite([y]));
    assert b5.inbox[1..] == [];
    GoesB(s, System(a, b5, [], [], true), Take, b6, [], []);
    Writes(s, a, b6, y);
  }

  lemma Writes(s: System, a: End, b6: End, y: Byte)
    requires Path(s, System(a, b6, [], [], true)) && b6.writer == AtWrite([y]) && b6.written == []
    ensures exists b2: End :: b2.written == [y] && Path(s, System(a, b2, [], [], true))
  {
    hide Path;
    assert [] + [y] == [y];
    GoesB(s, System(a, b6, [], [], true), WriteOk, b6.(written := [y], writer := AtAck), [], []);
  }

  /** a sends two DATA while b is idle; then Stop. */
  lemma TwoThenStop(s: System, x: Byte, y: Byte)
    requires s.up && s.ab == [] && s.ba == []
    requires s.a.reader == AtRead && s.a.bound && s.a.tokens == 0 && s.a.window != 1 && s.a.sent == []
    requires s.b.phase == Live && s.b.conn && s.b.writer == Idle && s.b.inbox == [] && s.b.hand == None
    requires s.b.written == [] && s.b.cap > 0
    ensures exists t: System :: Path(s, t) && t.b.written == [y] && t.a.sent == [x, y]
  {
    var a1 := Handed(s.a, x);
    var a2 := Handed(a1, y);
    var s2, s3 := System(a1, s.b, [Data([x])], [], true), System(a2, s.b, [Data([x]), Data([y])], [], true);
    assert [] + [Data([x])] == [Data([x])] && [Data([x])] + [Data([y])] == [Data([x]), Data([y])];
    assert a2.sent == [x, y];
    hide Path;
    Hands(s, x);
    Hands(s2, y);
    StopSkips(a2, s.b, x, y);
    var b2: End :| b2.written == [y] && Path(s3, System(a2, b2, [], [], true));
    PathTrans(s, s2, s3);
    PathTrans(s, s3, System(a2, b2, [], [], true));
  }

  /** With no window, or with two credits or more, Stop can make a gap. */
  lemma GapIsReachable(side: Role, windowA: nat, capA: nat, windowB: nat, capB: nat)
    requires (if side == Initiator then windowA else windowB) != 1
    requires (if side == Initiator then capB else capA) > 0
    ensures !AlwaysPrefix(side, windowA, capA, windowB, capB)
  {
    hide Path, Run, AlwaysPrefix, Initial;
    var s := View(Opened(windowA, capA, windowB, capB), side);
    TwoThenStop(s, 1, 2);
    hide Running;
    var u: System :| Path(s, u) && u.b.written == [2] && u.a.sent == [1, 2];
    FromTheStart(windowA, capA, windowB, capB, side, u);
    Violates(side, windowA, capA, windowB, capB, View(u, side));
  }

  lemma Violates(side: Role, windowA: nat, capA: nat, windowB: nat, capB: nat, t: System)
    requires Path(Initial(windowA, capA, windowB, capB), t) && Peer(t, side).written == [2]
             && Mine(t, side).sent == [1, 2]
    ensures !AlwaysPrefix(side, windowA, capA, windowB, capB)
  {
    hide Run;
    var evs: seq<Event> :| Run(Initial(windowA, capA, windowB, capB), evs) == Some(t);
    assert [2][0] != [1, 2][0];
    assert !([2] <= [1, 2]);
  }

  /** In either direction, exactly the configurations with one single credit are safe from Stop. */
  lemma SafeFromStop(side: Role, windowA: nat, capA: nat, windowB: nat, capB: nat)
    requires capA > 0 && capB > 0
    ensures AlwaysPrefix(side, windowA, capA, windowB, capB) <==> (if side == Initiator then windowA else windowB) == 1
  {
    hide AlwaysPrefix;
    if (if side == Initiator then windowA else windowB) == 1 {
      OneCreditIsSafe(side, windowA, capA, windowB, capB);
    } else {
      GapIsReachable(side, windowA, capA, windowB, capB);
    }
  }

  /** In every configuration, a gap needs a Stop: a tunnel that is not stopping writes a prefix. */
  lemma PrefixUnlessStopping(s: System)
    requires Reachable(s)
    ensures !s.b.done ==> s.b.written <= s.a.sent
    ensures !s.a.done ==> s.a.written <= s.b.sent
  {
    ReachableInv(s);
    assert (s.b.gap ==> s.b.done) && (s.a.gap ==> s.a.done) by {
      hide PipeInv, Handshake, EofLast, FinState, TraceState, BootOrder, Pristine, Waiting;
    }
    hide Reachable, LocalInv, Handshake, Scan, Held;
  }

  // --- half-close

  /**
   The end of one side's data is handled only after all of it has been written, in every run from
   this configuration.
   */
  ghost predicate AlwaysComplete(side: Role, windowA: nat, capA: nat, windowB: nat, capB: nat) {
    forall evs: seq<Event> ::
      var t := Run(Initial(windowA, capA, windowB, capB), evs);
      t.Some? && Peer(t.value, side).writer == AtRemoteFin(FromEOF) ==>
        Peer(t.value, side).written == Mine(t.value, side).sent
  }

  /** The FIN behind a dropped DATA is handled like any other: the connection sees a clean end. */
  predicate CutShort(s: System, side: Role) {
    var e := Peer(s, side);
    && e.phase == Live && e.writer == AtRemoteFin(FromEOF) && !e.remoteFin && !e.localFin
    && e.written == [] && Mine(s, side).sent == [1]
  }

  lemma DropsThenFin(s: System)
    requires s.up && s.ab == [] && s.ba == [] && s.a.reader == AtRead && Unended(s.a) && Unended(s.b)
    requires s.a.tokens == 0 && s.a.sent == [] && s.b.written == []
    ensures exists t: System :: Path(s, t) && CutShort(t, Initiator)
  {
    var a1 := Handed(s.a, 1);
    var a2 := Finished(a1);
    var b2 := Dropped(s.b);
    var b3, b4 := b2.(inbox := [FinItem(FromEOF)]), b2.(writer := AtRemoteFin(FromEOF));
    var s1, s2 := System(a1, s.b, [Data([1])], [], true), System(a2, s.b, [Data([1])] + [Fin(FromEOF)], [], true);
    var s3 := System(a2, b2, [Fin(FromEOF)], [], true);
    assert [] + [Data([1])] == [Data([1])] && [Fin(FromEOF)] == [Fin(FromEOF)] + [];
    assert [] + Carried(Fin(FromEOF)) == [FinItem(FromEOF)] == [FinItem(FromEOF)] + [];
    assert Unended(a1) && CutShort(System(a2, b4, [], [], true), Initiator);
    TakesOne(Responder, b3, FinItem(FromEOF), []);
    hide Path, Handed, Finished, Goes, CutShort;
    Hands(s, 1);
    EndsReading(s1);
    PathTrans(s, s1, s2);
    Drops(a2, s.b, 1, [Fin(FromEOF)]);
    PathTrans(s, s2, s3);
    TakesIn(s3, Fin(FromEOF), []);
    PathTrans(s, s3, System(a2, b3, [], [], true));
    SilentB(s, System(a2, b3, [], [], true), Take, b4);
  }

  lemma OpenedIsUnended(windowA: nat, capA: nat, windowB: nat, capB: nat, side: Role)
    requires capA > 0 && capB > 0
    ensures var s := View(Opened(windowA, capA, windowB, capB), side);
            && s.up && s.ab == [] && s.ba == [] && s.a.reader == AtRead && Unended(s.a) && Unended(s.b)
            && s.a.tokens == 0 && s.a.sent == [] && s.b.written == []
  {
    if side == Initiator {} else {}
  }

  lemma CutShortSeen(u: System, side: Role)
    ensures CutShort(View(u, side), side) <==> CutShort(u, Initiator)
  {
  }

  /** In every configuration and either direction, Stop can cut a stream short that then ends cleanly. */
  lemma CutShortIsReachable(side: Role, windowA: nat, capA: nat, windowB: nat, capB: nat)
    requires capA > 0 && capB > 0
    ensures exists t: System :: Path(Initial(windowA, capA, windowB, capB), t) && CutShort(t, side)
  {
    var s := View(Opened(windowA, capA, windowB, capB), side);
    OpenedIsUnended(windowA, capA, windowB, capB, side);
    hide Path, Opened, View, Initial, CutShort, Unended;
    DropsThenFin(s);
    var u: System :| Path(s, u) && CutShort(u, Initiator);
    FromTheStart(windowA, capA, windowB, capB, side, u);
    CutShortSeen(u, side);
  }

  /** So, unlike the prefix law, half-close is safe from Stop with no window, not even with a single credit. */
  lemma NoWindowSavesHalfClose(side: Role, windowA: nat, capA: nat, windowB: nat, capB: nat)
    requires capA > 0 && capB > 0
    ensures !AlwaysComplete(side, windowA, capA, windowB, capB)
  {
    hide Run;
    CutShortIsReachable(side, windowA, capA, windowB, capB);
    var s := Initial(windowA, capA, windowB, capB);
    var t: System :| Path(s, t) && CutShort(t, side);
    var evs: seq<Event> :| Run(s, evs) == Some(t);
    assert |[1]| == 1;
  }
}
