/** The frames each side of a stream routes, and what no step changes once the stream is torn down. */
module StreamGrammar {
  import opened Basics
  import opened Pipe
  import opened StreamEndpoint
  import opened StreamLocal
  import opened StreamSystem

  predicate OnlyDataAndAcks(t: seq<Frame>) { forall f <- t :: f.Data? || f == DataAck }

  predicate OnlyAcks(t: seq<Frame>) { forall f <- t :: f == DataAck }

  /** (DATA|ACK)* FIN, the FIN at i; ACKs follow a FIN only if it announces the end of the data. */
  predicate ClosedAt(t: seq<Frame>, i: nat, origin: Origin) {
    && i < |t| && t[i] == Fin(origin) && OnlyDataAndAcks(t[..i]) && OnlyAcks(t[i + 1..])
    && (origin != FromEOF ==> i == |t| - 1)
  }

  ghost predicate Closed(t: seq<Frame>, origin: Origin) { exists i: nat :: ClosedAt(t, i, origin) }

  /** A second FIN is a failed write's, and the last frame. */
  ghost predicate TwiceClosed(t: seq<Frame>) {
    t != [] && t[|t| - 1] == Fin(FromWriteFailure) && Closed(t[..|t| - 1], FromEOF)
  }

  /** (DATA|ACK)* [FIN ACK* [FIN]] */
  ghost predicate Body(t: seq<Frame>) {
    OnlyDataAndAcks(t) || (exists origin :: Closed(t, origin)) || TwiceClosed(t)
  }

  /** CONNECT body, or SYN_ACK(no), or SYN_ACK(yes) body, or nothing. */
  ghost predicate InGrammar(role: Role, t: seq<Frame>) {
    || t == []
    || (role == Responder && t == [SynAck(false)])
    || (t[0] == Opener(role) && Body(t[1..]))
  }

  lemma ClosedSnoc(t: seq<Frame>, f: Frame, origin: Origin)
    ensures Closed(t + [f], origin) <==>
              || (f == Fin(origin) && OnlyDataAndAcks(t))
              || (f == DataAck && origin == FromEOF && Closed(t, origin))
  {
    var u := t + [f];
    if f == Fin(origin) && OnlyDataAndAcks(t) {
      assert u[..|t|] == t && u[|t| + 1..] == [];
      assert ClosedAt(u, |t|, origin);
    }
    if f == DataAck && origin == FromEOF && Closed(t, origin) {
      var i: nat :| ClosedAt(t, i, origin);
      assert u[..i] == t[..i] && u[i + 1..] == t[i + 1..] + [f];
      assert ClosedAt(u, i, origin);
    }
    if Closed(u, origin) {
      var i: nat :| ClosedAt(u, i, origin);
      if i == |t| {
        assert u[..i] == t;
      } else {
        var rest := t[i + 1..];
        assert u[..i] == t[..i] && u[i + 1..] == rest + [f];
        assert f in rest + [f] && forall x <- rest :: x in rest + [f];
        assert ClosedAt(t, i, origin);
      }
    }
  }

  lemma BodySnoc(x: seq<Frame>, f: Frame)
    ensures OnlyDataAndAcks(x + [f]) <==> OnlyDataAndAcks(x) && (f.Data? || f == DataAck)
    ensures TwiceClosed(x + [f]) <==> f == Fin(FromWriteFailure) && Closed(x, FromEOF)
  {
    assert (x + [f])[..|x|] == x;
    hide Closed;
  }

  /** What comes before a FIN has no FIN in it. */
  lemma SameEnd(x: seq<Frame>, i: nat, j: nat)
    requires i < |x| && j < |x| && x[i].Fin? && x[j].Fin? && OnlyDataAndAcks(x[..i]) && OnlyDataAndAcks(x[..j])
    ensures i == j
  {
    assert forall k :: 0 <= k < i ==> x[..i][k] in x[..i];
    assert forall k :: 0 <= k < j ==> x[..j][k] in x[..j];
  }

  /** The kinds of body exclude each other. */
  lemma OneKind(x: seq<Frame>, origin: Origin, other: Origin)
    ensures Closed(x, origin) ==> !OnlyDataAndAcks(x) && (Closed(x, other) ==> other == origin)
    ensures TwiceClosed(x) ==> !OnlyDataAndAcks(x) && !Closed(x, origin)
  {
    if Closed(x, origin) {
      var i: nat :| ClosedAt(x, i, origin);
      assert x[i] in x;
      if Closed(x, other) {
        var j: nat :| ClosedAt(x, j, other);
        SameEnd(x, i, j);
      }
    }
    if TwiceClosed(x) {
      var y := x[..|x| - 1];
      var i: nat :| ClosedAt(y, i, FromEOF);
      assert x == y + [x[|x| - 1]] && y[i] in x && y[i] in y;
      ClosedSnoc(y, x[|x| - 1], origin);
    }
  }

  lemma KindOf(x: seq<Frame>)
    ensures forall o: Origin :: Closed(x, o) ==> !OnlyDataAndAcks(x) && !TwiceClosed(x)
    ensures forall o: Origin, q: Origin :: Closed(x, o) && Closed(x, q) ==> q == o
    ensures TwiceClosed(x) ==> !OnlyDataAndAcks(x)
  {
    forall o: Origin, q: Origin
      ensures Closed(x, o) ==> !OnlyDataAndAcks(x) && !TwiceClosed(x) && (Closed(x, q) ==> q == o)
    {
      OneKind(x, o, q);
    }
    OneKind(x, FromEOF, FromEOF);
    hide Closed, OnlyDataAndAcks, TwiceClosed;
  }

  /** What the automaton's states stand for. */
  ghost predicate Form(role: Role, p: Progress, t: seq<Frame>) {
    match p
    case Start => t == []
    case Refused => role == Responder && t == [SynAck(false)]
    case Open => t != [] && t[0] == Opener(role) && OnlyDataAndAcks(t[1..])
    case HalfFin(origin) => t != [] && t[0] == Opener(role) && Closed(t[1..], origin)
    case FullFin => t != [] && t[0] == Opener(role) && TwiceClosed(t[1..])
    case Bad => !InGrammar(role, t)
  }

  lemma ShorterInGrammar(role: Role, t: seq<Frame>, f: Frame)
    requires InGrammar(role, t + [f])
    ensures InGrammar(role, t)
  {
    if t != [] {
      var x := t[1..];
      assert (t + [f])[1..] == x + [f] && (t + [f])[0] == t[0];
      BodySnoc(x, f);
      if origin :| Closed(x + [f], origin) { ClosedSnoc(x, f, origin); }
    }
  }

  lemma FormSnoc(role: Role, p: Progress, u: seq<Frame>, f: Frame)
    requires u != [] && Form(role, p, u)
    ensures Form(role, Advance(role, p, f), u + [f])
  {
    var t, x := u + [f], u[1..];
    assert t[1..] == x + [f] && t[0] == u[0];
    BodySnoc(x, f);
    if InGrammar(role, t) { ShorterInGrammar(role, u, f); }
    forall o: Origin
      ensures Closed(x + [f], o) <==>
                (f == Fin(o) && OnlyDataAndAcks(x)) || (f == DataAck && o == FromEOF && Closed(x, o))
    {
      ClosedSnoc(x, f, o);
    }
    KindOf(x);
    hide Closed, OnlyDataAndAcks, TwiceClosed;
  }

  lemma {:induction false} ScanHasForm(role: Role, t: seq<Frame>)
    ensures Form(role, Scan(role, t), t)
    decreases |t|
  {
    if t != [] {
      var u, f := t[..|t| - 1], t[|t| - 1];
      assert t == u + [f];
      ScanHasForm(role, u);
      if u == [] {
        assert t == [f] && t[1..] == [];
      } else {
        FormSnoc(role, Scan(role, u), u, f);
      }
    }
  }

  /** The automaton accepts exactly the grammar. */
  lemma ScanIsGrammar(role: Role, t: seq<Frame>)
    ensures Scan(role, t) != Bad <==> InGrammar(role, t)
  {
    ScanHasForm(role, t);
    hide Scan, Closed, OnlyDataAndAcks;
  }

  /** Whatever the interleaving, each side's frames follow the grammar. */
  lemma TracesFollowGrammar(s: System)
    requires Reachable(s)
    ensures InGrammar(Initiator, s.a.trace) && InGrammar(Responder, s.b.trace)
  {
    ReachableInv(s);
    hide Reachable, Scan, PipeInv, Handshake, InGrammar;
    ScanIsGrammar(Initiator, s.a.trace);
    ScanIsGrammar(Responder, s.b.trace);
  }

  // --- after the teardown

  /** Out of the table for good, unbound, and silent: nothing is routed any more. */
  predicate Ended(e: End, e2: End) {
    e2.phase == Gone && !e2.bound && e2.trace == e.trace && e2.sent == e.sent
  }

  lemma GoneSends(role: Role, a: Action, e: End)
    requires e.phase == Gone && !e.bound && Enabled(role, a, e)
    requires a.SendData?
    ensures Ended(e, Step(role, a, e).e) && Step(role, a, e).frames == []
  {
    assert !Sends(e, a.res);
  }

  lemma GoneReads(role: Role, a: Action, e: End)
    requires e.phase == Gone && !e.bound && Enabled(role, a, e)
    requires a.ReaderWake? || a.ReadBytes? || a.ReadEnd?
    ensures Ended(e, Step(role, a, e).e) && Step(role, a, e).frames == []
  {
  }

  lemma GoneWaits(role: Role, a: Action, e: End)
    requires e.phase == Gone && !e.bound && Enabled(role, a, e)
    requires a.Acquire? || a.AbortCredit? || a.EnqueueEof? || a.DropEof?
    ensures Ended(e, Step(role, a, e).e) && Step(role, a, e).frames == []
  {
  }

  lemma GoneWrites(role: Role, a: Action, e: End)
    requires e.phase == Gone && !e.bound && Enabled(role, a, e)
    requires a.WriterStart? || a.WriterExit? || a.Take? || a.WriteOk?
    ensures Ended(e, Step(role, a, e).e) && Step(role, a, e).frames == []
  {
  }

  lemma GoneFails(role: Role, a: Action, e: End)
    requires e.phase == Gone && !e.bound && Enabled(role, a, e)
    requires a.WriteFail? || a.SendAck?
    ensures Ended(e, Step(role, a, e).e) && Step(role, a, e).frames == []
  {
  }

  lemma GoneFlags(role: Role, a: Action, e: End)
    requires e.phase == Gone && !e.bound && Enabled(role, a, e)
    requires a.LocalEof? || a.Arm? || a.RemoteFin?
    ensures Ended(e, Step(role, a, e).e) && Step(role, a, e).frames == []
  {
  }

  lemma GoneFin(role: Role, a: Action, e: End)
    requires e.phase == Gone && !e.bound && Enabled(role, a, e)
    requires a.SendFin? || a.WriterRemove?
    ensures Ended(e, Step(role, a, e).e) && Step(role, a, e).frames == []
  {
  }

  lemma GoneConnects(role: Role, a: Action, e: End)
    requires e.phase == Gone && !e.bound && Enabled(role, a, e)
    requires a.Accept? || a.SendConnect? || a.DialFailed? || a.DialDone?
    requires e.boot != AtConnect
    ensures Ended(e, Step(role, a, e).e) && Step(role, a, e).frames == []
  {
  }

  lemma GoneAnswers(role: Role, a: Action, e: End)
    requires e.phase == Gone && !e.bound && Enabled(role, a, e)
    requires a.SendSynAck? || a.StartReader?
    ensures Ended(e, Step(role, a, e).e) && Step(role, a, e).frames == []
  {
  }

  lemma GoneReceives(role: Role, a: Action, e: End)
    requires e.phase == Gone && !e.bound && Enabled(role, a, e)
    requires a.Deliver?
    ensures Ended(e, Step(role, a, e).e) && Step(role, a, e).frames == []
  {
  }

  lemma GoneQueues(role: Role, a: Action, e: End)
    requires e.phase == Gone && !e.bound && Enabled(role, a, e)
    requires a.Enqueue? || a.DropHand?
    ensures Ended(e, Step(role, a, e).e) && Step(role, a, e).frames == []
  {
  }

  lemma GoneSignals(role: Role, a: Action, e: End)
    requires e.phase == Gone && !e.bound && Enabled(role, a, e)
    requires a.TimerFire? || a.TimerRemove? || a.SessionRemoved? || a.CloseStream? || a.StopSignal?
    ensures Ended(e, Step(role, a, e).e) && Step(role, a, e).frames == []
  {
  }

  lemma GoneIsFinal(role: Role, a: Action, e: End)
    requires LocalInv(role, e) && Enabled(role, a, e) && e.phase == Gone
    ensures Ended(e, Step(role, a, e).e) && Step(role, a, e).frames == []
  {
    assert !e.bound && e.boot != AtConnect;
    hide LocalInv, Step, Enabled, Ended;
    if a.SendData? {
      GoneSends(role, a, e);
    } else if a.ReaderWake? || a.ReadBytes? || a.ReadEnd? {
      GoneReads(role, a, e);
    } else if a.Acquire? || a.AbortCredit? || a.EnqueueEof? || a.DropEof? {
      GoneWaits(role, a, e);
    } else if a.WriterStart? || a.WriterExit? || a.Take? || a.WriteOk? {
      GoneWrites(role, a, e);
    } else if a.WriteFail? || a.SendAck? {
      GoneFails(role, a, e);
    } else if a.LocalEof? || a.Arm? || a.RemoteFin? {
      GoneFlags(role, a, e);
    } else if a.SendFin? || a.WriterRemove? {
      GoneFin(role, a, e);
    } else if a.Accept? || a.SendConnect? || a.DialFailed? || a.DialDone? {
      GoneConnects(role, a, e);
    } else if a.SendSynAck? || a.StartReader? {
      GoneAnswers(role, a, e);
    } else if a.Deliver? {
      GoneReceives(role, a, e);
    } else if a.Enqueue? || a.DropHand? {
      GoneQueues(role, a, e);
    } else if a.TimerFire? || a.TimerRemove? || a.SessionRemoved? || a.CloseStream? || a.StopSignal? {
      GoneSignals(role, a, e);
    }
  }

  lemma GoneStays(side: Role, s: System, ev: Event)
    requires Inv(s) && CanStep(s, ev) && Mine(s, side).phase == Gone
    ensures Ended(Mine(s, side), Mine(Next(s, ev), side))
  {
    assert LocalInv(Initiator, s.a) && LocalInv(Responder, s.b);
    NotBound(side, Mine(s, side));
    hide Inv, LocalInv, Step, Enabled, Ended;
    match ev
    case ByA(act) => if side == Initiator { GoneIsFinal(Initiator, act, s.a); } else { Same(s.b); }
    case ByB(act) => if side == Responder { GoneIsFinal(Responder, act, s.b); } else { Same(s.a); }
    case LinkDown => Same(Mine(s, side));
  }

  lemma NotBound(role: Role, e: End)
    requires LocalInv(role, e) && e.phase == Gone
    ensures !e.bound
  {
    hide EofLast, FinState, TraceState, BootOrder;
  }

  lemma Same(e: End)
    requires e.phase == Gone && !e.bound
    ensures Ended(e, e)
  {
  }

  lemma {:induction false} StaysTornDown(side: Role, s: System, evs: seq<Event>)
    requires Inv(s) && Mine(s, side).phase == Gone && Run(s, evs).Some?
    ensures evs != [] ==> Ended(Mine(s, side), Mine(Run(s, evs).value, side))
    decreases |evs|
  {
    hide Inv, CanStep, Next, Mine;
    if evs != [] {
      GoneStays(side, s, evs[0]);
      NextInv(s, evs[0]);
      StaysTornDown(side, Next(s, evs[0]), evs[1..]);
    }
  }

  /** A stream is torn down at most once: whatever follows, it stays out of the table, unbound and silent. */
  lemma TornDownOnce(side: Role, s: System, evs: seq<Event>)
    requires Reachable(s) && Mine(s, side).phase == Gone && Run(s, evs).Some?
    ensures Ended(Mine(s, side), Mine(Run(s, evs).value, side))
  {
    assert Run(s, []) == Some(s);
    hide Reachable, Inv, Run, Mine;
    ReachableInv(s);
    StaysTornDown(side, s, evs);
    GoneIsUnbound(s, side);
  }

  lemma GoneIsUnbound(s: System, side: Role)
    requires Inv(s) && Mine(s, side).phase == Gone
    ensures Ended(Mine(s, side), Mine(s, side))
  {
    hide Inv, LocalInv;
    BothLocal(s);
    NotBound(side, Mine(s, side));
  }

  // --- before the reply

  /** The initiator has not handled a SYN_ACK: at most its CONNECT has been routed. */
  predicate Quiet(e: End) {
    (e.phase == Live ==> !e.ready) && (e.trace == [] || e.trace == [Connect])
  }

  lemma SendTraces(e: End, session: bool, res: Result)
    requires Enabled(Initiator, SendConnect(session, res), e) && e.trace == []
    ensures var e2 := Step(Initiator, SendConnect(session, res), e).e; e2.trace == [] || e2.trace == [Connect]
  {
    assert e.trace + [Connect] == [Connect];
  }

  lemma QuietSend(a: Action, e: End)
    requires Enabled(Initiator, a, e) && a.SendConnect? && e.trace == []
    ensures Step(Initiator, a, e).e.phase == Gone ==> Quiet(Step(Initiator, a, e).e)
  {
    SendTraces(e, a.session, a.res);
    hide Step;
  }

  lemma QuietRemoval(e: End)
    requires Quiet(e) && Enabled(Initiator, CloseStream, e)
    ensures Quiet(Step(Initiator, CloseStream, e).e)
  {
  }

  lemma BootStays(a: Action, e: End)
    requires Enabled(Initiator, a, e) && e.phase == Live && e.boot != AtDial && OfConnection(a) && !a.SendConnect?
    ensures Step(Initiator, a, e).e.phase == Live
  {
    assert a.SendSynAck? || a.StartReader?;
  }

  lemma StaysLive(role: Role, a: Action, e: End)
    requires Enabled(role, a, e) && e.phase == Live && e.writer == AwaitStart && e.timer == Off
    requires !OfConnection(a) && !a.CloseStream? && !a.Deliver?
    ensures Step(role, a, e).e.phase == Live
  {
    assert !a.WriterRemove? && !a.TimerRemove?;
    hide Step, Enabled;
    if a.SendData? {
      if Sends(e, a.res) { OpeningSend(role, a, e); } else { OpeningLose(role, a, e); }
    } else if OfReader(a) {
      OpeningReader(role, a, e);
    } else if a.WriterStart? || a.WriterExit? || a.Take? || a.WriteOk? || a.WriteFail? {
      OpeningWriter(role, a, e);
    } else if a.LocalEof? || a.SendFin? || a.Arm? || a.SendAck? {
      OpeningFlags(role, a, e);
    } else {
      OpeningOther(role, a, e);
    }
  }

  lemma NoReplyNoEnd(e: End, f: Frame, accept: bool, bind: bool, res: Result)
    requires e.phase == Live && !f.SynAck?
    ensures Receive(e, f, accept, bind, res).e.phase == Live
  {
  }

  lemma QuietClose(a: Action, e: End)
    requires LocalInv(Initiator, e) && Enabled(Initiator, a, e) && Quiet(e) && e.phase == Live
    requires a.Deliver? ==> !a.frame.SynAck?
    requires Step(Initiator, a, e).e.phase == Gone
    ensures Quiet(Step(Initiator, a, e).e)
  {
    assert e.writer == AwaitStart && e.timer == Off && e.boot != AtDial && (a.SendConnect? ==> e.trace == []) by {
      hide Step, EofLast, FinState, TraceState, Scan;
    }
    if a.Deliver? { NoReplyNoEnd(e, a.frame, a.accept, a.bind, a.res); }
    hide LocalInv, Receive, Quiet;
    if a.SendConnect? {
      QuietSend(a, e);
    } else if OfConnection(a) {
      BootStays(a, e);
    } else if a.CloseStream? {
      QuietRemoval(e);
    } else if !a.Deliver? {
      StaysLive(Initiator, a, e);
    }
  }

  lemma QuietAlive(e: End)
    requires LocalInv(Initiator, e) && e.phase != Gone && (e.phase == Live ==> !e.ready)
    ensures Quiet(e)
  {
    hide EofLast, FinState, TraceState;
  }

  lemma QuietStep(a: Action, e: End)
    requires LocalInv(Initiator, e) && Enabled(Initiator, a, e) && Quiet(e)
    requires a.Deliver? ==> Expected(Initiator, e, a.frame) && !a.frame.SynAck?
    ensures Quiet(Step(Initiator, a, e).e)
  {
    assert e.phase == Live ==> !e.ready;
    hide Step, LocalInv, Enabled, Quiet, Expected;
    var e2 := Step(Initiator, a, e).e;
    StepKeeps(Initiator, a, e);
    Opens(Initiator, a, e);
    NoDial(a, e);
    if e2.phase != Gone {
      QuietAlive(e2);
    } else if e.phase == Gone {
      GoneIsFinal(Initiator, a, e);
      GoneIsQuiet(e, e2);
    } else if e.phase == Live {
      QuietClose(a, e);
    } else {
      AbsentStays(a, e);
    }
  }

  lemma GoneIsQuiet(e: End, e2: End)
    requires Ended(e, e2) && Quiet(e)
    ensures Quiet(e2)
  {
  }

  lemma AbsentStays(a: Action, e: End)
    requires LocalInv(Initiator, e) && Enabled(Initiator, a, e) && e.phase == Absent
    requires a.Deliver? ==> Expected(Initiator, e, a.frame)
    ensures Step(Initiator, a, e).e.phase != Gone
  {
    hide Scan, EofLast, TraceState, Waiting;
  }

  lemma {:induction false} QuietRun(s: System, evs: seq<Event>)
    requires Inv(s) && Quiet(s.a) && Run(s, evs).Some?
    requires forall ev <- evs :: !(ev.ByA? && ev.act.Deliver? && ev.act.frame.SynAck?)
    ensures Quiet(Run(s, evs).value.a)
    decreases |evs|
  {
    if evs != [] {
      if evs[0].ByA? {
        var act := evs[0].act;
        if act.Deliver? { ExpectedByA(s, act); }
        assert LocalInv(Initiator, s.a) && Enabled(Initiator, act, s.a) && evs[0] in evs;
        QuietStep(act, s.a) by { hide Quiet, Step, Run, LocalInv, Enabled; }
      }
      NextInv(s, evs[0]);
      assert forall ev <- evs[1..] :: ev in evs;
      assert Quiet(Next(s, evs[0]).a) by { hide Quiet, Run, Inv, Step; }
      hide Inv, CanStep, Next, Quiet;
      QuietRun(Next(s, evs[0]), evs[1..]);
    }
  }

  /** Until the initiator handles a SYN_ACK it has routed nothing but its CONNECT. */
  lemma NothingBeforeReply(windowA: nat, capA: nat, windowB: nat, capB: nat, evs: seq<Event>)
    requires Run(Initial(windowA, capA, windowB, capB), evs).Some?
    requires forall ev <- evs :: !(ev.ByA? && ev.act.Deliver? && ev.act.frame.SynAck?)
    ensures var t := Run(Initial(windowA, capA, windowB, capB), evs).value; t.a.trace == [] || t.a.trace == [Connect]
  {
    InitialInv(windowA, capA, windowB, capB);
    hide Inv, Run;
    QuietRun(Initial(windowA, capA, windowB, capB), evs);
  }
}
