/**
 How a stream ends when both its directions have ended: which teardown tells the peer. The
 half-close timer looks at the local flag in one lock section and removes the stream later,
 and so does writeLoop; between the two, each can take the other for the one that sends the FIN.
 */
module StreamEnding {
  import opened Basics
  import opened Pipe
  import opened StreamEndpoint
  import opened StreamLocal
  import opened StreamSystem
  import opened StreamGrammar
  import opened StreamHalfClose
  import opened StreamRuns
  import opened StreamFins

  // --- one teardown

  predicate Removal(a: Action) { a.WriterRemove? || a.TimerRemove? }

  /** The timer removes the stream without a word while writeLoop is about to remove it with a FIN. */
  predicate LosesRace(a: Action, e: End) {
    a.TimerRemove? && e.phase == Live && e.writer == AtRemove(FinFrame(FromEOF))
  }

  lemma RemovalRoutes(role: Role, a: Action, e: End)
    requires LocalInv(role, e) && Enabled(role, a, e) && Removal(a) && e.phase == Live && e.bound
    requires !Announced(Scan(role, e.trace))
    ensures RoutesFin(a, e) <==> !LosesRace(a, e)
  {
    hide Shape, EofLast, Scan;
  }

  lemma WriterTakesOut(role: Role, res: Result, e: End)
    requires Enabled(role, WriterRemove(res), e) && e.phase == Live
    ensures Step(role, WriterRemove(res), e).e.phase == Gone
  {
    assert Step(role, WriterRemove(res), e).e.phase == Remove(e, e.writer.final, res).e.phase by { hide Remove; }
    hide Step, Enabled, Remove;
  }

  lemma TimerTakesOut(role: Role, res: Result, e: End)
    requires Enabled(role, TimerRemove(res), e) && e.phase == Live
    ensures Step(role, TimerRemove(res), e).e.phase == Gone
  {
    assert Step(role, TimerRemove(res), e).e.phase == Remove(e, e.timer.final, res).e.phase by { hide Remove; }
    hide Step, Enabled, Remove;
  }

  lemma RemovalTakesOut(role: Role, a: Action, e: End)
    requires Enabled(role, a, e) && Removal(a) && e.phase == Live
    ensures Step(role, a, e).e.phase == Gone
  {
    hide Step, Enabled;
    if a.WriterRemove? { WriterTakesOut(role, a.res, e); } else { TimerTakesOut(role, a.res, e); }
  }

  /**
   A teardown by writeLoop or by the timer of a bound stream whose FIN has not been routed
   routes none exactly when the timer overtakes writeLoop.
   */
  lemma SilentEnding(role: Role, a: Action, e: End)
    requires LocalInv(role, e) && Enabled(role, a, e) && Removal(a) && e.phase == Live && e.bound
    requires RoutedFins(e.trace) == 0
    ensures var e2 := Step(role, a, e).e; e2.phase == Gone && (RoutedFins(e2.trace) == 0 <==> LosesRace(a, e))
  {
    StepCounts(role, a, e);
    NotBad(role, e);
    FinsAreScanned(role, e.trace);
    hide LocalInv, Step, Enabled, RoutedFins, Scan, RoutesFin, LosesRace;
    RemovalRoutes(role, a, e);
    RemovalTakesOut(role, a, e);
  }

  /** In every state two tunnels can reach. */
  lemma SilentEndings(s: System, side: Role, a: Action)
    requires Reachable(s) && Removal(a) && Enabled(side, a, Mine(s, side))
    requires Mine(s, side).phase == Live && Mine(s, side).bound && RoutedFins(Mine(s, side).trace) == 0
    ensures var e2 := Step(side, a, Mine(s, side)).e;
            e2.phase == Gone && (RoutedFins(e2.trace) == 0 <==> LosesRace(a, Mine(s, side)))
  {
    hide Reachable, Inv, LocalInv, Enabled, Step, RoutedFins, LosesRace, Removal;
    ReachableInv(s);
    BothLocal(s);
    SilentEnding(side, a, Mine(s, side));
  }

  lemma NoFinHandled(p: Pipe)
    requires PipeInv(p) && p.src.fins == 0
    ensures !p.snk.finned
  {
    hide Faithful, Conserved, Clean, Budgeted, Sized, CountFins, CountData;
  }

  lemma NeverToldHere(s: System, side: Role)
    requires Inv(s) && RoutedFins(Mine(s, side).trace) == 0 && Peer(s, side).phase == Live
    ensures !Peer(s, side).remoteFin
  {
    BothLocal(s);
    NotBad(side, Mine(s, side));
    FinsAreScanned(side, Mine(s, side).trace);
    hide LocalInv, PipeInv, Handshake, Scan, RoutedFins, Held;
    NoFinHandled(if side == Initiator then Forward(s) else Backward(s));
  }

  /**
   After such a teardown the other side is never told: over any run it handles no FIN as long as
   it has the stream.
   */
  lemma NeverTold(s: System, side: Role, evs: seq<Event>)
    requires Reachable(s) && Mine(s, side).phase == Gone && RoutedFins(Mine(s, side).trace) == 0 && Run(s, evs).Some?
    requires Peer(Run(s, evs).value, side).phase == Live
    ensures !Peer(Run(s, evs).value, side).remoteFin
  {
    assert Run(s, []) == Some(s);
    hide Reachable, Inv, Run, RoutedFins;
    ReachableInv(s);
    RunInv(s, evs);
    StaysTornDown(side, s, evs);
    NeverToldHere(Run(s, evs).value, side);
  }

  // --- the run

  /** Local EOF finds the peer's FIN handled: writeLoop is to remove the stream with a FIN. */
  function ToRemove(e: End): End {
    e.(reader := ReaderDone, localFin := true, remoteFin := true, timer := Armed, writer := AtRemove(FinFrame(FromEOF)))
  }

  function Overtaken(e: End): End {
    e.(reader := ReaderDone, localFin := true, remoteFin := true, timer := Fired, writer := WriterDone, phase := Gone,
       bound := false)
  }

  /** b handles a's FIN. */
  lemma HandlesPeerFin(s: System)
    requires s.up && Unended(s.b) && s.ab == [Fin(FromEOF)]
    ensures Path(s, s.(b := s.b.(remoteFin := true, timer := Armed), ab := []))
  {
    var e1 := s.b.(inbox := [FinItem(FromEOF)]);
    var e2, e3 := s.b.(writer := AtRemoteFin(FromEOF)), s.b.(remoteFin := true, writer := AtArm);
    assert [Fin(FromEOF)] == [Fin(FromEOF)] + [] && [] + Carried(Fin(FromEOF)) == [FinItem(FromEOF)];
    assert [FinItem(FromEOF)] == [FinItem(FromEOF)] + [];
    TakesIn(s, Fin(FromEOF), []);
    TakesOne(Responder, e1, FinItem(FromEOF), []);
    HandlesFin(Responder, e2);
    Arms(Responder, e3);
    hide Path, Goes;
    var t := s.(b := e1, ab := []);
    SilentB(s, t, Take, e2);
    SilentB(s, t.(b := e2), RemoteFin, e3);
    SilentB(s, t.(b := e3), Arm, s.b.(remoteFin := true, timer := Armed));
  }

  /** b's connection ends as well. */
  lemma EndsToo(s: System)
    requires s.up && Unended(s.b.(remoteFin := false)) && s.b.remoteFin && s.b.timer == Armed && s.b.reader == AtRead
    ensures Path(s, s.(b := ToRemove(s.b)))
  {
    var e1 := s.b.(reader := ReaderDone, inbox := [EofItem]);
    var e2 := e1.(inbox := [], writer := AtLocalEof);
    assert [] + [EofItem] == [EofItem] && [EofItem] == [EofItem] + [];
    QueuesEof(s);
    TakesOne(Responder, e1, EofItem, []);
    HandlesEof(Responder, e2);
    assert e2.(localFin := true, writer := AtRemove(FinFrame(FromEOF))) == ToRemove(s.b);
    hide Path, Goes, ToRemove;
    SilentB(s, s.(b := e1), Take, e2);
    SilentB(s, s.(b := e2), LocalEof, ToRemove(s.b));
  }

  lemma TimerOvertakes(e: End)
    requires e == ToRemove(e) && e.phase == Live && e.ready
    ensures Goes(Responder, e, TimerFire, e.(timer := Firing(NoFrame)))
    ensures Goes(Responder, e.(timer := Firing(NoFrame)), TimerRemove(Ok), Overtaken(e).(writer := e.writer))
  {
  }

  lemma WriterComesLate(e: End)
    requires e.phase == Gone && e.writer.AtRemove?
    ensures Goes(Responder, e, WriterRemove(Ok), e.(writer := WriterDone))
  {
  }

  lemma Overtakes(s: System)
    requires s.up && s.b == ToRemove(s.b) && s.b.phase == Live && s.b.ready
    ensures Path(s, s.(b := Overtaken(s.b)))
  {
    PathEmpty(s);
    var e1, e2 := s.b.(timer := Firing(NoFrame)), Overtaken(s.b).(writer := s.b.writer);
    TimerOvertakes(s.b);
    WriterComesLate(e2);
    assert e2.(writer := WriterDone) == Overtaken(s.b);
    hide Path, Goes, Overtaken, ToRemove;
    SilentB(s, s, TimerFire, e1);
    SilentB(s, s.(b := e1), TimerRemove(Ok), e2);
    SilentB(s, s.(b := e2), WriterRemove(Ok), Overtaken(s.b));
  }

  lemma RaceFrom(s: System)
    requires s.up && s.ab == [] && Unended(s.a) && Unended(s.b) && s.a.reader == AtRead && s.b.reader == AtRead
             && s.b.ready
    ensures Path(s, System(Finished(s.a), Overtaken(s.b), [], s.ba, true))
  {
    var s1 := System(Finished(s.a), s.b, [Fin(FromEOF)], s.ba, true);
    var s2 := s1.(b := s.b.(remoteFin := true, timer := Armed), ab := []);
    var s3 := s2.(b := ToRemove(s2.b));
    assert [] + [Fin(FromEOF)] == [Fin(FromEOF)];
    assert Overtaken(s3.b) == Overtaken(s.b) && ToRemove(s3.b) == s3.b && s3.b.phase == Live && s3.b.ready;
    hide Path, Finished, Overtaken, ToRemove;
    EndsReading(s);
    HandlesPeerFin(s1);
    PathTrans(s, s1, s2);
    EndsToo(s2);
    PathTrans(s, s2, s3);
    Overtakes(s3);
    PathTrans(s, s3, s3.(b := Overtaken(s3.b)));
  }

  function Other(side: Role): Role { if side == Initiator then Responder else Initiator }

  /**
   The given side has announced its end and waits; the other has torn the stream down without a
   FIN, nothing having failed.
   */
  predicate LeftWaiting(s: System, side: Role) {
    var e, peer := Mine(s, side), Peer(s, side);
    && s.up && s.ab == [] && s.ba == [] && !e.mute && !peer.mute
    && peer.phase == Gone && !peer.bound && peer.writer == WriterDone && peer.trace == [Opener(Other(side))]
    && e.phase == Live && e.bound && e.localFin && !e.remoteFin && e.timer == Armed
  }

  lemma RaceLeavesWaiting(windowA: nat, capA: nat, windowB: nat, capB: nat, side: Role)
    requires capA > 0 && capB > 0
    ensures var s := View(Opened(windowA, capA, windowB, capB), side);
            && s.up && s.ab == [] && s.ba == [] && Unended(s.a) && Unended(s.b)
            && s.a.reader == AtRead && s.b.reader == AtRead && s.b.ready
            && LeftWaiting(View(System(Finished(s.a), Overtaken(s.b), [], [], true), side), side)
  {
    if side == Initiator {} else {}
  }

  /** In every configuration, and whichever side ends first, the other can end without ever telling it. */
  lemma FinCanBeLost(side: Role, windowA: nat, capA: nat, windowB: nat, capB: nat)
    requires capA > 0 && capB > 0
    ensures exists t: System :: Path(Initial(windowA, capA, windowB, capB), t) && LeftWaiting(t, side)
  {
    var s := View(Opened(windowA, capA, windowB, capB), side);
    var u := System(Finished(s.a), Overtaken(s.b), [], [], true);
    RaceLeavesWaiting(windowA, capA, windowB, capB, side);
    hide Path, Opened, View, Initial, Finished, Overtaken, LeftWaiting, Unended;
    RaceFrom(s);
    FromTheStart(windowA, capA, windowB, capB, side, u);
  }

  // --- both ends in any order, writeLoop and timer in any interleaving

  /** A step of writeLoop or of the timer. */
  predicate Winding(a: Action) { OfWriter(a) || a.TimerFire? || a.TimerRemove? }

  /** No DATA is left to write, and the tunnel is not stopping. */
  predicate WindingUp(role: Role, e: End) {
    && LocalInv(role, e) && !e.done && e.phase != Absent && (e.phase == Live ==> e.bound)
    && (forall i <- e.inbox :: !i.DataItem?)
    && !e.writer.AtWrite? && e.writer != AtAck && e.writer != AwaitStart
    && e.writer != AtRemove(FinFrame(FromWriteFailure))
  }

  predicate EofPending(e: End) { EofItem in e.inbox || e.writer == AtLocalEof || e.localFin }

  predicate FinPending(e: End) { (exists i <- e.inbox :: i.FinItem?) || e.writer.AtRemoteFin? || e.remoteFin }

  function Left(e: End): nat {
    4 * |e.inbox|
    + (match e.writer
       case Idle => 1
       case AtLocalEof => 4
       case AtRemoteFin(_) => 3
       case AtSendFin => 3
       case AtArm => 2
       case AtRemove(_) => 2
       case WriterDone => 0
       case _ => 0)
    + (match e.timer case Fired => 0 case Firing(_) => 1 case _ => 2)
  }

  /** What a winding step does besides keeping the invariants. */
  predicate Winds(e: End, e2: End) {
    && Left(e2) < Left(e)
    && e2.done == e.done && e2.phase != Absent && (e2.phase == Live ==> e.phase == Live && e2.bound == e.bound)
    && (forall i <- e2.inbox :: i in e.inbox)
    && !e2.writer.AtWrite? && e2.writer != AtAck && e2.writer != AwaitStart
    && e2.writer != AtRemove(FinFrame(FromWriteFailure))
    && (EofPending(e) ==> EofPending(e2)) && (FinPending(e) ==> FinPending(e2))
  }

  lemma TakeWinds(role: Role, e: End)
    requires WindingUp(role, e) && Enabled(role, Take, e)
    ensures Winds(e, Step(role, Take, e).e)
  {
    hide LocalInv;
    var first, rest := e.inbox[0], e.inbox[1..];
    assert e.inbox == [first] + rest && first in e.inbox && e.writer == Idle;
    TakesOne(role, e, first, rest);
    hide Step, Enabled;
    assert forall i <- rest :: i in e.inbox;
  }

  lemma ArmWinds(role: Role, e: End)
    requires WindingUp(role, e) && Enabled(role, Arm, e)
    ensures Winds(e, Step(role, Arm, e).e)
  {
    assert e.timer == Off by { hide Shape, EofLast, TraceState; }
    hide LocalInv;
  }

  lemma EndWinds(role: Role, a: Action, e: End)
    requires WindingUp(role, e) && Enabled(role, a, e) && (a.LocalEof? || a.RemoteFin?)
    ensures Winds(e, Step(role, a, e).e)
  {
    hide LocalInv;
    if a.LocalEof? {} else {}
  }

  lemma SendWinds(role: Role, a: Action, e: End)
    requires WindingUp(role, e) && Enabled(role, a, e) && (a.SendFin? || a.WriterExit?)
    ensures Winds(e, Step(role, a, e).e)
  {
    hide LocalInv;
  }

  lemma RemoveWinds(role: Role, a: Action, e: End)
    requires WindingUp(role, e) && Enabled(role, a, e) && Removal(a)
    ensures Winds(e, Step(role, a, e).e)
  {
    hide LocalInv;
  }

  lemma FireWinds(role: Role, e: End)
    requires WindingUp(role, e) && Enabled(role, TimerFire, e)
    ensures Winds(e, Step(role, TimerFire, e).e)
  {
    hide LocalInv;
  }

  lemma WindStep(role: Role, a: Action, e: End)
    requires WindingUp(role, e) && Enabled(role, a, e) && Winding(a)
    ensures WindingUp(role, Step(role, a, e).e) && Winds(e, Step(role, a, e).e)
  {
    assert !a.WriteOk? && !a.WriteFail? && !a.SendAck? && !a.WriterStart?;
    assert !a.Deliver? && LocalInv(role, e);
    hide Step, Enabled, LocalInv, Winds;
    StepKeeps(role, a, e);
    if a.Take? {
      TakeWinds(role, e);
    } else if a.Arm? {
      ArmWinds(role, e);
    } else if a.LocalEof? || a.RemoteFin? {
      EndWinds(role, a, e);
    } else if a.SendFin? || a.WriterExit? {
      SendWinds(role, a, e);
    } else if a.TimerFire? {
      FireWinds(role, e);
    } else {
      RemoveWinds(role, a, e);
    }
    KeepsWinding(role, e, Step(role, a, e).e);
  }

  lemma KeepsWinding(role: Role, e: End, e2: End)
    requires WindingUp(role, e) && LocalInv(role, e2) && Winds(e, e2)
    ensures WindingUp(role, e2)
  {
    hide LocalInv, Left, EofPending, FinPending;
  }

  // --- it comes to an end, with the stream removed

  ghost predicate Settled(role: Role, e: End) { forall a: Action :: Winding(a) ==> !Enabled(role, a, e) }

  /** Neither writeLoop nor the timer has anything to do. */
  predicate Quiescent(e: End) {
    && !RemovalPending(e) && e.timer != Armed
    && !e.writer.AtLocalEof? && !e.writer.AtSendFin? && !e.writer.AtArm? && !e.writer.AtRemoteFin?
    && (e.writer == Idle ==> e.inbox == [] && !Closing(e))
  }

  lemma WriterHasWork(role: Role, e: End) returns (a: Action)
    requires e.writer.AtLocalEof? || e.writer.AtSendFin? || e.writer.AtArm? || e.writer.AtRemoteFin?
             || e.writer.AtRemove?
    ensures Winding(a) && Enabled(role, a, e)
  {
    a := match e.writer
      case AtLocalEof => LocalEof
      case AtSendFin => SendFin(Ok)
      case AtArm => Arm
      case AtRemoteFin(_) => RemoteFin
      case _ => WriterRemove(Ok);
  }

  lemma TimerHasWork(role: Role, e: End) returns (a: Action)
    requires e.timer == Armed || e.timer.Firing?
    ensures Winding(a) && Enabled(role, a, e)
  {
    a := if e.timer == Armed then TimerFire else TimerRemove(Ok);
  }

  lemma QueueHasWork(role: Role, e: End) returns (a: Action)
    requires e.writer == Idle && (e.inbox != [] || Closing(e))
    ensures Winding(a) && Enabled(role, a, e)
  {
    a := if e.inbox != [] then Take else WriterExit;
  }

  lemma SettledIsQuiescent(role: Role, e: End)
    requires Settled(role, e)
    ensures Quiescent(e)
  {
    hide Enabled, Winding, Closing;
    if e.timer == Armed || e.timer.Firing? {
      var a := TimerHasWork(role, e);
    } else if e.writer == Idle && (e.inbox != [] || Closing(e)) {
      var a := QueueHasWork(role, e);
    } else if e.writer != Idle && !Quiescent(e) {
      var a := WriterHasWork(role, e);
    }
  }

  /** With both ends in, nothing is left to do only when the stream is gone. */
  lemma SettledIsGone(role: Role, e: End)
    requires WindingUp(role, e) && EofPending(e) && FinPending(e) && Settled(role, e)
    ensures e.phase == Gone && !e.bound && e.localFin && e.remoteFin && e.writer == WriterDone
    ensures e.timer == Off || e.timer == Fired
  {
    hide LocalInv, Settled;
    SettledIsQuiescent(role, e);
    FlagsAreWatched(role, e);
    WriterIsKnown(role, e);
  }

  lemma WriterIsKnown(role: Role, e: End)
    requires LocalInv(role, e)
    ensures e.phase != Absent ==> e.writer != NoWriter
    ensures e.phase == Live && !e.done ==> e.writer != WriterDone
    ensures e.phase == Gone ==> !e.bound && e.localFin && e.remoteFin
  {
    hide EofLast, TraceState, Pristine, Waiting;
  }

  // --- and with the peer told, or not

  /** t says one FIN more than u. */
  ghost predicate OneFinMore(u: seq<Frame>, t: seq<Frame>) { exists o: Origin :: t == u + [Fin(o)] }

  predicate Appends(a: Action, e: End, e2: End, o: Origin) {
    e2.trace == if RoutesFin(a, e) then e.trace + [Fin(o)] else e.trace
  }

  lemma RemovalAppends(role: Role, a: Action, e: End) returns (o: Origin)
    requires Enabled(role, a, e) && Removal(a)
    requires a.WriterRemove? ==> !e.writer.final.RefuseFrame?
    requires a.TimerRemove? ==> !e.timer.final.RefuseFrame?
    ensures Appends(a, e, Step(role, a, e).e, o)
  {
    var final := if a.WriterRemove? then e.writer.final else e.timer.final;
    o := if final.FinFrame? then final.origin else FromEOF;
    assert Step(role, a, e).e.trace == Remove(e, final, a.res).e.trace by { hide Remove; }
    hide Step;
  }

  lemma FinAppends(role: Role, res: Result, e: End)
    requires e.writer == AtSendFin
    ensures Appends(SendFin(res), e, Step(role, SendFin(res), e).e, FromEOF)
  {
    SendsFin(role, e, res);
    hide Step, Enabled;
  }

  lemma OthersAppend(role: Role, a: Action, e: End)
    requires Enabled(role, a, e) && Winding(a) && !Removal(a) && !a.SendAck? && !a.SendFin?
    ensures Step(role, a, e).e.trace == e.trace
  {
    hide Enabled, WriterStep;
    if !a.TimerFire? { WriterKeepsTrace(role, a, e); }
  }

  lemma NotAtAck(role: Role, a: Action, e: End)
    requires Enabled(role, a, e)
    ensures a.SendAck? ==> e.writer == AtAck
    ensures a.SendFin? ==> e.writer == AtSendFin
  {
  }

  lemma WindAppends(role: Role, a: Action, e: End) returns (o: Origin)
    requires WindingUp(role, e) && Enabled(role, a, e) && Winding(a)
    ensures Appends(a, e, Step(role, a, e).e, o)
  {
    hide Step, Enabled, LocalInv, Winding;
    NoRefusal(role, e);
    RemovalKnown(role, a, e);
    NotAtAck(role, a, e);
    if Removal(a) {
      o := RemovalAppends(role, a, e);
    } else {
      o := FromEOF;
      if a.SendFin? { FinAppends(role, a.res, e); } else { OthersAppend(role, a, e); }
    }
  }

  lemma GoneAppendsNothing(role: Role, a: Action, e: End)
    requires LocalInv(role, e) && Enabled(role, a, e) && e.phase == Gone
    ensures Step(role, a, e).e.trace == e.trace && Step(role, a, e).e.phase == Gone
  {
    hide Step, Enabled, LocalInv;
    GoneIsFinal(role, a, e);
  }

  lemma OnlyRemovalsEnd(role: Role, a: Action, e: End)
    requires Enabled(role, a, e) && Winding(a) && e.phase == Live && !Removal(a)
    ensures Step(role, a, e).e.phase == Live
  {
    hide Step, Enabled;
    if a.WriterStart? || a.WriterExit? || a.Take? || a.WriteOk? || a.WriteFail? {
      OpeningWriter(role, a, e);
    } else if a.LocalEof? || a.SendFin? || a.Arm? || a.SendAck? {
      OpeningFlags(role, a, e);
    } else {
      OpeningOther(role, a, e);
    }
  }

  /** One step of a stream still in the table. */
  lemma WindTells(role: Role, a: Action, e: End)
    requires WindingUp(role, e) && Enabled(role, a, e) && Winding(a) && e.phase == Live
    ensures var e2 := Step(role, a, e).e;
            && (RoutedFins(e.trace) == 1 ==> e2.trace == e.trace && !LosesRace(a, e))
            && (RoutedFins(e.trace) == 0 ==>
                  && (e2.trace == e.trace || (OneFinMore(e.trace, e2.trace) && RoutedFins(e2.trace) == 1))
                  && (e2.phase == Gone ==> (e2.trace == e.trace <==> LosesRace(a, e)))
                  && (e2.phase != Gone ==> !LosesRace(a, e)))
  {
    assert !a.Deliver?;
    hide Step, Enabled, LocalInv, RoutedFins, Scan, Expected, Winding;
    var o := WindAppends(role, a, e);
    StepCounts(role, a, e);
    SecondFin(role, a, e);
    if Removal(a) {
      RemovalTakesOut(role, a, e);
      if RoutedFins(e.trace) == 0 { SilentEnding(role, a, e); }
      if RoutedFins(e.trace) == 1 { AnnouncedNeverRaces(role, e); }
    } else {
      OnlyRemovalsEnd(role, a, e);
    }
  }

  lemma AnnouncedNeverRaces(role: Role, e: End)
    requires LocalInv(role, e) && e.phase == Live && RoutedFins(e.trace) == 1
    ensures e.writer != AtRemove(FinFrame(FromEOF))
  {
    NotBad(role, e);
    FinsAreScanned(role, e.trace);
    hide Shape, EofLast, FinState, Scan, RoutedFins;
  }

  // --- whole interleavings

  predicate AllWinding(acts: seq<Action>) { forall a <- acts :: Winding(a) }

  /** Somewhere on the way the timer overtakes writeLoop. */
  predicate Races(role: Role, e: End, acts: seq<Action>)
    requires Play(role, e, acts).Some?
    decreases |acts|
  {
    acts != [] && (LosesRace(acts[0], e) || Races(role, Step(role, acts[0], e).e, acts[1..]))
  }

  lemma PlayFirst(role: Role, e: End, acts: seq<Action>)
    requires acts != [] && Play(role, e, acts).Some? && AllWinding(acts)
    ensures Enabled(role, acts[0], e) && Winding(acts[0]) && AllWinding(acts[1..])
    ensures var o := Step(role, acts[0], e);
            Play(role, o.e, acts[1..]).Some? && Play(role, o.e, acts[1..]).value.e == Play(role, e, acts).value.e
  {
    hide Enabled, Step, Winding;
    assert forall a <- acts[1..] :: a in acts;
  }

  /** Any interleaving keeps the invariants, and is no longer than the work that is left. */
  lemma {:induction false} PlayWinds(role: Role, e: End, acts: seq<Action>)
    requires WindingUp(role, e) && AllWinding(acts) && Play(role, e, acts).Some?
    ensures var e2 := Play(role, e, acts).value.e;
            && WindingUp(role, e2) && |acts| + Left(e2) <= Left(e)
            && (EofPending(e) ==> EofPending(e2)) && (FinPending(e) ==> FinPending(e2))
            && (e2.phase == Live ==> e.phase == Live)
    decreases |acts|
  {
    hide WindingUp, Step, Enabled, Left, EofPending, FinPending, AllWinding;
    if acts != [] {
      PlayFirst(role, e, acts);
      WindStep(role, acts[0], e);
      PlayWinds(role, Step(role, acts[0], e).e, acts[1..]);
    }
  }

  /** Behind the teardown, and behind the FIN, nothing more is routed. */
  lemma {:induction false} PlaySettled(role: Role, e: End, acts: seq<Action>)
    requires WindingUp(role, e) && AllWinding(acts) && Play(role, e, acts).Some?
    requires e.phase == Gone || RoutedFins(e.trace) == 1
    ensures Play(role, e, acts).value.e.trace == e.trace && !Races(role, e, acts)
    decreases |acts|
  {
    hide Step, Enabled, RoutedFins, LocalInv, AllWinding, Winding;
    if acts != [] {
      var a, e2 := acts[0], Step(role, acts[0], e).e;
      PlayFirst(role, e, acts);
      WindStep(role, a, e);
      if e.phase == Gone { GoneAppendsNothing(role, a, e); } else { WindTells(role, a, e); }
      PlaySettled(role, e2, acts[1..]);
    }
  }

  /** The stream is removed with one FIN routed, or with none exactly when the timer has overtaken writeLoop. */
  lemma {:induction false} PlayTells(role: Role, e: End, acts: seq<Action>)
    requires WindingUp(role, e) && AllWinding(acts) && Play(role, e, acts).Some?
    requires e.phase == Live && RoutedFins(e.trace) == 0 && Play(role, e, acts).value.e.phase == Gone
    ensures var t := Play(role, e, acts).value.e.trace;
            if Races(role, e, acts) then t == e.trace else OneFinMore(e.trace, t)
    decreases |acts|
  {
    hide Step, Enabled, RoutedFins, LocalInv, AllWinding, Winding, OneFinMore, LosesRace;
    if acts != [] {
      var a, e2 := acts[0], Step(role, acts[0], e).e;
      PlayFirst(role, e, acts);
      WindStep(role, a, e);
      WindTells(role, a, e);
      if e2.phase == Gone || e2.trace != e.trace {
        PlaySettled(role, e2, acts[1..]);
      } else {
        PlayTells(role, e2, acts[1..]);
      }
    }
  }

  // --- local end first

  /** The local end is being handled, or next to be, and the peer's has not been. */
  predicate LocalFirst(e: End) {
    && !e.remoteFin && e.timer == Off
    && ((e.writer == Idle && !e.localFin && e.inbox != [] && e.inbox[0] == EofItem)
        || (e.writer == AtLocalEof && !e.localFin) || e.writer == AtSendFin)
  }

  lemma LocalFirstStep(role: Role, a: Action, e: End)
    requires WindingUp(role, e) && e.phase == Live && LocalFirst(e) && Enabled(role, a, e) && Winding(a)
    ensures var e2 := Step(role, a, e).e; e2.phase == Live && (LocalFirst(e2) || RoutesFin(a, e))
    ensures !LosesRace(a, e)
  {
    assert a.Take? || a.LocalEof? || a.SendFin?;
    hide LocalInv;
    if a.Take? {} else if a.LocalEof? {} else {}
  }

  lemma {:induction false} LocalFirstNeverRaces(role: Role, e: End, acts: seq<Action>)
    requires WindingUp(role, e) && AllWinding(acts) && Play(role, e, acts).Some?
    requires e.phase == Live && LocalFirst(e) && RoutedFins(e.trace) == 0
    ensures !Races(role, e, acts)
    decreases |acts|
  {
    hide Step, Enabled, RoutedFins, LocalInv, AllWinding, Winding, LocalFirst, LosesRace, RoutesFin;
    if acts != [] {
      var a, e2 := acts[0], Step(role, acts[0], e).e;
      PlayFirst(role, e, acts);
      WindStep(role, a, e);
      LocalFirstStep(role, a, e);
      StepCounts(role, a, e);
      if RoutedFins(e2.trace) > 0 {
        assert RoutedFins(e2.trace) == 1;
        PlaySettled(role, e2, acts[1..]);
      } else {
        LocalFirstNeverRaces(role, e2, acts[1..]);
      }
    }
  }

  // --- both orders

  /** Steps of writeLoop and the timer, one after the other in any order, until neither has anything left to do. */
  ghost predicate WindsUp(role: Role, e: End, acts: seq<Action>) {
    AllWinding(acts) && Play(role, e, acts).Some? && Settled(role, Play(role, e, acts).value.e)
  }

  /** Out of the table and unbound, with both directions closed and both goroutines done. */
  predicate Over(e: End) {
    && e.phase == Gone && !e.bound && e.localFin && e.remoteFin && e.writer == WriterDone
    && (e.timer == Off || e.timer == Fired)
  }

  /** Both ends of an open stream wait in the inbox, with no DATA behind them, and the peer has not been told of any. */
  predicate BothIn(role: Role, e: End) {
    && LocalInv(role, e) && BothEnding(e) && e.bound && !e.done && RoutedFins(e.trace) == 0
    && (forall i <- e.inbox :: !i.DataItem?)
  }

  lemma WindsToTheEnd(role: Role, e: End, acts: seq<Action>)
    requires BothIn(role, e) && EofPending(e) && FinPending(e) && WindsUp(role, e, acts)
    ensures Over(Play(role, e, acts).value.e) && |acts| <= Left(e)
    ensures var t := Play(role, e, acts).value.e.trace;
            if Races(role, e, acts) then t == e.trace else OneFinMore(e.trace, t)
  {
    assert WindingUp(role, e);
    hide LocalInv, AllWinding, Settled, RoutedFins, EofPending, FinPending, OneFinMore, Left;
    PlayWinds(role, e, acts);
    SettledIsGone(role, Play(role, e, acts).value.e);
    PlayTells(role, e, acts);
  }

  /** Such interleavings exist: as long as one of the two has something to do, it can do it, and that ends. */
  lemma {:induction false} ComesToRest(role: Role, e: End) returns (acts: seq<Action>)
    requires WindingUp(role, e)
    ensures WindsUp(role, e, acts)
    decreases Left(e)
  {
    hide WindingUp, Step, Enabled, Left, Winding;
    acts := [];
    if !Settled(role, e) {
      var a: Action :| Winding(a) && Enabled(role, a, e);
      WindStep(role, a, e);
      var rest := ComesToRest(role, Step(role, a, e).e);
      acts := [a] + rest;
      assert acts[0] == a && acts[1..] == rest;
    }
  }

  /** An end just opened, with its reader done and the given items queued. */
  function Queued(e: End, items: seq<Item>): End { e.(reader := ReaderDone, inbox := items) }

  lemma BothQueued(s: System, localFirst: bool)
    requires s.up && s.ab == [] && Unended(s.a) && Unended(s.b) && s.a.reader == AtRead && s.b.reader == AtRead
    requires s.b.cap >= 2
    ensures var items := if localFirst then [EofItem, FinItem(FromEOF)] else [FinItem(FromEOF), EofItem];
            Path(s, System(Finished(s.a), Queued(s.b, items), [], s.ba, true))
  {
    var fin := FinItem(FromEOF);
    var s1 := System(Finished(s.a), s.b, [Fin(FromEOF)], s.ba, true);
    assert [] + [Fin(FromEOF)] == [Fin(FromEOF)] == [Fin(FromEOF)] + [] && Carried(Fin(FromEOF)) == [fin];
    assert [] + [fin] == [fin] && [] + [EofItem] == [EofItem];
    assert [fin] + [EofItem] == [fin, EofItem] && [EofItem] + [fin] == [EofItem, fin];
    hide Path, Finished, Carried;
    EndsReading(s);
    if localFirst {
      var s2 := s1.(b := Queued(s.b, [EofItem]));
      QueuesEof(s1);
      PathTrans(s, s1, s2);
      TakesIn(s2, Fin(FromEOF), []);
      PathTrans(s, s2, s2.(b := Queued(s.b, [EofItem, fin]), ab := []));
    } else {
      var s2 := s1.(b := s.b.(inbox := [fin]), ab := []);
      TakesIn(s1, Fin(FromEOF), []);
      PathTrans(s, s1, s2);
      QueuesEof(s2);
      PathTrans(s, s2, s2.(b := Queued(s.b, [fin, EofItem])));
    }
  }

  lemma QueuedIsIn(windowA: nat, capA: nat, windowB: nat, capB: nat, side: Role, t: System, items: seq<Item>)
    requires Path(Initial(windowA, capA, windowB, capB), t) && forall i <- items :: !i.DataItem?
    requires Peer(t, side) == Queued(Peer(Opened(windowA, capA, windowB, capB), side), items)
    ensures BothIn(Other(side), Peer(t, side))
  {
    assert Reachable(t);
    assert BothEnding(Peer(t, side)) && Peer(t, side).bound && !Peer(t, side).done;
    assert RoutedFins(Peer(t, side).trace) == 0;
    hide Reachable, Inv, LocalInv, RoutedFins, Path, Opened, Initial;
    ReachableInv(t);
    BothLocal(t);
  }

  /** And both orders are reached, from the same open stream, wherever the inbox has room for two. */
  lemma BothInIsReachable(side: Role, windowA: nat, capA: nat, windowB: nat, capB: nat, localFirst: bool)
    requires capA >= 2 && capB >= 2
    ensures var items := if localFirst then [EofItem, FinItem(FromEOF)] else [FinItem(FromEOF), EofItem];
            exists t: System ::
              && Path(Initial(windowA, capA, windowB, capB), t) && BothIn(Other(side), Peer(t, side))
              && Peer(t, side) == Queued(Peer(Opened(windowA, capA, windowB, capB), side), items)
  {
    var items := if localFirst then [EofItem, FinItem(FromEOF)] else [FinItem(FromEOF), EofItem];
    var s := View(Opened(windowA, capA, windowB, capB), side);
    var u := System(Finished(s.a), Queued(s.b, items), [], s.ba, true);
    OpenedForBoth(windowA, capA, windowB, capB, side);
    assert Peer(View(u, side), side) == u.b && s.b == Peer(Opened(windowA, capA, windowB, capB), side);
    hide Path, Opened, View, Initial, Finished, Unended, BothIn, Queued;
    BothQueued(s, localFirst);
    FromTheStart(windowA, capA, windowB, capB, side, u);
    QueuedIsIn(windowA, capA, windowB, capB, side, View(u, side), items);
  }

  lemma OpenedForBoth(windowA: nat, capA: nat, windowB: nat, capB: nat, side: Role)
    requires capA >= 2 && capB >= 2
    ensures var s := View(Opened(windowA, capA, windowB, capB), side);
            && s.up && s.ab == [] && Unended(s.a) && Unended(s.b)
            && s.a.reader == AtRead && s.b.reader == AtRead && s.b.cap >= 2
  {
    if side == Initiator {} else {}
  }

  /**
   Whichever direction ends first, and however writeLoop and the half-close timer take turns,
   the stream ends in the same way: removed, unbound, and with exactly one FIN routed. There
   is one exception, and only with the peer's end first: when the timer overtakes writeLoop
   between its two lock sections, no FIN is routed at all.
   */
  lemma EitherOrderEndsAlike(role: Role, e: End, o: Origin, rest: seq<Item>, x: seq<Action>, y: seq<Action>)
    requires BothIn(role, e.(inbox := [EofItem, FinItem(o)] + rest))
    requires BothIn(role, e.(inbox := [FinItem(o), EofItem] + rest))
    requires WindsUp(role, e.(inbox := [EofItem, FinItem(o)] + rest), x)
    requires WindsUp(role, e.(inbox := [FinItem(o), EofItem] + rest), y)
    ensures var (a, b) := (e.(inbox := [EofItem, FinItem(o)] + rest), e.(inbox := [FinItem(o), EofItem] + rest));
            var (local, peer) := (Play(role, a, x).value.e, Play(role, b, y).value.e);
            && Over(local) && Over(peer) && OneFinMore(e.trace, local.trace)
            && (if Races(role, b, y) then peer.trace == e.trace else OneFinMore(e.trace, peer.trace))
  {
    var a, b := e.(inbox := [EofItem, FinItem(o)] + rest), e.(inbox := [FinItem(o), EofItem] + rest);
    assert a.inbox[0] == EofItem && a.inbox[1] == FinItem(o) && b.inbox[0] == FinItem(o) && b.inbox[1] == EofItem;
    assert FinPending(a) by { assert a.inbox[1] in a.inbox; }
    assert FinPending(b) by { assert b.inbox[0] in b.inbox; }
    assert WindingUp(role, a);
    hide LocalInv, AllWinding, Settled, RoutedFins, OneFinMore, FinPending, Over;
    LocalFirstNeverRaces(role, a, x);
    WindsToTheEnd(role, a, x);
    WindsToTheEnd(role, b, y);
  }
}
