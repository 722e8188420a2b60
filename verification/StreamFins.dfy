/** How many FINs a side of a stream routes: one, or two when a local write fails after the side's own end. */
module StreamFins {
  import opened Basics
  import opened Pipe
  import opened StreamEndpoint
  import opened StreamLocal
  import opened StreamSystem
  import opened StreamRuns
  import opened StreamWaits

  function RoutedFins(t: seq<Frame>): nat {
    if t == [] then 0 else RoutedFins(t[..|t| - 1]) + Bit(t[|t| - 1].Fin?)
  }

  lemma OneMore(t: seq<Frame>, f: Frame)
    ensures RoutedFins(t + [f]) == RoutedFins(t) + Bit(f.Fin?)
  {
    assert (t + [f])[..|t|] == t;
  }

  /** The automaton counts them. */
  lemma {:induction false} FinsAreScanned(role: Role, t: seq<Frame>)
    ensures Scan(role, t) != Bad ==> RoutedFins(t) == FinsOf(Scan(role, t))
    decreases |t|
  {
    if t != [] { FinsAreScanned(role, t[..|t| - 1]); }
  }

  // --- which steps route a FIN

  predicate RoutesFin(a: Action, e: End) {
    && e.bound
    && (|| a.SendFin?
        || (a.WriterRemove? && e.phase == Live && e.writer.AtRemove? && e.writer.final.FinFrame?)
        || (a.TimerRemove? && e.phase == Live && e.timer.Firing? && e.timer.final.FinFrame?))
  }

  predicate Counts(a: Action, e: End, e2: End) { RoutedFins(e2.trace) == RoutedFins(e.trace) + Bit(RoutesFin(a, e)) }

  lemma RemovalCounts(e: End, final: Final, res: Result)
    ensures RoutedFins(Remove(e, final, res).e.trace)
            == RoutedFins(e.trace) + Bit(e.bound && e.phase == Live && final.FinFrame?)
  {
    OneMore(e.trace, SynAck(false));
    if final.FinFrame? { OneMore(e.trace, Fin(final.origin)); }
    hide RoutedFins;
  }

  lemma ConnectCounts(role: Role, session: bool, res: Result, e: End)
    requires Enabled(role, SendConnect(session, res), e)
    ensures Counts(SendConnect(session, res), e, ConnectionStep(role, SendConnect(session, res), e).e)
  {
    OneMore(e.trace, Connect);
    hide RoutedFins;
  }

  lemma RefusalCounts(role: Role, res: Result, e: End)
    requires Enabled(role, DialFailed(res), e)
    ensures Counts(DialFailed(res), e, ConnectionStep(role, DialFailed(res), e).e)
  {
    RemovalCounts(e.(boot := Booted), RefuseFrame, res);
    hide RoutedFins, Remove;
  }

  lemma AnswerCounts(role: Role, a: Action, e: End)
    requires Enabled(role, a, e) && (a.SendSynAck? || a.StartReader? || a.Accept?)
    ensures Counts(a, e, ConnectionStep(role, a, e).e)
  {
    OneMore(e.trace, SynAck(true));
    hide RoutedFins;
  }

  lemma DialStays(e: End)
    ensures Dialled(e).trace == e.trace
  {
    if e.phase == Gone {} else {}
  }

  lemma DialCounts(role: Role, e: End)
    requires Enabled(role, DialDone, e)
    ensures Counts(DialDone, e, ConnectionStep(role, DialDone, e).e)
  {
    DialStays(e);
    hide Dialled, RoutedFins;
  }

  lemma ConnectionCounts(role: Role, a: Action, e: End)
    requires Enabled(role, a, e) && OfConnection(a)
    ensures Counts(a, e, ConnectionStep(role, a, e).e)
  {
    hide Enabled, ConnectionStep, Counts;
    match a
    case SendConnect(session, res) => ConnectCounts(role, session, res, e);
    case DialFailed(res) => RefusalCounts(role, res, e);
    case DialDone => DialCounts(role, e);
    case _ => AnswerCounts(role, a, e);
  }

  lemma CallCounts(e: End, accept: bool, bind: bool, res: Result)
    ensures RoutedFins(Receive(e, Connect, accept, bind, res).e.trace) == RoutedFins(e.trace)
  {
    OneMore(e.trace, SynAck(false));
    hide RoutedFins;
  }

  lemma DeliverCounts(e: End, f: Frame, accept: bool, bind: bool, res: Result)
    ensures RoutedFins(Receive(e, f, accept, bind, res).e.trace) == RoutedFins(e.trace)
  {
    hide RoutedFins, Receive;
    if f == Connect { CallCounts(e, accept, bind, res); }
  }

  lemma TransportCounts(role: Role, a: Action, e: End)
    requires Enabled(role, a, e) && OfTransport(a)
    ensures Counts(a, e, TransportStep(role, a, e).e)
  {
    OneMore(e.trace, SynAck(false));
    hide RoutedFins;
    if a.Deliver? { DeliverCounts(e, a.frame, a.accept, a.bind, a.res); }
  }

  lemma SentLogs(role: Role, res: Result, e: End)
    requires Enabled(role, SendData(res), e) && Sends(e, res)
    ensures ReaderStep(role, SendData(res), e).e.trace == Logged(e, Data(e.reader.payload))
  {
  }

  lemma LostLogs(role: Role, res: Result, e: End)
    requires Enabled(role, SendData(res), e) && !Sends(e, res)
    ensures ReaderStep(role, SendData(res), e).e.trace == Logged(e, Data(e.reader.payload))
  {
  }

  lemma LoggedCounts(e: End, f: Frame, t: seq<Frame>)
    requires t == Logged(e, f) && !f.Fin?
    ensures RoutedFins(t) == RoutedFins(e.trace)
  {
    OneMore(e.trace, f);
    hide RoutedFins;
  }

  lemma SendCounts(role: Role, res: Result, e: End)
    requires Enabled(role, SendData(res), e) && e.reader.AtSend?
    ensures Counts(SendData(res), e, ReaderStep(role, SendData(res), e).e)
  {
    hide RoutedFins, ReaderStep, Enabled, Sends, Logged;
    if Sends(e, res) { SentLogs(role, res, e); } else { LostLogs(role, res, e); }
    LoggedCounts(e, Data(e.reader.payload), ReaderStep(role, SendData(res), e).e.trace);
  }

  lemma ReaderIsSilent(role: Role, a: Action, e: End)
    requires Enabled(role, a, e) && OfReader(a) && !a.SendData?
    ensures Counts(a, e, ReaderStep(role, a, e).e)
  {
    assert ReaderStep(role, a, e).e.trace == e.trace;
    hide RoutedFins, ReaderStep;
  }

  lemma ReaderCounts(role: Role, a: Action, e: End)
    requires Enabled(role, a, e) && OfReader(a)
    ensures Counts(a, e, ReaderStep(role, a, e).e)
  {
    assert a.SendData? ==> e.reader.AtSend?;
    hide Enabled, Counts, ReaderStep;
    if a.SendData? { SendCounts(role, a.res, e); } else { ReaderIsSilent(role, a, e); }
  }

  lemma WriterCounts(role: Role, a: Action, e: End)
    requires Enabled(role, a, e) && OfWriter(a) && !a.WriterRemove?
    ensures Counts(a, e, WriterStep(role, a, e).e)
  {
    hide Enabled, Counts, WriterStep;
    if a.SendAck? || a.SendFin? { WriterSends(role, a, e); } else { WriterIsSilent(role, a, e); }
  }

  lemma WriterSends(role: Role, a: Action, e: End)
    requires Enabled(role, a, e) && (a.SendAck? || a.SendFin?)
    ensures Counts(a, e, WriterStep(role, a, e).e)
  {
    OneMore(e.trace, DataAck);
    OneMore(e.trace, Fin(FromEOF));
    hide RoutedFins;
  }

  lemma QueueKeepsTrace(role: Role, a: Action, e: End)
    requires Enabled(role, a, e) && (a.WriterStart? || a.WriterExit? || a.Take?)
    ensures WriterStep(role, a, e).e.trace == e.trace
  {
  }

  lemma WritingKeepsTrace(role: Role, a: Action, e: End)
    requires Enabled(role, a, e) && (a.WriteOk? || a.WriteFail?)
    ensures WriterStep(role, a, e).e.trace == e.trace
  {
  }

  lemma FlagsKeepTrace(role: Role, a: Action, e: End)
    requires Enabled(role, a, e) && (a.LocalEof? || a.RemoteFin? || a.Arm?)
    ensures WriterStep(role, a, e).e.trace == e.trace
  {
  }

  lemma WriterKeepsTrace(role: Role, a: Action, e: End)
    requires Enabled(role, a, e) && OfWriter(a) && !a.WriterRemove? && !a.SendAck? && !a.SendFin?
    ensures WriterStep(role, a, e).e.trace == e.trace
  {
    hide Enabled, WriterStep;
    if a.WriterStart? || a.WriterExit? || a.Take? {
      QueueKeepsTrace(role, a, e);
    } else if a.WriteOk? || a.WriteFail? {
      WritingKeepsTrace(role, a, e);
    } else {
      FlagsKeepTrace(role, a, e);
    }
  }

  lemma WriterIsSilent(role: Role, a: Action, e: End)
    requires Enabled(role, a, e) && OfWriter(a) && !a.WriterRemove? && !a.SendAck? && !a.SendFin?
    ensures Counts(a, e, WriterStep(role, a, e).e)
  {
    hide RoutedFins, WriterStep, Enabled;
    WriterKeepsTrace(role, a, e);
  }

  lemma RemovesCount(role: Role, a: Action, e: End)
    requires Enabled(role, a, e) && (a.WriterRemove? || a.TimerRemove?)
    ensures Counts(a, e, Step(role, a, e).e)
  {
    var final := if a.WriterRemove? then e.writer.final else e.timer.final;
    RemovalCounts(e, final, a.res);
    assert Step(role, a, e).e.trace == Remove(e, final, a.res).e.trace by { hide Remove; }
    hide Remove, Step, RoutedFins;
  }

  lemma OthersCount(role: Role, a: Action, e: End)
    requires Enabled(role, a, e) && (a.TimerFire? || a.SessionRemoved? || a.CloseStream? || a.StopSignal?)
    ensures Counts(a, e, Step(role, a, e).e)
  {
    RemovalCounts(e, NoFrame, Ok);
    hide RoutedFins, Remove;
  }

  lemma StepCounts(role: Role, a: Action, e: End)
    requires Enabled(role, a, e)
    ensures Counts(a, e, Step(role, a, e).e)
  {
    hide Enabled, Counts, ConnectionStep, TransportStep, ReaderStep, WriterStep, Remove;
    if a.WriterRemove? || a.TimerRemove? {
      RemovesCount(role, a, e);
    } else if OfConnection(a) {
      ConnectionCounts(role, a, e);
    } else if OfTransport(a) {
      TransportCounts(role, a, e);
    } else if OfReader(a) {
      ReaderCounts(role, a, e);
    } else if OfWriter(a) {
      WriterCounts(role, a, e);
    } else {
      OthersCount(role, a, e);
    }
  }

  // --- the second one

  /** The teardown after a failed local write, on a stream whose FIN has been routed already and that is still bound. */
  predicate RoutesSecondFin(a: Action, e: End) {
    a.WriterRemove? && e.writer == AtRemove(FinFrame(FromWriteFailure)) && e.bound && RoutedFins(e.trace) == 1
  }

  lemma AfterTheFirst(role: Role, a: Action, e: End)
    requires LocalInv(role, e) && Enabled(role, a, e) && Announced(Scan(role, e.trace))
    ensures RoutesFin(a, e) <==> a.WriterRemove? && e.writer == AtRemove(FinFrame(FromWriteFailure)) && e.bound
    ensures e.bound ==> Scan(role, e.trace) == HalfFin(FromEOF)
  {
    hide Scan, Advance, BootOrder, EofLast, Pristine, Waiting;
  }

  /** Behind a first FIN, exactly this step routes another; the first then announced the end of the data. */
  lemma SecondFin(role: Role, a: Action, e: End)
    requires LocalInv(role, e) && Enabled(role, a, e) && (a.Deliver? ==> Expected(role, e, a.frame))
    ensures var e2 := Step(role, a, e).e;
            && RoutedFins(e.trace) <= RoutedFins(e2.trace) <= 2
            && (RoutedFins(e.trace) == 0 ==> RoutedFins(e2.trace) <= 1)
            && (RoutedFins(e.trace) > 0 ==> (RoutedFins(e2.trace) > RoutedFins(e.trace) <==> RoutesSecondFin(a, e)))
            && (RoutesSecondFin(a, e) ==> RoutedFins(e2.trace) == 2 && Scan(role, e.trace) == HalfFin(FromEOF))
  {
    var e2 := Step(role, a, e).e;
    StepCounts(role, a, e);
    StepKeeps(role, a, e);
    NotBad(role, e);
    NotBad(role, e2);
    FinsAreScanned(role, e.trace);
    FinsAreScanned(role, e2.trace);
    hide Step, Enabled, LocalInv, RoutedFins, Scan, RoutesFin, Expected;
    if Announced(Scan(role, e.trace)) { AfterTheFirst(role, a, e); }
  }

  lemma NotBad(role: Role, e: End)
    requires LocalInv(role, e)
    ensures Scan(role, e.trace) != Bad
  {
    hide Shape, EofLast, FinState, Scan;
  }

  // --- runs

  /** The given side takes that step. */
  predicate FailsAfterEnd(s: System, ev: Event, side: Role) {
    match ev
    case ByA(act) => side == Initiator && RoutesSecondFin(act, s.a)
    case ByB(act) => side == Responder && RoutesSecondFin(act, s.b)
    case LinkDown => false
  }

  function Fins(s: System, side: Role): nat { RoutedFins(Mine(s, side).trace) }

  lemma NextFins(s: System, ev: Event, side: Role)
    requires Inv(s) && CanStep(s, ev) && Fins(s, side) <= 2
    ensures Fins(s, side) <= Fins(Next(s, ev), side) <= 2
    ensures Fins(s, side) == 0 ==> Fins(Next(s, ev), side) <= 1
    ensures Fins(s, side) > 0 ==> (Fins(Next(s, ev), side) > Fins(s, side) <==> FailsAfterEnd(s, ev, side))
    ensures FailsAfterEnd(s, ev, side) ==> Fins(s, side) == 1
  {
    hide PipeInv, PipeOf, SourceOf, SinkOf, Handshake, LocalInv, Step, Enabled, Expected, RoutedFins, Scan;
    match ev
    case ByA(act) =>
      if act.Deliver? { ExpectedByA(s, act); }
      if side == Initiator { SecondFin(Initiator, act, s.a); }
    case ByB(act) =>
      if act.Deliver? { ExpectedByB(s, act); }
      if side == Responder { SecondFin(Responder, act, s.b); }
    case LinkDown =>
  }

  lemma {:induction false} RunPrefix(s: System, x: seq<Event>, y: seq<Event>)
    requires Run(s, x + y).Some?
    ensures Run(s, x).Some?
    decreases |x|
  {
    hide CanStep, Next;
    if x != [] {
      assert (x + y)[0] == x[0] && (x + y)[1..] == x[1..] + y;
      RunPrefix(Next(s, x[0]), x[1..], y);
    }
  }

  /** The run up to its i-th event, and that event. */
  ghost predicate FailsAt(s: System, evs: seq<Event>, i: nat, side: Role) {
    i < |evs| && Run(s, evs[..i]).Some? && FailsAfterEnd(Run(s, evs[..i]).value, evs[i], side)
  }

  lemma {:induction false} FinsInRun(s: System, evs: seq<Event>, side: Role)
    requires Inv(s) && Run(s, evs).Some? && Fins(s, side) == 0
    ensures Fins(Run(s, evs).value, side) <= 2
    ensures Fins(Run(s, evs).value, side) == 2 <==> exists i: nat :: FailsAt(s, evs, i, side)
    decreases |evs|
  {
    hide Inv, CanStep, Next, Fins, FailsAfterEnd;
    if evs != [] {
      var pre, ev := evs[..|evs| - 1], evs[|evs| - 1];
      assert evs == pre + [ev];
      RunPrefix(s, pre, [ev]);
      RunConcat(s, pre, [ev]);
      var t := Run(s, pre).value;
      assert [ev][1..] == [] && [ev][0] == ev;
      assert Run(t, [ev]) == Run(s, evs);
      assert CanStep(t, ev) && Run(Next(t, ev), []) == Some(Next(t, ev));
      RunInv(s, pre);
      FinsInRun(s, pre, side);
      NextFins(t, ev, side);
      assert forall i: nat :: i < |pre| ==> evs[..i] == pre[..i] && evs[i] == pre[i];
      assert forall i: nat :: i < |pre| ==> (FailsAt(s, pre, i, side) <==> FailsAt(s, evs, i, side));
      assert FailsAt(s, evs, |pre|, side) <==> FailsAfterEnd(t, ev, side);
    }
  }

  lemma NoneYet(windowA: nat, capA: nat, windowB: nat, capB: nat, side: Role)
    ensures Fins(Initial(windowA, capA, windowB, capB), side) == 0
  {
    assert Mine(Initial(windowA, capA, windowB, capB), side).trace == [];
  }

  /**
   Whatever the interleaving, a side routes at most two FINs, and it routes two exactly when
   at some moment of the run it tears a still bound stream down after a failed local write,
   its end of data having been announced.
   */
  lemma TwoFinsExactly(windowA: nat, capA: nat, windowB: nat, capB: nat, evs: seq<Event>, side: Role)
    requires Run(Initial(windowA, capA, windowB, capB), evs).Some?
    ensures var s := Initial(windowA, capA, windowB, capB);
            && Fins(Run(s, evs).value, side) <= 2
            && (Fins(Run(s, evs).value, side) == 2 <==> exists i: nat :: FailsAt(s, evs, i, side))
  {
    hide Run, FailsAt, Inv, Fins;
    var s := Initial(windowA, capA, windowB, capB);
    NoneYet(windowA, capA, windowB, capB, side);
    InitialInv(windowA, capA, windowB, capB);
    FinsInRun(s, evs, side);
  }

  /** "At most one FIN per side" is false in every configuration: either side can route two. */
  lemma TwoFinsAreReachable(side: Role, windowA: nat, capA: nat, windowB: nat, capB: nat)
    requires capA > 0 && capB > 0
    ensures exists t: System :: Path(Initial(windowA, capA, windowB, capB), t)
              && Mine(t, side).trace == [Opener(side), Fin(FromEOF), Fin(FromWriteFailure)]
  {
    var s := View(Opened(windowA, capA, windowB, capB), side);
    var b2 := Handed(s.b, 1);
    var s1 := System(s.a, b2, [], [Data([1])], true);
    var a2 := Torn(Finished(s.a).(writer := AtWrite([1])));
    var u := System(a2, b2, [] + [Fin(FromEOF)] + [Fin(FromWriteFailure)], [], true);
    Usable(windowA, capA, windowB, capB, side);
    assert [] + [Data([1])] == [Data([1])] && Begun(s1);
    assert a2.trace == [Opener(side), Fin(FromEOF), Fin(FromWriteFailure)];
    hide Path, Handed, Torn, Finished, Opened, View, Initial;
    PeerHands(s, 1);
    ClosesTwice(s1, [1]);
    PathTrans(s, s1, u);
    FromTheStart(windowA, capA, windowB, capB, side, u);
    Seen(u, side);
  }
}
