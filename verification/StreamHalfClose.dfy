/** Half-close: the two FIN flags, the timer behind them, and the order in which the ends of the two directions come. */
module StreamHalfClose {
  import opened Basics
  import opened Pipe
  import opened StreamEndpoint
  import opened StreamLocal
  import opened StreamSystem

  /** One endpoint left alone with a list of its own steps. */
  function Play(role: Role, e: End, acts: seq<Action>): Option<Out>
    decreases |acts|
  {
    if acts == [] then Some(Out(e, []))
    else if !Enabled(role, acts[0], e) then None
    else
      var o := Step(role, acts[0], e);
      match Play(role, o.e, acts[1..])
      case None => None
      case Some(rest) => Some(Out(rest.e, o.frames + rest.frames))
  }

  lemma PlayCons(role: Role, e: End, a: Action, acts: seq<Action>, e2: End)
    requires Enabled(role, a, e) && Step(role, a, e) == Out(e2, [])
    ensures Play(role, e, [a] + acts) == Play(role, e2, acts)
  {
    hide Enabled, Step;
    assert ([a] + acts)[1..] == acts && ([a] + acts)[0] == a;
    var rest := Play(role, e2, acts);
    if rest.Some? { assert [] + rest.value.frames == rest.value.frames; }
  }

  lemma PlayLast(role: Role, e: End, a: Action)
    requires Enabled(role, a, e)
    ensures Play(role, e, [a]) == Some(Step(role, a, e))
  {
    hide Enabled, Step;
    var o := Step(role, a, e);
    assert Play(role, o.e, []) == Some(Out(o.e, []));
    assert o.frames + [] == o.frames;
  }

  lemma PlaySend(role: Role, e: End, a: Action, acts: seq<Action>, o: Out, e3: End)
    requires Enabled(role, a, e) && Step(role, a, e) == o && Play(role, o.e, acts) == Some(Out(e3, []))
    ensures Play(role, e, [a] + acts) == Some(Out(e3, o.frames))
  {
    assert ([a] + acts)[1..] == acts;
    hide Enabled, Step;
    assert o.frames + [] == o.frames;
  }

  lemma TakesOne(role: Role, e: End, i: Item, rest: seq<Item>)
    requires e.writer == Idle && e.inbox == [i] + rest && !i.DataItem?
    ensures Goes(role, e, Take, e.(inbox := rest, writer := if i.FinItem? then AtRemoteFin(i.origin) else AtLocalEof))
  {
    assert e.inbox[1..] == rest;
  }

  lemma HandlesEof(role: Role, e: End)
    requires e.writer == AtLocalEof
    ensures e.localFin ==> Goes(role, e, LocalEof, e.(writer := Idle))
    ensures !e.localFin ==>
              Goes(role, e, LocalEof, e.(localFin := true,
                  writer := if e.remoteFin then AtRemove(FinFrame(FromEOF)) else AtSendFin))
  {
  }

  lemma HandlesFin(role: Role, e: End)
    requires e.writer.AtRemoteFin?
    ensures e.remoteFin ==> Goes(role, e, RemoteFin, e.(writer := Idle))
    ensures !e.remoteFin ==>
              Goes(role, e, RemoteFin, e.(remoteFin := true, writer := if e.localFin then AtRemove(NoFrame) else AtArm))
  {
  }

  lemma Arms(role: Role, e: End)
    requires e.writer == AtArm
    ensures Goes(role, e, Arm, e.(timer := Armed, writer := Idle))
  {
  }

  lemma SendsFin(role: Role, e: End, res: Result)
    requires e.writer == AtSendFin
    ensures Enabled(role, SendFin(res), e)
    ensures Step(role, SendFin(res), e)
            == Out(e.(trace := Logged(e, Fin(FromEOF)), mute := Muted(e, res), writer := AtArm),
                Passed(e, Fin(FromEOF), res))
  {
  }

  lemma Removes(role: Role, e: End, final: Final, res: Result)
    requires e.writer == AtRemove(final) && e.phase == Live && !final.RefuseFrame?
    ensures Enabled(role, WriterRemove(res), e)
    ensures var gone := e.(phase := Gone, localFin := true, remoteFin := true, ready := true, bound := false,
            writer := WriterDone);
            Step(role, WriterRemove(res), e)
            == if final == NoFrame then Out(gone, [])
               else Out(gone.(trace := Logged(e, Fin(final.origin)), mute := Muted(e, res)),
                   Passed(e, Fin(final.origin), res))
  {
  }

  /** A stream both of whose directions have just ended, and nothing else. */
  predicate BothEnding(e: End) { e.phase == Live && !e.localFin && !e.remoteFin && e.writer == Idle && e.timer == Off }

  /** The stream after both ends have been handled: torn down, one FIN routed. */
  function BothEnded(e: End, res: Result): End {
    e.(phase := Gone, bound := false, ready := true, localFin := true, remoteFin := true, timer := Armed,
        writer := WriterDone,
       trace := Logged(e, Fin(FromEOF)), mute := Muted(e, res))
  }

  /** The peer's FIN with the own FIN out already: the stream is removed without another. */
  lemma FinEnds(role: Role, e: End, o: Origin, rest: seq<Item>, late: Result)
    requires e.phase == Live && e.localFin && !e.remoteFin && e.writer == Idle && e.inbox == [FinItem(o)] + rest
    ensures Play(role, e, [Take] + ([RemoteFin] + [WriterRemove(late)]))
            == Some(Out(e.(inbox := rest, phase := Gone, bound := false, ready := true, remoteFin := true,
                writer := WriterDone), []))
  {
    var e5 := e.(inbox := rest, writer := AtRemoteFin(o));
    var e6 := e5.(remoteFin := true, writer := AtRemove(NoFrame));
    TakesOne(role, e, FinItem(o), rest);
    HandlesFin(role, e5);
    Removes(role, e6, NoFrame, late);
    hide Play, Enabled, Step;
    PlayLast(role, e6, WriterRemove(late));
    PlayCons(role, e5, RemoteFin, [WriterRemove(late)], e6);
    PlayCons(role, e, Take, [RemoteFin] + [WriterRemove(late)], e5);
  }

  /** Local EOF with the peer's FIN in already: the stream is removed with a FIN. */
  lemma EofEnds(role: Role, e: End, rest: seq<Item>, res: Result)
    requires e.phase == Live && !e.localFin && e.remoteFin && e.writer == Idle && e.inbox == [EofItem] + rest
    ensures Play(role, e, [Take] + ([LocalEof] + [WriterRemove(res)]))
            == Some(Out(e.(inbox := rest, phase := Gone, bound := false, ready := true, localFin := true,
                writer := WriterDone,
                           trace := Logged(e, Fin(FromEOF)), mute := Muted(e, res)), Passed(e, Fin(FromEOF), res)))
  {
    var e4 := e.(inbox := rest, writer := AtLocalEof);
    var e5 := e4.(localFin := true, writer := AtRemove(FinFrame(FromEOF)));
    TakesOne(role, e, EofItem, rest);
    HandlesEof(role, e4);
    Removes(role, e5, FinFrame(FromEOF), res);
    hide Play, Enabled, Step;
    PlayLast(role, e5, WriterRemove(res));
    PlayCons(role, e4, LocalEof, [WriterRemove(res)], e5);
    PlayCons(role, e, Take, [LocalEof] + [WriterRemove(res)], e4);
  }

  /** Local EOF, then the peer's FIN. */
  lemma EofThenFin(role: Role, e: End, o: Origin, rest: seq<Item>, res: Result, late: Result)
    requires BothEnding(e) && e.inbox == [EofItem] + ([FinItem(o)] + rest)
    ensures var last := [Take] + ([RemoteFin] + [WriterRemove(late)]);
            Play(role, e, [Take] + ([LocalEof] + ([SendFin(res)] + ([Arm] + last))))
            == Some(Out(BothEnded(e, res).(inbox := rest), Passed(e, Fin(FromEOF), res)))
  {
    var fin, i1, last := Fin(FromEOF), [FinItem(o)] + rest, [Take] + ([RemoteFin] + [WriterRemove(late)]);
    var e1 := e.(inbox := i1, writer := AtLocalEof);
    var e2 := e1.(localFin := true, writer := AtSendFin);
    var e3 := e2.(trace := Logged(e, fin), mute := Muted(e, res), writer := AtArm);
    var e4 := e3.(timer := Armed, writer := Idle);
    TakesOne(role, e, EofItem, i1);
    HandlesEof(role, e1);
    SendsFin(role, e2, res);
    Arms(role, e3);
    FinEnds(role, e4, o, rest, late);
    hide Play, Enabled, Step, Logged, Muted, Passed;
    PlayCons(role, e3, Arm, last, e4);
    PlaySend(role, e2, SendFin(res), [Arm] + last, Out(e3, Passed(e, fin, res)), BothEnded(e, res).(inbox := rest));
    PlayCons(role, e1, LocalEof, [SendFin(res)] + ([Arm] + last), e2);
    PlayCons(role, e, Take, [LocalEof] + ([SendFin(res)] + ([Arm] + last)), e1);
  }

  /** The peer's FIN, then local EOF. */
  lemma FinThenEof(role: Role, e: End, o: Origin, rest: seq<Item>, res: Result)
    requires BothEnding(e) && e.inbox == [FinItem(o)] + ([EofItem] + rest)
    ensures var last := [Take] + ([LocalEof] + [WriterRemove(res)]);
            Play(role, e, [Take] + ([RemoteFin] + ([Arm] + last)))
            == Some(Out(BothEnded(e, res).(inbox := rest), Passed(e, Fin(FromEOF), res)))
  {
    var i1, last := [EofItem] + rest, [Take] + ([LocalEof] + [WriterRemove(res)]);
    var e1 := e.(inbox := i1, writer := AtRemoteFin(o));
    var e2 := e1.(remoteFin := true, writer := AtArm);
    var e3 := e2.(timer := Armed, writer := Idle);
    TakesOne(role, e, FinItem(o), i1);
    HandlesFin(role, e1);
    Arms(role, e2);
    EofEnds(role, e3, rest, res);
    hide Play, Enabled, Step;
    PlayCons(role, e2, Arm, last, e3);
    PlayCons(role, e1, RemoteFin, [Arm] + last, e2);
    PlayCons(role, e, Take, [RemoteFin] + ([Arm] + last), e1);
  }

  /** Whichever direction ends first, without the timer the stream ends in the same state with the same one FIN. */
  lemma UndisturbedOrdersAgree(role: Role, e: End, o: Origin, rest: seq<Item>, res: Result, late: Result)
    requires BothEnding(e)
    ensures var localFirst := Play(role, e.(inbox := [EofItem, FinItem(o)] + rest),
                                   [Take, LocalEof, SendFin(res), Arm, Take, RemoteFin, WriterRemove(late)]);
            var remoteFirst := Play(role, e.(inbox := [FinItem(o), EofItem] + rest),
                                    [Take, RemoteFin, Arm, Take, LocalEof, WriterRemove(res)]);
            && localFirst.Some? && localFirst == remoteFirst
            && localFirst.value.e.phase == Gone && !localFirst.value.e.bound
            && localFirst.value.frames == Passed(e, Fin(FromEOF), res)
  {
    hide Play;
    var a, b := e.(inbox := [EofItem, FinItem(o)] + rest), e.(inbox := [FinItem(o), EofItem] + rest);
    assert a.inbox == [EofItem] + ([FinItem(o)] + rest) && b.inbox == [FinItem(o)] + ([EofItem] + rest);
    var eof, fin := [LocalEof] + [WriterRemove(res)], [RemoteFin] + [WriterRemove(late)];
    assert [Take, RemoteFin, Arm, Take, LocalEof, WriterRemove(res)]
           == [Take] + ([RemoteFin] + ([Arm] + ([Take] + eof)));
    assert [Take, LocalEof, SendFin(res), Arm, Take, RemoteFin, WriterRemove(late)]
           == [Take] + ([LocalEof] + ([SendFin(res)] + ([Arm] + ([Take] + fin))));
    EofThenFin(role, a, o, rest, res, late);
    FinThenEof(role, b, o, rest, res);
    assert BothEnded(a, res).(inbox := rest) == BothEnded(b, res).(inbox := rest);
  }

  /** A second FIN of the peer is taken and changes nothing. */
  lemma RepeatedFinChangesNothing(role: Role, e: End, o: Origin, rest: seq<Item>)
    requires e.writer == Idle && e.remoteFin && e.inbox == [FinItem(o)] + rest
    ensures Play(role, e, [Take, RemoteFin]) == Some(Out(e.(inbox := rest), []))
  {
    var e1 := e.(inbox := rest, writer := AtRemoteFin(o));
    TakesOne(role, e, FinItem(o), rest);
    HandlesFin(role, e1);
    hide Play, Enabled, Step;
    PlayLast(role, e1, RemoteFin);
    PlayCons(role, e, Take, [RemoteFin], e1);
  }

  /** So is a local EOF after the timer has closed the direction. */
  lemma LateEofChangesNothing(role: Role, e: End, rest: seq<Item>)
    requires e.writer == Idle && e.localFin && e.inbox == [EofItem] + rest
    ensures Play(role, e, [Take, LocalEof]) == Some(Out(e.(inbox := rest), []))
  {
    var e1 := e.(inbox := rest, writer := AtLocalEof);
    TakesOne(role, e, EofItem, rest);
    HandlesEof(role, e1);
    hide Play, Enabled, Step;
    PlayLast(role, e1, LocalEof);
    PlayCons(role, e, Take, [LocalEof], e1);
  }

  lemma FiresLate(role: Role, e: End, res: Result)
    requires e.phase == Gone && e.localFin
    ensures e.timer == Armed ==> Goes(role, e, TimerFire, e.(timer := Firing(NoFrame)))
    ensures e.timer == Firing(NoFrame) ==> Goes(role, e, TimerRemove(res), e.(timer := Fired))
  {
  }

  /** A timer that fires after the stream is gone changes nothing but itself. */
  lemma LateTimerChangesNothing(role: Role, e: End, res: Result)
    requires LocalInv(role, e) && e.phase == Gone && e.timer == Armed
    ensures Play(role, e, [TimerFire, TimerRemove(res)]) == Some(Out(e.(timer := Fired), []))
  {
    assert e.localFin;
    hide Play, Enabled, Step, LocalInv;
    var e1 := e.(timer := Firing(NoFrame));
    FiresLate(role, e, res);
    FiresLate(role, e1, res);
    PlayLast(role, e1, TimerRemove(res));
    PlayCons(role, e, TimerFire, [TimerRemove(res)], e1);
  }

  // --- the other ends of a stream

  /**
   The timer ends the stream; it sends the peer a FIN exactly when it finds the local flag clear.
   A flag that is set does not mean that a FIN has been sent: StreamEnding says what follows.
   */
  lemma TimerEndsStream(role: Role, e: End, res: Result)
    requires e.phase == Live && e.timer == Armed
    ensures Play(role, e, [TimerFire] + [TimerRemove(res)]).Some?
    ensures var o := Play(role, e, [TimerFire] + [TimerRemove(res)]).value;
            && o.e.phase == Gone && !o.e.bound && o.e.timer == Fired
            && o.frames == (if e.localFin then [] else Passed(e, Fin(FromTimer), res))
            && o.e.trace == (if e.localFin then e.trace else Logged(e, Fin(FromTimer)))
  {
    var e1 := e.(localFin := true, timer := Firing(if e.localFin then NoFrame else FinFrame(FromTimer)));
    Fires(role, e, e1);
    TimerRemoves(role, e1, res);
    assert Enabled(role, TimerRemove(res), e1);
    hide Play, Enabled, Step;
    PlayLast(role, e1, TimerRemove(res));
    PlayCons(role, e, TimerFire, [TimerRemove(res)], e1);
  }

  lemma Fires(role: Role, e: End, e1: End)
    requires e.timer == Armed
    requires e1 == e.(localFin := true, timer := Firing(if e.localFin then NoFrame else FinFrame(FromTimer)))
    ensures Goes(role, e, TimerFire, e1)
  {
  }

  lemma TimerRemoves(role: Role, e: End, res: Result)
    requires e.phase == Live && e.timer.Firing? && !e.timer.final.RefuseFrame?
    ensures var o := Step(role, TimerRemove(res), e);
            && o.e.phase == Gone && !o.e.bound && o.e.timer == Fired
            && o.frames == (if e.timer.final == NoFrame then [] else Passed(e, Fin(e.timer.final.origin), res))
            && o.e.trace == (if e.timer.final == NoFrame then e.trace else Logged(e, Fin(e.timer.final.origin)))
  {
  }

  /** A failed write ends the stream and tells the peer. */
  lemma FailedWriteEndsStream(role: Role, e: End, n: nat, res: Result)
    requires e.phase == Live && e.writer.AtWrite? && n <= |e.writer.payload|
    ensures Play(role, e, [WriteFail(n)] + [WriterRemove(res)]).Some?
    ensures var o := Play(role, e, [WriteFail(n)] + [WriterRemove(res)]).value;
            && o.e.phase == Gone && !o.e.bound && o.e.writer == WriterDone
               && o.e.written == e.written + e.writer.payload[..n]
            && o.frames == Passed(e, Fin(FromWriteFailure), res)
  {
    var e1 := e.(written := e.written + e.writer.payload[..n], waste := e.waste + 1,
        writer := AtRemove(FinFrame(FromWriteFailure)));
    FailsWrite(role, e, n);
    Removes(role, e1, FinFrame(FromWriteFailure), res);
    hide Play, Enabled, Step;
    PlayLast(role, e1, WriterRemove(res));
    PlayCons(role, e, WriteFail(n), [WriterRemove(res)], e1);
  }

  lemma FailsWrite(role: Role, e: End, n: nat)
    requires e.writer.AtWrite? && n <= |e.writer.payload|
    ensures Goes(role, e, WriteFail(n), e.(written := e.written + e.writer.payload[..n], waste := e.waste + 1,
                                            writer := AtRemove(FinFrame(FromWriteFailure))))
  {
    assert Step(role, WriteFail(n), e) == WriterStep(role, WriteFail(n), e);
  }

  predicate RemovalPending(e: End) { e.writer.AtRemove? || e.timer.Firing? }

  predicate Watched(e: End) {
    e.phase == Live ==>
      && (e.localFin && e.remoteFin ==> RemovalPending(e))
      && (e.localFin != e.remoteFin ==>
            e.timer == Armed || e.writer == AtSendFin || e.writer == AtArm || RemovalPending(e))
  }

  lemma FlagsAreWatched(role: Role, e: End)
    requires LocalInv(role, e)
    ensures Watched(e)
  {
    hide Shape, EofLast, TraceState;
  }

  /**
   A stream in the table with both FIN flags set is about to be removed; a half-closed one has its
   timer, or is about to.
   */
  lemma HalfClosedIsWatched(s: System, side: Role)
    requires Reachable(s)
    ensures Watched(Mine(s, side))
  {
    hide Reachable, Inv, LocalInv, Watched;
    ReachableInv(s);
    BothLocal(s);
    FlagsAreWatched(Initiator, s.a);
    FlagsAreWatched(Responder, s.b);
  }

  /**
   The end of the local data is never lost: it is queued, being handled, or has closed its
   direction, unless the tunnel stops.
   */
  lemma LocalEofIsNotLost(s: System, side: Role)
    requires Reachable(s)
    ensures var e := Mine(s, side);
            e.phase == Live && !e.done && e.reader == ReaderDone ==>
                EofItem in e.inbox || e.writer == AtLocalEof || e.localFin
  {
    ReachableInv(s);
    hide Reachable, PipeInv, PipeOf, SourceOf, SinkOf, Handshake, Shape, FinState, TraceState;
  }
}
